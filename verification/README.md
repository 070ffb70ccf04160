# Verified model of the IONOS Cloud Cluster API provider

The provider is a Kubernetes controller for an asynchronous cloud. Each write becomes a request
that is queued, running, and then done or failed. Reconciles of many machines run concurrently
and share LANs, IP failover groups and IP blocks. This project models the parts in which that
concurrency and asynchrony matter and proves what they keep.

`dafny verify dfyconfig.toml` checks everything.

## What is proved

- **The keyed, cancellable lock** (`Locker*`, `LockCancel`, `LockOrder`, `StrayUnlock`). One transition is one
  mutex, map, counter or channel action of one goroutine. There are any number of goroutines and
  keys, and a context may be done wherever the code looks at it. One inductive invariant gives
  mutual exclusion per key although lock objects are deleted and recreated, the exact content of
  the map and of the waiter counters, an empty map at quiescence, an Unlock that neither panics nor
  blocks for its holder, a Lock that can always be given up and then leaves no trace, and a
  refinement of a plain mutex per key. With the lock order of the
  call sites, no reachable state of any set of reconciles is a deadlock.
- **Creating at most once** (`Requests`, `CreateOnce`, `LockedSection`, `LockedCreate`,
  `ObservedCreations`). The cloud
  may move between any two observations of a reconcile. Listed resources plus pending creations of
  one name never exceed one, and an undisturbed reconcile does go on to create exactly if there are
  none. For LANs and failover IP blocks this is proved on top of the lock's own
  transitions, so exclusion is a consequence there and not an assumption.
- **The failover group of a LAN** (`Failover`, `FailoverRuns`, `LostUpdates`, `FailoverHandover`).
  Concurrent edits under the LAN lock have the effect of the same edits one after the other in lock
  order if no patch is in flight when the lock is acquired, or at least none lands between a read and
  the check after it, or at least none that matters to that edit. If one does, the run can go on to
  lose an update. IPs stay distinct, a managed NIC stays in one entry,
  and foreign entries are not touched. When a deleted machine leaves its entry behind is stated
  exactly.
- **Machine life cycle** (`MachineDeletion`, `VolumeSafety`, `Provisioning`, `Ipam`, `ClaimRuns`).
  Deletion converges; it takes no volume but the boot volume; a machine is provisioned exactly if
  everything was in place in one of its passes; addresses of IP pools arrive in the server by index;
  claims are guarded by the machine finalizer until a sweep takes it off for good. Two machines
  share a claim in exactly the cases stated.
- **Lookups and decisions** (`LanLookup`, `ServerLookup`, `IpBlocks`, `LatestMachine`, `Images`). Each loop is
  proved against a declarative description of its result.

Where the source mutates an object or runs a loop, the model has a class or a method with a loop,
proved equal to a specification function. The theorems about runs are about those functions.

## Hypotheses

- Unlock is called only by a goroutine that holds the key, as every caller in the repository does.
  `StrayUnlock` says what happens otherwise.
- An accepted creation is in the request queue at once. A done request has its resource listed until
  it is deleted, a failed one has none, and a pending one may or may not be listed.
- Creation dates of requests for one name differ. The time a request can stay pending plus the time
  from the first lookup to the question to the queue is below the 24 hours the queue shows.
- Servers and endpoint IP blocks are created under no key lock. There, one reconcile at a time per
  name is assumed, which is what the controller work queue gives. `TwoWithoutExclusion` shows that
  it is needed.
- For failover edits, one of three conditions, each weaker than the one before: no LAN patch is in
  flight when the LAN lock is acquired (`FailoverRuns.CalmRun`); none that changes the list lands
  between a read and the check for pending patches (`FailoverRuns.UndisturbedRun`); none that lands
  there makes a difference to the edit (`FailoverRuns.HarmlessRun`). `LostUpdates.HarmfulLandLoses`
  shows that the last one is needed.
- No deletion pass looks a server up before it shows its boot volume. `VolumeSafety.EarlyLookOrphans`
  shows that this is needed, and only for the part about orphaned boot volumes.
- Each managed NIC has one desired failover IP, and a swap is between NICs with the same one.
- Network IDs of one machine are distinct where claim names are concerned.
- Nothing outside of the cluster edits its LAN or uses its resource names.

## Where the code and its documentation differ

The model follows the code.

- `Unlock` is documented to panic if the key is not locked. It does so exactly if, besides, nobody
  is registered for the key; otherwise it waits on the empty channel with the internal mutex held
  (`StrayUnlock.OutcomeIff`, `StrayUnlock.PromisedPanicFails`).
- `FindLatestMachine` is documented to return nil if there is no other machine. It also returns nil
  for a list of one other machine, and if the receiver is listed first and newer than all others
  (`LatestMachine.NilOnlyWithoutOthersIff`, `LatestMachine.PromiseFails`).
- `checkRequestStates` lets a finished request of the machine overrule a pending one of the cluster
  (`MachineDeletion.ClusterPendingRequeuesIff`).
- `ReconcileControlPlaneEndpointDeletion` dereferences a nil block if all it finds is a finished
  creation request (`IpBlocks.ReconcileEndpointDeletion`, `IpBlocks.DeletionThenPanic`).
- `reconcileIPFailoverGroup` can make two entries share an IP when it corrects the IP of a NIC
  (`Failover.AddKeepsDistinctIff`, `Failover.AddCanDuplicate`).
- Claim names of two machines can be equal, in exactly the cases of `Ipam.ClaimNamesEqualIff`.
- A LAN named by `spec.networkID` is deleted with the machine exactly if it has no NICs and no
  deletion of it is under way, whoever made it (`LanLookup.ReconcileLANDeletion`,
  `LanLookup.LanOfUserIsCondemned`).
- `ReconcileIPFailoverDeletion` is documented to swap the NIC of a deleted primary. If the machine is
  listed first and newer than all others, nothing is swapped and its NIC stays in the group
  (`FailoverHandover.LeavesEntryIff`, `FailoverHandover.EntryStaysBehind`).

## Model

| member | source | states |
|---|---|---|
| `LockerInvariant.InvKept` | internal/util/locker/locker.go:81-139 | Every action of every goroutine keeps the invariant: registered and holding goroutines use the mapped object of their key, counters equal registrations, each token belongs to a goroutine, no entry is left without a user |
| `LockerRuns.RunKeepsInv` | internal/util/locker/locker.go:81-139 | The invariant holds at the end of every run from a fresh locker |
| `LockerRuns.MutualExclusion` | internal/util/locker/locker.go:81-139 | In every reachable state at most one goroutine is between a successful Lock(k) and its Unlock(k) |
| `LockerRuns.MapIsExact` | internal/util/locker/locker.go:91-119 | With the mutex free, a key is in the map exactly if an object of it is occupied or has a registered waiter, and that object is the mapped one |
| `LockerRuns.CounterIsExact` | internal/util/locker/locker.go:64-77 | The waiter counter is the number of registered goroutines, so it is neither negative nor above their number |
| `LockerRuns.QuiescentIsEmpty` | internal/util/locker/locker.go:22-23 | When everybody is done, the map is empty and every object ever made is free and without waiters |
| `LockerRuns.UnlockOfHolder` | internal/util/locker/locker.go:124-139 | A holder's Unlock finds the object it sent into, never panics, and its receive never blocks |
| `LockerRuns.RefinesKeyedMutex` | internal/util/locker/locker.go:81-139 | Each action is an acquisition of a free key, a release by its owner, or changes no ownership; so a Lock that returns an error holds nothing and disturbs nobody |
| `LockCancel.CanGiveUp` | internal/util/locker/locker.go:84-112 | A goroutine that looks at its context inside Lock can always give up once that is done, and touches nothing by that |
| `LockCancel.EarlyGiveUpEnds` | internal/util/locker/locker.go:82-89 | Giving up before registering returns to the client with the map and all objects as they were |
| `LockCancel.GiveUpEnds` | internal/util/locker/locker.go:110-119 | A waiter that gave up, as soon as the mutex is free, is back in the client with what it held; no key changed its owner, and each key is mapped exactly if occupied or waited for |
| `StrayUnlock.OutcomeIsSection` | internal/util/locker/locker.go:124-139 | The three outcomes of Unlock are what its actions add up to, for any caller |
| `StrayUnlock.OutcomeIff` | internal/util/locker/locker.go:123-139 | Unlock proceeds exactly if the key is locked, panics exactly if it is neither locked nor waited for, and blocks in the remaining case |
| `StrayUnlock.PromisedPanicFails` | internal/util/locker/locker.go:123-139 | A reachable state in which the key is not locked and Unlock blocks |
| `LockerObject.RegisterIsSection` | internal/util/locker/locker.go:91-102 | The actions of Lock under the mutex add up to finding or making the object and registering with it |
| `LockerObject.CancelIsSection` | internal/util/locker/locker.go:113-117 | The actions after giving up add up to deregistering and deleting an unused entry |
| `LockerObject.UnlockIsSection` | internal/util/locker/locker.go:124-139 | The actions of Unlock add up to one update, or never release the mutex if the channel is empty |
| `LockerObject.KeyedLocker.constructor` | internal/util/locker/locker.go:47-52 | A new locker has no entries |
| `LockerObject.KeyedLocker.Register` | internal/util/locker/locker.go:91-100 | The in-place update is the section of Lock |
| `LockerObject.KeyedLocker.Cancel` | internal/util/locker/locker.go:113-117 | The in-place update is the section after giving up |
| `LockerObject.KeyedLocker.Unlock` | internal/util/locker/locker.go:124-139 | The in-place update is the section of Unlock, and it says when the code does not return |
| `LockOrder.RankOfKeys` | internal/service/cloud/network.go:45-52 | LAN keys rank below current-request keys |
| `LockOrder.KeysNeverEqual` | scope/cluster.go:177-179 | The LAN key and the current-request key are never the same string |
| `LockOrder.LanKeyInjective` | internal/service/cloud/network.go:45-52 | A LAN key belongs to one cluster and data center |
| `LockOrder.FailoverBlockKeyInjective` | internal/service/cloud/ipblock.go:463-471 | A failover block key belongs to one namespace and MachineDeployment |
| `LockOrder.CurrentRequestKeyInjective` | scope/cluster.go:177-179 | A current-request key belongs to one cluster |
| `LockOrder.FailoverBlockKeyIsOther` | internal/service/cloud/ipblock.go:463-471 | A failover block key is neither a LAN key nor a current-request key |
| `LockOrder.CallSitesAscend` | internal/service/cloud/network.go:190-234 | A nested Lock asks for a key above everything held |
| `LockOrder.ReconcileRunIsOrdered` | internal/service/cloud/network.go:266-281 | In every run of reconciles each goroutine inside Lock asks for a key above everything it holds |
| `LockOrder.NoWaitCycle` | internal/util/locker/locker.go:105-109 | No goroutine waits for itself through any chain of holders |
| `LockOrder.NoDeadlock` | internal/util/locker/locker.go:81-139 | From whoever is inside Lock or Unlock, the chain of goroutines each held up by the next ends in one that can go on, without any context being done |
| `Requests.GetMatchingRequest` | internal/service/cloud/request.go:109-189 | The answer is the first addressed and matching request, an error exactly if an addressed unreadable one comes first, nothing exactly if none stops the loop; with the list newest first, no match is newer |
| `Requests.NormalIgnores` | internal/service/cloud/request.go:123-148 | A trailing slash and any query make no difference to the URL that is compared |
| `Requests.StripQuerySplits` | internal/service/cloud/request.go:123-148 | The part that is compared is what comes before the first question mark |
| `CreateOnce.QueueShowsNewest` | internal/ionoscloud/client/client.go:375-412 | With ascending creation dates the first visible request is the newest one or there is none |
| `CreateOnce.QueueKeeps` | internal/service/cloud/request.go:255-271 | The queue question, asked in time, cannot miss a live creation |
| `CreateOnce.LookupKeeps` | internal/service/cloud/request.go:242-283 | Both lookups teach a reconcile only what stays true while the cloud moves |
| `CreateOnce.RunKeepsInv` | internal/service/cloud/request.go:242-283 | In every run only the newest creation can be pending or listed, and what each reconcile has learnt is true |
| `CreateOnce.AtMostOne` | internal/service/cloud/server.go:57-76 | Listed resources and pending creations of one name never exceed one, and no lookup sees two |
| `CreateOnce.NothingFoundMeansNothing` | internal/service/cloud/ipblock.go:49-89 | When neither a resource nor a pending request was found, none exists until this reconcile posts one, with the cloud moving at any point |
| `CreateOnce.CreatesIffNothingLives` | internal/service/cloud/request.go:242-283 | A reconcile that is not disturbed goes on to create exactly if nothing is listed or pending, whatever became of earlier creations, and else leaves |
| `CreateOnce.TwoWithoutExclusion` | internal/service/cloud/request.go:242-283 | Two reconciles side by side do create the resource twice |
| `LockedSection.HoldersExclude` | internal/service/cloud/network.go:67-71 | Goroutines between Lock and the deferred Unlock of one key exclude each other |
| `LockedSection.LockerMoveKeeps` | internal/util/locker/locker.go:81-139 | No action of anybody takes the key from a goroutine inside its section |
| `LockedCreate.LockedSectionCreatesOnce` | internal/service/cloud/request.go:242-283 | For any key, sections under the real lock create at most one resource in every interleaving with the cloud |
| `LockedCreate.AtMostOneLAN` | internal/service/cloud/network.go:63-98 | Existing and pending cluster LANs of a data center never exceed one |
| `LockedCreate.LookUpLAN` | internal/service/cloud/network.go:150-188 | So getLAN, on any list that shows the listed LANs, never ends in the error for several LANs |
| `LockedCreate.AtMostOneFailoverBlock` | internal/service/cloud/network.go:323-359 | Reserved and pending failover IP blocks of a MachineDeployment never exceed one |
| `LockedCreate.LookUpFailoverBlock` | internal/service/cloud/ipblock.go:234-256 | So the first match is the only one |
| `ObservedCreations.AskQueue` | internal/service/cloud/request.go:109-189 | Over a newest-first list that shows the visible creations among other requests, getMatchingRequest gives the answer creating at most once relies on |
| `ObservedCreations.LookUpServer` | internal/service/cloud/server.go:215-245 | Over a list that shows the listed servers, getServer finds what creating at most once looks up, and it is the only one |
| `ObservedCreations.LookUpEndpointBlock` | internal/service/cloud/ipblock.go:260-311 | The same for the endpoint block; the error for several blocks is out of reach |
| `ServerLookup.MachineObject.GetServer` | internal/service/cloud/server.go:215-245 | The server with the provider ID if listed, else the first with the name, whose ID is then kept; nothing exactly if there is neither |
| `ServerLookup.FoundAgain` | internal/service/cloud/server.go:215-245 | A server once found stays the machine's for as long as it is listed, whatever its name |
| `Failover.FailoverConfig.AddNIC` | internal/service/cloud/network.go:529-568 | The loop over the list is the specified edit, and patches exactly when specified |
| `Failover.FailoverConfig.SwapNIC` | internal/service/cloud/network.go:432-469 | The same for the swap |
| `Failover.FailoverConfig.RemoveNIC` | internal/service/cloud/network.go:590-606 | The same for the removal |
| `Failover.AddTouchesOne` | internal/service/cloud/network.go:529-568 | In any list, adding takes no NIC away and changes only the first entry with the NIC or the IP: nothing if the IP comes first, its IP if the NIC does; without such an entry it appends one |
| `Failover.SwapTouchesOne` | internal/service/cloud/network.go:432-469 | In any list, a swap keeps all IPs and changes only the NIC of the first entry of the NIC |
| `Failover.RemoveTakesOne` | internal/service/cloud/network.go:590-606 | In any list, putting the removed first entry of the NIC back gives the list before |
| `Failover.ManagedOnce` | internal/service/cloud/network.go:529-568 | In a well-kept group a managed NIC is in at most one entry |
| `Failover.GoodKept` | internal/service/cloud/network.go:432-606 | Each allowed edit keeps IPs distinct and managed NICs with their own IP |
| `Failover.ForeignKept` | internal/service/cloud/network.go:432-606 | Each allowed edit leaves foreign entries unchanged and in order |
| `Failover.EditsKeepGood` | internal/service/cloud/network.go:432-606 | Both hold after every sequence of edits |
| `Failover.EditSettles` | internal/service/cloud/network.go:529-606 | An edit that took effect has nothing left to patch |
| `Failover.AddConfiguresIp` | internal/service/cloud/network.go:529-568 | Adding leaves the failover IP in the list |
| `Failover.SwapKeepsGoodIff` | internal/service/cloud/network.go:432-469 | A swap keeps the group well-kept exactly if both NICs are meant to have the same IP |
| `Failover.AddKeepsDistinctIff` | internal/service/cloud/network.go:540-560 | Adding keeps IPs distinct exactly if it does not correct an IP that a later entry has |
| `Failover.AddCanDuplicate` | internal/service/cloud/network.go:548-555 | It can make two entries share an IP |
| `FailoverRuns.ApplyKeeps` | internal/service/cloud/network.go:609-657 | Each event of a locked edit and of the cloud that is harmless keeps the list equal to the finished edits in lock order, with patches in flight at any time |
| `FailoverRuns.NoLostUpdate` | internal/service/cloud/network.go:407-470 | In every run under the real lock in which no patch that lands between a read and its check makes a difference to that edit, the list is the serial result of the finished edits in lock order |
| `FailoverRuns.GroupStaysGood` | internal/service/cloud/network.go:505-607 | Hence a well-kept group stays well-kept and foreign entries stay, under any such interleaving |
| `FailoverRuns.UndisturbedIsHarmless` | internal/service/cloud/network.go:609-637 | In any state runs keep to, a patch that lands before the read or after the check, or changes nothing, makes no difference |
| `FailoverRuns.UndisturbedLosesNothing` | internal/service/cloud/network.go:609-637 | In every run in which nothing that changes the list lands between a read and its check, no update is lost and a well-kept group stays well-kept |
| `FailoverRuns.CalmLosesNothing` | internal/service/cloud/network.go:407-657 | The same for every run in which no patch is in flight when the lock is acquired |
| `LostUpdates.HarmfulLandLoses` | internal/service/cloud/network.go:609-628 | From every reachable world in which a patch can land harmfully there is a run that loses an update |
| `LostUpdates.AddIsHarmed` | internal/service/cloud/network.go:529-568 | For every two different lists, adding any NIC and IP new to both must not be decided on the one if the LAN has the other |
| `LostUpdates.StaleReadHappens` | internal/service/cloud/network.go:505-628 | From a fresh locker, with every action of the lock, any two edits get to a read under a patch in flight |
| `LostUpdates.AnyUpdateCanBeLost` | internal/service/cloud/network.go:609-657 | From a fresh locker and any list, every edit that changes the list can be overwritten by the addition of any NIC and IP new to it |
| `FailoverHandover.ReconcileDeletion` | internal/service/cloud/network.go:370-479 | It sends a removal, sends a swap to the NIC of the latest other machine, fails, or lets a machine of the group pass, each exactly when stated |
| `FailoverHandover.LeavesEntryIff` | internal/service/cloud/network.go:407-446 | With consistent listings, a machine of the group passes without a swap exactly if others remain and it is listed first and newer than all of them |
| `FailoverHandover.HandedOver` | internal/service/cloud/network.go:432-606 | Once what the step sent has landed on a well-kept list, the NIC is in no entry and the list is well-kept; a swap leaves the failover IP with the NIC of the latest other machine, a removal takes it out |
| `FailoverHandover.EntryStaysBehind` | internal/service/cloud/network.go:442-446 | Two machines, the newer one listed first: it is let pass with its NIC in the group, although the other could take over |
| `MachineDeletion.MachinePendingRequeues` | internal/controller/ionoscloudmachine_controller.go:279-300 | A pending request of the machine always holds the pass up |
| `MachineDeletion.ClusterPendingRequeuesIff` | internal/controller/ionoscloudmachine_controller.go:257-304 | A pending request of the cluster does so exactly unless a finished machine request overrules it outside of deletion |
| `MachineDeletion.ClearsFinishedOnly` | internal/controller/ionoscloudmachine_controller.go:264-292 | A recorded request is cleared exactly if the cloud says that it is finished |
| `MachineDeletion.CheckFailsIff` | internal/controller/ionoscloudmachine_controller.go:264-303 | Which errors are reported, and that during a deletion an answer about the machine's request hides those of the cluster's |
| `MachineDeletion.MachineReconciler.ReconcileDelete` | internal/controller/ionoscloudmachine_controller.go:205-248 | The loop over the steps is the specified pass, and it ends early exactly if the finalizer stays |
| `MachineDeletion.FinalizerGoesAfterServer` | internal/service/cloud/server.go:103-144 | In any cloud and however the pass ends, the finalizer goes only when the server is gone or its deletion done, with no creation pending |
| `MachineDeletion.FinalizerGoesIff` | internal/controller/ionoscloudmachine_controller.go:205-248 | In any cloud, a pass without errors removes the finalizer exactly if nothing recorded holds it up, the server is gone and not on its way, and the LAN is gone and not on its way, or in use and not being deleted |
| `MachineDeletion.PassPosts` | internal/service/cloud/server.go:103-144 | However a pass ends, it posts and records at most one request, for boot volume, server or LAN, each exactly when stated |
| `MachineDeletion.NoDeletionTwice` | internal/service/cloud/network.go:102-147 | A pass asks for a deletion only where none is pending; for the boot volume, where no pending one is recorded |
| `MachineDeletion.PassRemembers` | internal/service/cloud/server.go:103-144 | A pass forgets finished requests only, and records the pending one it waits for |
| `MachineDeletion.LanStepByListing` | internal/service/cloud/network.go:102-188 | The LAN step of the pass is the whole step from the listing to the call |
| `MachineDeletion.PassOnQuiet` | internal/service/cloud/network.go:102-147 | Each pass over a settled cloud decreases the work left, and removes the finalizer only with server and unused LAN gone |
| `MachineDeletion.DeletionConverges` | internal/controller/ionoscloudmachine_controller.go:205-304 | From every state the finalizer, the server and an unused LAN are gone within as many passes as there is work, at most seven |
| `VolumeSafety.OnlyBootVolumesGo` | internal/service/cloud/server.go:247-280 | In every run without cluster deletion only boot volumes of the machine are deleted, and all other volumes stay |
| `VolumeSafety.StepKeeps` | internal/service/cloud/server.go:247-280 | Every step keeps: no server deletion is called for while the server has a boot volume, if passes wait until it is shown |
| `VolumeSafety.VolumesAreSafe` | internal/service/cloud/server.go:247-280 | In such runs a server deletion is called for only without a boot volume, and no boot volume is orphaned |
| `VolumeSafety.EarlyLookOrphans` | internal/service/cloud/server.go:103-144 | After any such run, a lookup of a server that does not show its boot volume yet can go on to orphan it |
| `VolumeSafety.OrphanStays` | internal/service/cloud/server.go:247-280 | An orphaned boot volume stays orphaned whatever happens |
| `VolumeSafety.EarlyLookHappens` | internal/service/cloud/server.go:103-144 | Such a lookup is possible right after the creation |
| `VolumeSafety.ClusterDeletionTakesAll` | internal/service/cloud/server.go:247-280 | If the cluster goes, the server goes with all its attached volumes and no others |
| `Provisioning.MachineObject.ReconcileNormal` | internal/controller/ionoscloudmachine_controller.go:148-203 | The pass with its loop over the steps is the specified one |
| `Provisioning.FailoverFinishedIff` | internal/service/cloud/network.go:505-569 | The failover step finishes exactly if none is required or the IP is listed and not preceded by this NIC under another IP |
| `Provisioning.HeldUpIff` | internal/controller/ionoscloudmachine_controller.go:165-178 | Recorded requests hold the pass up exactly if one of the machine is pending, or one of the cluster is and none of the machine is finished |
| `Provisioning.ProvisionsIff` | internal/service/cloud/server.go:147-156 | A pass provisions exactly if it gets to its steps and the LAN is available, each NIC and family has one address exactly if it has a pool and its claims could be read, the server is running, and the failover IP is listed |
| `Provisioning.StepsFailIff` | internal/service/cloud/server.go:41-191 | Each step fails exactly if a call it needs does not work |
| `Provisioning.ConditionTells` | internal/controller/ionoscloudmachine_controller.go:306-354 | The condition of a machine that is not provisioned tells exactly how far the pass got |
| `Provisioning.ProvisionedIffOnceInPlace` | internal/controller/ionoscloudmachine_controller.go:148-203 | After any run a machine is provisioned exactly if all that was so in one of its passes |
| `Provisioning.ProvisionedStays` | internal/service/cloud/server.go:147-156 | Once set it stays set |
| `Provisioning.ConditionStaysIff` | internal/controller/ionoscloudmachine_controller.go:306-354 | In one pass the condition of a provisioned machine stays True exactly if the gates hold |
| `Provisioning.ConditionStays` | internal/controller/ionoscloudmachine_controller.go:306-354 | If the gates never revert, the condition stays True over every run |
| `Ipam.DecimalRoundTrip` | internal/service/k8s/ipam.go:175-192 | The network ID can be read back from its decimal form, which has no leading zero |
| `Ipam.DecimalInjective` | internal/service/k8s/ipam.go:175-192 | Different network IDs are written differently |
| `Ipam.NicNamesDistinct` | internal/service/k8s/ipam.go:139-192 | The NIC names of a machine with distinct networks are distinct |
| `Ipam.ClaimNamesDistinct` | internal/service/k8s/ipam.go:210-216 | Each NIC and family of such a machine has a claim name of its own |
| `Ipam.NicNamesEqualIff` | internal/service/k8s/ipam.go:139-178 | NIC names of any two machines are equal exactly for the same machine and NIC, or if one machine is called like an additional NIC of the other |
| `Ipam.ClaimNamesEqualIff` | internal/service/k8s/ipam.go:175-216 | Claim names of any two machines are equal exactly for the same family and NICs of equal names |
| `Ipam.ClaimNamesCollide` | internal/service/k8s/ipam.go:175-216 | An instance with two different machines |
| `Ipam.ResolvedExactly` | internal/service/k8s/ipam.go:139-208 | When nothing is waited for, each NIC and family has exactly one address if it has a pool, and else none |
| `Ipam.FailureWasForeseeable` | internal/service/k8s/ipam.go:210-253 | Whether a NIC fails in the middle of a pass can be told from the claims before it |
| `Ipam.PassesIff` | internal/service/k8s/ipam.go:72-97 | A pass neither fails nor waits exactly if every pool address is resolved and every claim and address can be read |
| `Ipam.WaitsForPools` | internal/service/k8s/ipam.go:139-208 | By the fields of the spec: a pass waits exactly if a pool of the primary or of an additional NIC has not answered the claim of that NIC |
| `Ipam.PoolsHaveClaims` | internal/service/k8s/ipam.go:139-208 | After a pass that did not fail, every pool of the spec has its claim |
| `Ipam.Helper.HandleAddress` | internal/service/k8s/ipam.go:210-253 | It fails exactly if the claim cannot be read or created or its address not be read; otherwise it returns the claim's address or none yet, and at most creates the claim, with the machine finalizer |
| `Ipam.Helper.HandleNIC` | internal/service/k8s/ipam.go:139-208 | It fails exactly if one of its claims does; otherwise it gives the record of the NIC, waits exactly if an address is missing, and creates only claims of this NIC |
| `Ipam.Helper.ReconcileIPAddresses` | internal/service/k8s/ipam.go:72-97 | It fails exactly if a claim the machine needs does, as they were before the pass; otherwise there is one record per NIC aligned by index, the first marked as primary, and the pass is held up exactly while an address is missing |
| `Ipam.Helper.ReleaseClaims` | internal/service/k8s/ipam.go:100-137 | It fails exactly if a claim cannot be read, or has the finalizer and cannot be written; otherwise it frees exactly the claims of the machine; an interrupted sweep frees no others |
| `Ipam.Helper.ReleaseFamily` | internal/service/k8s/ipam.go:100-137 | The same for one family, leaving the other as it was |
| `Ipam.SweptAll` | internal/service/k8s/ipam.go:100-137 | Freeing both families of all NICs is the whole sweep |
| `Ipam.Helper.ReleaseClaim` | internal/service/k8s/ipam.go:115-133 | One claim loses the finalizer, or the call fails exactly if it cannot be read or written |
| `ClaimRuns.PassIsEvent` | internal/service/k8s/ipam.go:72-97 | What a pass does to the claims is what runs allow a pass to do; it fails exactly if a claim does, and else all claims are there |
| `ClaimRuns.SweepIsEvent` | internal/service/k8s/ipam.go:100-137 | A sweep is the full or the interrupted one of runs, by whether it fails, which it does exactly if a claim does |
| `ClaimRuns.StepKeeps` | internal/service/k8s/ipam.go:72-137 | Passes, provider, other machines, removals and sweeps keep the guarding of claims |
| `ClaimRuns.MadeClaimsAreGuarded` | internal/service/k8s/ipam.go:256-292 | In every run, until the machine is deleted, each claim its passes made is there and cannot be removed |
| `ClaimRuns.SweptMeansReleased` | internal/service/k8s/ipam.go:100-137 | After a successful sweep, and ever after, no claim the machine made or found carries its finalizer, whatever address it was given meanwhile |
| `ClaimRuns.SweepsSpareOthers` | internal/service/k8s/ipam.go:100-137 | A sweep, interrupted or not, removes no claim, changes no address, no finalizer of others and no claim of others |
| `ClaimRuns.OtherMachinesAreOthers` | internal/service/k8s/ipam.go:210-216 | A claim of another machine counts as one of this machine exactly if their NIC names are equal |
| `Ipam.BuildServerNics` | internal/service/cloud/server.go:428-462 | One server NIC per record, with the LAN and the addresses of the same index |
| `Ipam.ResolveAndBuild` | internal/service/cloud/server.go:428-462 | By the fields of the spec: unless the pass fails or a pool has not answered, each NIC has exactly the address its pool's claim refers to, and none without a pool; unless it fails, every pool has its claim |
| `IpBlocks.SearchEndpointBlock` | internal/service/cloud/ipblock.go:274-316 | The block found is the first user-set one or the only named one, and each error has its exact condition |
| `IpBlocks.SearchFailoverBlock` | internal/service/cloud/ipblock.go:234-256 | The first block with the generated name in the location, none exactly if there is none |
| `IpBlocks.ReconcileEndpointDeletion` | internal/service/cloud/ipblock.go:92-146 | From the listing to the call, each exactly: it deletes its own block, waits, finishes, fails, or dereferences nil |
| `IpBlocks.DeletionThenPanic` | internal/service/cloud/ipblock.go:92-146 | Among any blocks, as long as the endpoint was never written: its own block is deleted, and the pass after that dereferences nil |
| `IpBlocks.StillUsed` | internal/service/cloud/ipblock.go:217-232 | True exactly if the LAN list has one of the IPs |
| `IpBlocks.FailoverBlockDeletesIff` | internal/service/cloud/ipblock.go:149-215 | A deletion is asked for exactly if the spec says AUTO, the block was found, none is pending or done, and the LAN list has none of its IPs |
| `IpBlocks.ReconcileFailoverBlockDeletion` | internal/service/cloud/ipblock.go:149-256 | From the listing to the call, each exactly: it deletes the block, waits, fails, or finishes; it never panics |
| `LatestMachine.FindLatestMachine` | scope/machine.go:159-183 | The newest other machine, the last among ties; nil exactly for at most one machine or a receiver listed first and newer than all others |
| `LatestMachine.NilOnlyWithoutOthersIff` | scope/machine.go:154-158 | The documented promise holds exactly outside of two families of lists |
| `LatestMachine.PromiseFails` | scope/machine.go:154-183 | It fails for the newer of two machines listed first |
| `Images.LabelMapIsLastLabel` | internal/service/cloud/image.go:106-130 | The map of labels per image says exactly what the last label for an image and key says |
| `Images.MapContains` | internal/service/cloud/image.go:173-181 | True exactly if all pairs of the second map are in the first, for any order of keys |
| `Images.LookupBySelector` | internal/service/cloud/image.go:106-151 | Exactly the images with the labels in the location, each once, for any order of the maps; an error exactly if one cannot be fetched |
| `Images.FilterByName` | internal/service/cloud/image.go:153-163 | Exactly the images with the version in their name |
| `Images.HasPartIff` | internal/service/cloud/image.go:153-163 | The version may be anywhere in the name |
| `Images.SortNewestFirst` | internal/service/cloud/image.go:96-101 | The same images, newest first |
| `Images.OneImageIffOnlyEligible` | internal/service/cloud/image.go:57-104 | One image is left exactly if there is one eligible image |
| `Images.Choose` | internal/service/cloud/image.go:78-104 | What each policy makes of the images found, and each error, exactly |
| `Images.LookupImageID` | internal/service/cloud/image.go:57-104 | Exact chooses exactly if there is one eligible image, Newest exactly if there is any and then one than which none is newer; each error exactly |
| `LanLookup.GetLAN` | internal/service/cloud/network.go:150-188 | The LAN found is exactly the first with the ID of the spec or the only named one, and each error has its exact condition |
| `LanLookup.ReconcileLANDeletion` | internal/service/cloud/network.go:102-188 | From the listing to the call: it asks for a deletion exactly if the LAN it sees has no NICs and none is under way; skipping, waiting, failing and clearing the request each exactly when stated |
| `LanLookup.LanOfUserIsCondemned` | internal/service/cloud/network.go:102-147 | Among any LANs, one of the user without NICs that is given by ID meets what the step needs to delete it |

## Left out

- Starvation of a waiting goroutine: Go's mutex and channel give no order that the code relies on.
- The 32-bit width of the waiter counter: `CounterIsExact` bounds it by the number of goroutines.
- MachineDeletion.DeletionConverges: machines with a failover IP or an explicit `networkID`; with the latter a missing LAN is an error on every pass and deletion does not converge.
- MachineDeletion.FinalizerGoesAfterServer: the failover, failover block and claim steps are steps that do nothing here, because the statement is about the server.
- VolumeSafety.VolumesAreSafe: runs in which the cluster is being deleted, where the code deletes all attached volumes with the server on purpose.
- CreateOnce.AtMostOne: requests for one name with equal creation dates, for which the order of the queue is not determined.
- Provisioning.ProvisionsIff: the endpoint lookup by DNS and the patch of the primary NIC are observations of the pass.
- Ipam.Helper.ReconcileIPAddresses: the primary NIC and the loop over the additional ones are one loop by index; the loop over formats in the sweep is two calls of `ReleaseFamily`.
- ServerLookup.MachineObject.GetServer: provider IDs that are no valid UUID, which are an error.
- IpBlocks.SearchEndpointBlock: the shortcut by a block ID kept in the cluster status.
- Images.LookupImageID: the shortcut by an image ID in the spec.
- Images.LookupBySelector: failures of the label listing itself, which are returned as they are.
- Request states other than queued, running, done and failed.
- Image resolution policies other than Exact and Newest, which the API schema rejects.
- The client wrappers over the SDK: only the 24-hour window and the order of requests are kept.
- The Kubernetes API, patch helper, caches, watches and retries: each pass starts from the last persisted object.
- JSON of request bodies, base64 user data, UUID checks and DNS: uninterpreted.
- The cluster controller's own loop: its steps are those of `IpBlocks` and its pass has the form of the machine's.
- `nic.go`, provider IDs, condition backfill and pointer helpers: single assignments and lookups without state of their own.
- FailoverHandover.ReconcileDeletion: errors of listing machines and reading the LAN, which end the step before it decides.
- CRDs, credentials, logging, and the wording of errors and conditions.
