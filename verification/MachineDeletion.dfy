/**
 Deleting a machine: the passes of reconcileDelete over a cloud that carries requests out between
 passes (internal/controller/ionoscloudmachine_controller.go, server.go and network.go of the cloud
 service), for a machine without failover IP and without an explicit network.
 */
module MachineDeletion {
  import opened Base
  import opened Requests
  import LL = LanLookup

  // ---- checkRequestStates ----

  /** What the cloud says about a recorded request. */
  datatype Query = QueryFails | Says(status: Status)

  datatype Checked = Checked(requeue: bool, failed: bool, clearCluster: bool, clearMachine: bool)

  /** `clusterPatch` and `machinePatch`: whether writing the Kubernetes object works. */
  function CheckRequestStates(cluster: Option<Query>, machine: Option<Query>, deleting: bool,
                              clusterPatch: bool, machinePatch: bool): Checked
  {
    var c :=
      if cluster.None? then Checked(false, false, false, false)
      else if cluster.value.QueryFails? then Checked(false, true, false, false)
      else if Pending(cluster.value.status) then Checked(true, false, false, false)
      else Checked(false, !clusterPatch, true, false);
    if machine.None? then c
    else if machine.value.QueryFails? then c.(failed := true)
    else if deleting then Checked(true, !machinePatch, c.clearCluster, !Pending(machine.value.status))
    else c.(requeue := Pending(machine.value.status), clearMachine := !Pending(machine.value.status))
  }

  /** A pending request of the machine always holds the pass up. */
  lemma MachinePendingRequeues(cluster: Option<Query>, s: Status, deleting: bool, cp: bool, mp: bool)
    requires Pending(s)
    ensures CheckRequestStates(cluster, Some(Says(s)), deleting, cp, mp).requeue
  {
  }

  /** A pending request of the cluster does so unless a finished request of the machine overrules it. */
  lemma ClusterPendingRequeuesIff(s: Status, machine: Option<Query>, deleting: bool, cp: bool, mp: bool)
    requires Pending(s)
    ensures CheckRequestStates(Some(Says(s)), machine, deleting, cp, mp).requeue <==>
      (deleting || machine.None? || machine.value.QueryFails? || Pending(machine.value.status))
  {
  }

  predicate SaysFinished(q: Option<Query>) { q.Some? && q.value.Says? && !Pending(q.value.status) }

  predicate Unanswered(q: Option<Query>) { q.Some? && q.value.QueryFails? }

  /** A recorded request is cleared exactly if the cloud says that it is finished. */
  lemma ClearsFinishedOnly(cluster: Option<Query>, machine: Option<Query>, deleting: bool, cp: bool, mp: bool)
    ensures var c := CheckRequestStates(cluster, machine, deleting, cp, mp);
      (c.clearCluster <==> SaysFinished(cluster)) && (c.clearMachine <==> SaysFinished(machine))
  {
  }

  /**
   The check reports what went wrong, except that during a deletion an answer about the machine's
   request takes the place of every error of the cluster's.
   */
  lemma CheckFailsIff(cluster: Option<Query>, machine: Option<Query>, deleting: bool, cp: bool, mp: bool)
    ensures CheckRequestStates(cluster, machine, deleting, cp, mp).failed <==>
      if deleting && machine.Some? && machine.value.Says? then !mp
      else Unanswered(cluster) || (SaysFinished(cluster) && !cp) || Unanswered(machine)
  {
  }

  // ---- the machine and its cloud resources ----

  datatype Ref = ServerCreation | ServerDeletion | VolumeDeletion | LanCreation | LanDeletion | OtherRequest

  /**
   `server` tells whether it shows a boot volume; `otherNics` are the LAN's NICs of other servers;
   `status` is the latest request of each kind.
   */
  datatype Cloud = Cloud(server: Option<bool>, lan: bool, otherNics: nat, status: map<Ref, Status>)

  datatype Machine = Machine(cloud: Cloud, machineRequest: Option<Ref>, clusterRequest: Option<Ref>,
                             clusterDeleted: bool, finalizer: bool)

  predicate PendingIn(c: Cloud, r: Ref) { r in c.status && Pending(c.status[r]) }

  function QueryOf(c: Cloud, r: Option<Ref>): Option<Query> {
    if r.None? then None else if r.value in c.status then Some(Says(c.status[r.value])) else Some(QueryFails)
  }

  datatype Result = Continue | Requeue

  function CheckRequests(m: Machine): (Machine, Result) {
    var cluster, machine := QueryOf(m.cloud, m.clusterRequest), QueryOf(m.cloud, m.machineRequest);
    var c := CheckRequestStates(cluster, machine, true, true, true);
    (m.(clusterRequest := if c.clearCluster then None else m.clusterRequest,
        machineRequest := if c.clearMachine then None else m.machineRequest),
     if c.requeue then Requeue else Continue)
  }

  function Post(m: Machine, r: Ref): Machine { m.(cloud := m.cloud.(status := m.cloud.status[r := Queued])) }

  function DeleteServer(m: Machine): Machine
    requires m.cloud.server.Some?
  {
    var r := if !m.clusterDeleted && m.cloud.server.value then VolumeDeletion else ServerDeletion;
    Post(m, r).(machineRequest := Some(r))
  }

  function ServerDeletionStep(m: Machine): (Machine, Result) {
    if m.cloud.server.None? then
      if PendingIn(m.cloud, ServerCreation) then (m.(machineRequest := Some(ServerCreation)), Requeue)
      else (m.(machineRequest := None), Continue)
    else if PendingIn(m.cloud, ServerDeletion) then (m.(machineRequest := Some(ServerDeletion)), Requeue)
    else if ServerDeletion in m.cloud.status && m.cloud.status[ServerDeletion].Done? then
      (m.(machineRequest := None), Continue)
    else (DeleteServer(m), Requeue)
  }

  function LanNics(c: Cloud): nat { c.otherNics + if c.server.Some? then 1 else 0 }

  function LanDeletionStep(m: Machine): (Machine, Result) {
    if !m.cloud.lan then
      if PendingIn(m.cloud, LanCreation) then (m, Requeue) else (m.(clusterRequest := None), Continue)
    else if PendingIn(m.cloud, LanDeletion) then (m, Requeue)
    else if LanNics(m.cloud) > 0 then (m, Continue)
    else (Post(m, LanDeletion).(clusterRequest := Some(LanDeletion)), Requeue)
  }

  /** The steps in order; failover, failover block and address claims have nothing to do here. */
  const STEPS := 5

  function RunStep(i: nat, m: Machine): (Machine, Result) {
    if i == 1 then ServerDeletionStep(m) else if i == 2 then LanDeletionStep(m) else (m, Continue)
  }

  /** The steps from number `i` on; `upTo` is the step at which an error ends the pass, if any. */
  function StepsFrom(i: nat, upTo: nat, m: Machine): Machine
    requires i <= STEPS
    decreases STEPS - i
  {
    if i == STEPS then m.(finalizer := false)
    else if i == upTo then m
    else
      var (m1, r) := RunStep(i, m);
      if r.Requeue? then m1 else StepsFrom(i + 1, upTo, m1)
  }

  function DeletePass(m: Machine, upTo: nat): Machine {
    var (m1, r) := CheckRequests(m);
    if r.Requeue? then m1 else StepsFrom(0, upTo, m1)
  }

  /** The object, updated in place by one pass. */
  class MachineReconciler {
    var m: Machine

    constructor (machine: Machine)
      ensures m == machine
    {
      m := machine;
    }

    method ReconcileDelete(upTo: nat) returns (requeue: bool)
      modifies this
      ensures m == DeletePass(old(m), upTo)
      ensures old(m).finalizer ==> requeue == m.finalizer
    {
      var (checked, r) := CheckRequests(m);
      m := checked;
      if r.Requeue? { return true; }
      var i := 0;
      while i < STEPS
        invariant 0 <= i <= STEPS
        invariant StepsFrom(i, upTo, m) == DeletePass(old(m), upTo) && m.finalizer == old(m).finalizer
      {
        if i == upTo { return true; }
        var (after, result) := RunStep(i, m);
        m := after;
        if result.Requeue? { return true; }
        i := i + 1;
      }
      m := m.(finalizer := false);
      return false;
    }
  }

  /** In any cloud, however a pass ends: the finalizer goes only when the server is gone. */
  lemma FinalizerGoesAfterServer(m: Machine, upTo: nat)
    requires m.finalizer && !DeletePass(m, upTo).finalizer
    ensures m.cloud.server.None? || (ServerDeletion in m.cloud.status && m.cloud.status[ServerDeletion].Done?)
    ensures !PendingIn(m.cloud, ServerCreation) || m.cloud.server.Some?
    ensures DeletePass(m, upTo).machineRequest.None?
  {
    var (m1, r) := CheckRequests(m);
    StepsUnrolled(m1, upTo);
  }

  // ---- what a pass does, in any cloud, with whatever is pending ----

  /** Nothing recorded holds the pass up: no request of the machine the cloud knows, no pending one of the cluster. */
  predicate NotHeld(m: Machine) {
    && (m.machineRequest.Some? ==> m.machineRequest.value !in m.cloud.status)
    && (m.clusterRequest.Some? ==> !PendingIn(m.cloud, m.clusterRequest.value))
  }

  predicate DoneIn(c: Cloud, r: Ref) { r in c.status && c.status[r].Done? }

  /** The server is gone and not on its way, or its deletion is done. */
  predicate ServerIsGone(c: Cloud) {
    if c.server.None? then !PendingIn(c, ServerCreation) else DoneIn(c, ServerDeletion)
  }

  /** The LAN is gone and not on its way, or others use it and it is not being deleted. */
  predicate LanIsGoneOrUsed(c: Cloud) {
    if c.lan then !PendingIn(c, LanDeletion) && (c.otherNics > 0 || c.server.Some?) else !PendingIn(c, LanCreation)
  }

  lemma HeldIff(m: Machine)
    ensures CheckRequests(m).1.Continue? <==> NotHeld(m)
    ensures CheckRequests(m).0.cloud == m.cloud && CheckRequests(m).0.finalizer == m.finalizer
    ensures CheckRequests(m).0.clusterDeleted == m.clusterDeleted
  {
  }

  /**
   In any cloud, pending requests included, a pass without errors removes the finalizer exactly if
   nothing recorded holds it up, the server is gone, and the LAN is gone or used by others.
   */
  lemma FinalizerGoesIff(m: Machine)
    requires m.finalizer
    ensures !DeletePass(m, STEPS).finalizer <==> NotHeld(m) && ServerIsGone(m.cloud) && LanIsGoneOrUsed(m.cloud)
  {
    HeldIff(m);
    StepsUnrolled(CheckRequests(m).0, STEPS);
  }

  /** The pass gets to the server, which is there and neither being deleted nor deleted. */
  predicate AsksForServer(m: Machine, upTo: nat) {
    && NotHeld(m) && upTo > 1 && m.cloud.server.Some?
    && !PendingIn(m.cloud, ServerDeletion) && !DoneIn(m.cloud, ServerDeletion)
  }

  /** The pass gets past the server to a LAN that nobody uses and that is not being deleted. */
  predicate AsksForLan(m: Machine, upTo: nat) {
    && NotHeld(m) && upTo > 2 && ServerIsGone(m.cloud)
    && m.cloud.lan && !PendingIn(m.cloud, LanDeletion) && m.cloud.otherNics == 0 && m.cloud.server.None?
  }

  /** The boot volume goes first, unless the cluster goes or none is shown. */
  function AskedFor(m: Machine): Ref
    requires m.cloud.server.Some?
  {
    if m.clusterDeleted || !m.cloud.server.value then ServerDeletion else VolumeDeletion
  }

  /**
   However a pass ends, it posts at most one request: for the server or its boot volume, or for the
   LAN, each exactly when stated, and records it.  Nothing else changes in the cloud.
   */
  lemma PassPosts(m: Machine, upTo: nat)
    ensures var m' := DeletePass(m, upTo);
      if AsksForServer(m, upTo) then
        && m'.cloud == m.cloud.(status := m.cloud.status[AskedFor(m) := Queued])
        && m'.machineRequest == Some(AskedFor(m)) && m'.finalizer == m.finalizer
      else if AsksForLan(m, upTo) then
        && m'.cloud == m.cloud.(status := m.cloud.status[LanDeletion := Queued])
        && m'.clusterRequest == Some(LanDeletion) && m'.finalizer == m.finalizer
      else m'.cloud == m.cloud
  {
    HeldIff(m);
    StepsUnrolled(CheckRequests(m).0, upTo);
  }

  /** A request the cloud knows; once it is finished, a pass forgets it. */
  function Remembered(c: Cloud, r: Option<Ref>): Option<Ref> {
    if r.Some? && r.value in c.status && !Pending(c.status[r.value]) then None else r
  }

  /**
   A pass that is held up forgets finished requests and no others.  One that gets to the server
   remembers the pending request it waits for, and none once the server is gone.
   */
  lemma PassRemembers(m: Machine, upTo: nat)
    ensures var c, m' := m.cloud, DeletePass(m, upTo);
      && (!NotHeld(m) ==> m'.machineRequest == Remembered(c, m.machineRequest))
      && (!NotHeld(m) ==> m'.clusterRequest == Remembered(c, m.clusterRequest))
      && (NotHeld(m) && upTo > 1 && c.server.None? && PendingIn(c, ServerCreation) ==>
            m'.machineRequest == Some(ServerCreation))
      && (NotHeld(m) && upTo > 1 && c.server.Some? && PendingIn(c, ServerDeletion) ==>
            m'.machineRequest == Some(ServerDeletion))
      && (NotHeld(m) && upTo > 1 && ServerIsGone(c) ==> m'.machineRequest.None?)
  {
    HeldIff(m);
    StepsUnrolled(CheckRequests(m).0, upTo);
  }

  /** No deletion is asked for twice while it is pending, the boot volume's as long as it is recorded. */
  lemma NoDeletionTwice(m: Machine, upTo: nat)
    ensures AsksForServer(m, upTo) ==> !PendingIn(m.cloud, ServerDeletion)
    ensures AsksForServer(m, upTo) && PendingIn(m.cloud, AskedFor(m)) ==>
      AskedFor(m) == VolumeDeletion && m.machineRequest != Some(VolumeDeletion)
    ensures AsksForLan(m, upTo) ==> !PendingIn(m.cloud, LanDeletion)
  {
  }

  /** What the queue says of a kind of request. */
  function AnswerFor(c: Cloud, r: Ref): QueueAnswer { if r in c.status then Latest(c.status[r]) else NoRequest }

  /** The LAN step is what ReconcileLANDeletion does with a listing of the data center's LANs. */
  method LanStepByListing(m: Machine, lans: seq<LL.Lan>, name: string) returns (a: LL.Action)
    requires LL.CountNamed(lans, name) == if m.cloud.lan then 1 else 0
    requires forall l | l in lans && LL.Named(l, name) :: l.nics == LanNics(m.cloud)
    ensures LanDeletionStep(m) ==
      match a
      case Deletes(_) => (Post(m, LanDeletion).(clusterRequest := Some(LanDeletion)), Requeue)
      case Requeue => (m, Requeue)
      case ClearsRequest => (m.(clusterRequest := None), Continue)
      case Skips => (m, Continue)
      case Fails => LanDeletionStep(m)
    ensures !a.Fails?
  {
    var latest, deletion := AnswerFor(m.cloud, LanCreation), AnswerFor(m.cloud, LanDeletion);
    if m.cloud.lan {
      ghost var l := TheNamed(lans, name);
      assert LL.Sees(lans, latest, lans, None, name, l);
    }
    a := LL.ReconcileLANDeletion(lans, latest, lans, None, name, deletion);
  }

  lemma TheNamed(lans: seq<LL.Lan>, name: string) returns (l: LL.Lan)
    requires LL.CountNamed(lans, name) == 1
    ensures LL.Finds(lans, None, name, l)
  {
    if forall i | 0 <= i < |lans| :: !LL.Named(lans[i], name) { CountedNever(lans, LL.ByName(name)); }
    var i :| 0 <= i < |lans| && LL.Named(lans[i], name);
    l := lans[i];
  }

  lemma StepsUnrolled(m: Machine, upTo: nat)
    ensures StepsFrom(0, upTo, m) ==
      if upTo <= 1 then m
      else
        var (m1, r1) := ServerDeletionStep(m);
        if r1.Requeue? || upTo == 2 then m1
        else
          var (m2, r2) := LanDeletionStep(m1);
          if r2.Requeue? || upTo == 3 || upTo == 4 then m2 else m2.(finalizer := false)
  {
    var (m1, _) := ServerDeletionStep(m);
    var (m2, _) := LanDeletionStep(m1);
    assert StepsFrom(4, upTo, m2) == if upTo == 4 then m2 else StepsFrom(5, upTo, m2);
    assert StepsFrom(3, upTo, m2) == if upTo == 3 then m2 else StepsFrom(4, upTo, m2);
    assert StepsFrom(1, upTo, m) ==
      if upTo == 1 then m else if ServerDeletionStep(m).1.Requeue? then m1 else StepsFrom(2, upTo, m1);
  }

  // ---- a cloud that carries out every request between passes ----

  function Finish(s: Status): Status { if Pending(s) then Done else s }

  function Settle(c: Cloud): Cloud {
    var created := if c.server.None? && PendingIn(c, ServerCreation) then Some(true) else c.server;
    var booted := if created.Some? && PendingIn(c, VolumeDeletion) then Some(false) else created;
    Cloud(if PendingIn(c, ServerDeletion) then None else booted,
          (c.lan || PendingIn(c, LanCreation)) && !PendingIn(c, LanDeletion),
          c.otherNics,
          map r | r in c.status :: Finish(c.status[r]))
  }

  function Settled(m: Machine): Machine { m.(cloud := Settle(m.cloud)) }

  function Round(m: Machine): Machine { DeletePass(Settled(m), STEPS) }

  /** The cloud knows the recorded requests, and a done server deletion has left no server. */
  predicate Valid(m: Machine) {
    && (m.machineRequest.Some? ==> m.machineRequest.value in m.cloud.status)
    && (m.clusterRequest.Some? ==> m.clusterRequest.value in m.cloud.status)
    && (ServerDeletion in m.cloud.status && m.cloud.status[ServerDeletion].Done? ==>
          m.cloud.server.None? && !PendingIn(m.cloud, ServerCreation))
  }

  /** What is still to be done: boot volume, server, LAN, recorded request, finalizer. */
  function Work(m: Machine): nat {
    var server := if m.cloud.server.None? then 0 else if m.cloud.server.value && !m.clusterDeleted then 4 else 2;
    var lan := if m.cloud.lan && m.cloud.otherNics == 0 then 1 else 0;
    server + lan + (if m.machineRequest.Some? then 1 else 0) + if m.finalizer then 1 else 0
  }

  predicate Quiet(c: Cloud) { forall r | r in c.status :: !Pending(c.status[r]) }

  lemma SettledIsQuiet(m: Machine)
    requires Valid(m)
    ensures Quiet(Settle(m.cloud)) && Valid(Settled(m))
  {
  }

  lemma PassOnQuiet(m: Machine)
    requires Valid(m) && Quiet(m.cloud) && m.finalizer
    ensures var m' := DeletePass(m, STEPS); Valid(m') && Work(Settled(m')) < Work(m)
    ensures var m' := DeletePass(m, STEPS);
      !m'.finalizer ==> m'.cloud.server.None? && (m'.cloud.lan ==> m'.cloud.otherNics > 0)
  {
    var (m1, r) := CheckRequests(m);
    StepsUnrolled(m1, STEPS);
  }

  function Rounds(m: Machine, n: nat): Machine
    decreases n
  {
    if n == 0 then m else Rounds(Round(m), n - 1)
  }

  /**
   Deletion converges: from any state, within as many passes as there is work left, and at most
   seven, the finalizer is gone, and with it the server and a LAN nobody else uses.
   */
  lemma {:induction false} DeletionConverges(m: Machine) returns (n: nat)
    requires Valid(m) && m.finalizer
    ensures n <= Work(Settled(m)) <= 7
    ensures var m' := Rounds(m, n);
      !m'.finalizer && m'.cloud.server.None? && (m'.cloud.lan ==> m'.cloud.otherNics > 0)
    decreases Work(Settled(m))
  {
    SettledIsQuiet(m);
    PassOnQuiet(Settled(m));
    var m1 := Round(m);
    if !m1.finalizer {
      n := 1;
      assert Rounds(m1, 0) == m1;
    } else {
      var k := DeletionConverges(m1);
      n := k + 1;
    }
  }
}
