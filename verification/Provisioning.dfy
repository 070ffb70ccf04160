/**
 Provisioning a machine: the passes of reconcileNormal, each over whatever the cloud and the
 Kubernetes API show it (internal/controller/ionoscloudmachine_controller.go and the steps it calls).
 */
module Provisioning {
  import opened Base
  import opened Requests
  import F = Failover
  import D = MachineDeletion
  import I = Ipam

  datatype StepResult = Finished | Requeue | Error

  // ---- the steps, over what they observe ----

  /** ReconcileLAN; the resource tells whether its state is AVAILABLE. */
  function LanStep(found: Outcome<bool>, callWorks: bool): StepResult {
    match found
    case Error => StepResult.Error
    case Resource(available) => if available then Finished else Requeue
    case _ => if GoesOnToCreate(found) && !callWorks then StepResult.Error else Requeue
  }

  /** The claims and addresses as the pass finds them, and which calls to the Kubernetes API fail. */
  datatype IpamView = IpamView(spec: I.Spec, claims: I.Claims, addresses: map<string, string>, fails: I.Failures)

  /** ReconcileIPAddresses. */
  function IpamStep(v: IpamView): StepResult {
    if I.PassFails(v.claims, v.addresses, v.fails, v.spec) then StepResult.Error
    else if I.Waiting(v.claims, v.addresses, v.spec) then Requeue
    else Finished
  }

  datatype Secret = SecretNotFound | SecretError | SecretFound

  datatype ServerView = ServerView(available: bool, running: bool)

  /** ReconcileServer and ensureServerAvailable. */
  function ServerStep(secret: Secret, found: Outcome<ServerView>, callWorks: bool): StepResult {
    if secret.SecretNotFound? then Requeue
    else if secret.SecretError? || found.Error? then StepResult.Error
    else if found.Resource? then
      if !found.resource.available then Requeue
      else if found.resource.running then Finished
      else if callWorks then Requeue else StepResult.Error
    else if GoesOnToCreate(found) && !callWorks then StepResult.Error else Requeue
  }

  /** What ReconcileIPFailover gets to see, in order. */
  datatype FailoverView =
    | NotRequired
    | NoIp(requeue: bool)                          // no failover IP yet, or an error
    | NoNic                                        // no primary NIC, or its patch fails
    | NoList(requeue: bool)                        // a LAN patch is pending, or an error
    | Seen(nic: string, ip: string, list: seq<F.Entry>, patchWorks: bool)

  function FailoverStep(v: FailoverView): StepResult {
    match v
    case NotRequired => Finished
    case NoIp(requeue) => if requeue then Requeue else StepResult.Error
    case NoNic => StepResult.Error
    case NoList(requeue) => if requeue then Requeue else StepResult.Error
    case Seen(nic, ip, list, patchWorks) =>
      if nic == "" then StepResult.Error
      else if !F.Patches(F.Add(nic, ip), list) then Finished
      else if patchWorks then Requeue else StepResult.Error
  }

  // ---- a pass ----

  datatype Reason = WaitingForInfrastructure | WaitingForBootstrapData | InProgress | ProvisioningFailed

  datatype Condition = Unset | True | False(reason: Reason)

  datatype Status = Status(provisioned: bool, condition: Condition)

  /** What the cloud says of the recorded requests, and whether writing the cluster works. */
  datatype RequestView = RequestView(cluster: Option<D.Query>, machine: Option<D.Query>, clusterPatch: bool)

  datatype View = View(
    infrastructureReady: bool, bootstrapData: bool, finalizerWritten: bool, requests: RequestView,
    lan: Outcome<bool>, lanCallWorks: bool, ipam: IpamView,
    secret: Secret, server: Outcome<ServerView>, serverCallWorks: bool, failover: FailoverView)

  /** setProvisioningCondition: once provisioned it does nothing. */
  function SetCondition(s: Status, r: Reason): Status {
    if s.provisioned then s else s.(condition := False(r))
  }

  /** LAN, address claims, server and failover; the last step always finishes. */
  const STEPS := 5

  function Step(v: View, i: nat): StepResult {
    if i == 0 then LanStep(v.lan, v.lanCallWorks)
    else if i == 1 then IpamStep(v.ipam)
    else if i == 2 then ServerStep(v.secret, v.server, v.serverCallWorks)
    else if i == 3 then FailoverStep(v.failover)
    else Finished
  }

  predicate Gates(v: View) { v.infrastructureReady && v.bootstrapData }

  /** checkRequestStates of a machine that is not being deleted; its error is only logged. */
  predicate HeldUp(r: RequestView) {
    D.CheckRequestStates(r.cluster, r.machine, false, r.clusterPatch, true).requeue
  }

  predicate PendingAnswer(q: Option<D.Query>) { q.Some? && q.value.Says? && Pending(q.value.status) }

  predicate FinishedAnswer(q: Option<D.Query>) { q.Some? && q.value.Says? && !Pending(q.value.status) }

  /** The pass gets to its steps: no request of the machine is pending, and one of the cluster is only if overruled. */
  predicate Starts(v: View) {
    && Gates(v) && v.finalizerWritten
    && !PendingAnswer(v.requests.machine)
    && (PendingAnswer(v.requests.cluster) ==> FinishedAnswer(v.requests.machine))
  }

  lemma HeldUpIff(r: RequestView)
    ensures HeldUp(r) <==>
      PendingAnswer(r.machine) || (PendingAnswer(r.cluster) && !FinishedAnswer(r.machine))
  {
  }

  /** The step that ends the pass early, or the number of steps. */
  function StopsAt(v: View, i: nat): (n: nat)
    requires i <= STEPS
    ensures i <= n <= STEPS
    ensures n < STEPS ==> !Step(v, n).Finished?
    ensures forall j | i <= j < n :: Step(v, j).Finished?
    decreases STEPS - i
  {
    if i == STEPS || !Step(v, i).Finished? then i else StopsAt(v, i + 1)
  }

  function NormalPass(s: Status, v: View): Status {
    if !v.infrastructureReady then s.(condition := False(WaitingForInfrastructure))
    else if !v.bootstrapData then s.(condition := False(WaitingForBootstrapData))
    else if !v.finalizerWritten || HeldUp(v.requests) then s
    else
      var s1 := SetCondition(s, InProgress);
      var n := StopsAt(v, 0);
      if n == STEPS then Status(true, True)
      else if Step(v, n).Error? then SetCondition(s1, ProvisioningFailed)
      else s1
  }

  /** The object, updated in place by one pass. */
  class MachineObject {
    var status: Status

    constructor ()
      ensures status == Status(false, Unset)
    {
      status := Status(false, Unset);
    }

    method ReconcileNormal(v: View) returns (early: bool)
      modifies this
      ensures status == NormalPass(old(status), v)
      ensures !early <==> Starts(v) && StopsAt(v, 0) == STEPS
    {
      early := true;
      if !v.infrastructureReady {
        status := status.(condition := False(WaitingForInfrastructure));
        return;
      }
      if !v.bootstrapData {
        status := status.(condition := False(WaitingForBootstrapData));
        return;
      }
      if !v.finalizerWritten || HeldUp(v.requests) { return; }
      if !status.provisioned { status := status.(condition := False(InProgress)); }
      var i := 0;
      while i < STEPS
        invariant 0 <= i <= STEPS && StopsAt(v, i) == StopsAt(v, 0)
        invariant status == SetCondition(old(status), InProgress)
      {
        var r := Step(v, i);
        if !r.Finished? {
          if r.Error? && !status.provisioned { status := status.(condition := False(ProvisioningFailed)); }
          return;
        }
        i := i + 1;
      }
      status := Status(true, True);
      early := false;
    }
  }

  // ---- what being provisioned means ----

  /** The failover IP is in the list, not preceded by this NIC under another IP. */
  ghost predicate FailoverConfigured(f: FailoverView) {
    f.NotRequired? || (f.Seen? && f.nic != "" && exists j :: IpListedAt(f, j))
  }

  predicate IpListedAt(f: FailoverView, j: int)
    requires f.Seen?
  {
    && 0 <= j < |f.list| && F.Ip(f.list[j]) == f.ip
    && forall k | 0 <= k < j :: F.Nic(f.list[k]) != f.nic || F.Ip(f.list[k]) == f.ip
  }

  /** Each NIC and family has one address exactly if it has a pool, and all claims could be read. */
  ghost predicate AddressesInPlace(v: IpamView) {
    && I.AllResolved(v.claims, v.addresses, v.spec)
    && I.HandledUpTo(v.claims, v.addresses, v.fails, v.spec, I.NicCount(v.spec))
  }

  /** Everything a machine needs was in place in this pass. */
  ghost predicate InPlace(v: View) {
    && v.lan == Resource(true)
    && AddressesInPlace(v.ipam)
    && v.secret.SecretFound? && v.server == Resource(ServerView(true, true))
    && FailoverConfigured(v.failover)
  }

  lemma FailoverFinishedIff(f: FailoverView)
    ensures FailoverStep(f).Finished? <==> FailoverConfigured(f)
  {
    if f.Seen? {
      var i := F.AddStop(f.list, f.nic, f.ip);
      if i < |f.list| && F.Ip(f.list[i]) == f.ip { assert IpListedAt(f, i); }
      if j :| IpListedAt(f, j) { assert F.Stops(f.list[j], f.nic, f.ip); }
    }
  }

  /** A pass provisions the machine exactly if it gets to its steps and everything is in place. */
  lemma ProvisionsIff(s: Status, v: View)
    ensures NormalPass(s, v).provisioned <==> s.provisioned || (Starts(v) && InPlace(v))
  {
    FailoverFinishedIff(v.failover);
    I.PassesIff(v.ipam.claims, v.ipam.addresses, v.ipam.fails, v.ipam.spec);
    assert IpamStep(v.ipam).Finished? <==> AddressesInPlace(v.ipam);
    assert Step(v, 0).Finished? && Step(v, 1).Finished? && Step(v, 2).Finished? && Step(v, 3).Finished? <==> InPlace(v);
  }

  // ---- what the condition says ----

  /** Neither the resource nor a pending request for it was found. */
  predicate Absent<T>(found: Outcome<T>) {
    found.Nothing? || (found.PendingOrOld? && (found.status.Done? || found.status.Failed?))
  }

  /** A call that is needed does not work: a lookup, a creation, a start, an address, a patch of the LAN. */
  lemma StepsFailIff(v: View)
    ensures LanStep(v.lan, v.lanCallWorks).Error? <==> v.lan.Error? || (Absent(v.lan) && !v.lanCallWorks)
    ensures ServerStep(v.secret, v.server, v.serverCallWorks).Error? <==>
      (|| v.secret.SecretError?
       || (v.secret.SecretFound? && v.server.Error?)
       || (v.secret.SecretFound? && !v.serverCallWorks &&
           (Absent(v.server) || v.server == Resource(ServerView(true, false)))))
    ensures IpamStep(v.ipam).Error? <==> I.PassFails(v.ipam.claims, v.ipam.addresses, v.ipam.fails, v.ipam.spec)
    ensures FailoverStep(v.failover).Error? <==>
      (|| v.failover in {NoIp(false), NoNic, NoList(false)}
       || (v.failover.Seen? && (v.failover.nic == "" || (!FailoverConfigured(v.failover) && !v.failover.patchWorks))))
  {
    FailoverFinishedIff(v.failover);
  }

  /** Some step fails, and all before it finish. */
  ghost predicate SomeStepFails(v: View) {
    exists n: nat :: n < STEPS && Step(v, n).Error? && forall j | 0 <= j < n :: Step(v, j).Finished?
  }

  /** While a machine is not provisioned, its condition tells how far the pass got. */
  lemma ConditionTells(s: Status, v: View)
    requires !s.provisioned
    ensures NormalPass(s, v).condition ==
      if !v.infrastructureReady then False(WaitingForInfrastructure)
      else if !v.bootstrapData then False(WaitingForBootstrapData)
      else if !Starts(v) then s.condition
      else if InPlace(v) then True
      else if SomeStepFails(v) then False(ProvisioningFailed)
      else False(InProgress)
  {
    HeldUpIff(v.requests);
    ProvisionsIff(s, v);
    var n := StopsAt(v, 0);
    if m: nat :| m < STEPS && Step(v, m).Error? && forall j | 0 <= j < m :: Step(v, j).Finished? {
      assert n == m;
    }
  }

  // ---- runs ----

  function Passes(s: Status, views: seq<View>): Status {
    if views == [] then s else NormalPass(Passes(s, views[..|views| - 1]), views[|views| - 1])
  }

  const NEW_MACHINE := Status(false, Unset)

  ghost predicate Provisions(v: View) { Starts(v) && InPlace(v) }

  /** After any run a machine is provisioned exactly if in one of its passes everything was in place. */
  lemma {:induction false} ProvisionedIffOnceInPlace(views: seq<View>)
    ensures Passes(NEW_MACHINE, views).provisioned <==> exists i | 0 <= i < |views| :: Provisions(views[i])
  {
    if views != [] {
      var front := views[..|views| - 1];
      ProvisionedIffOnceInPlace(front);
      ProvisionsIff(Passes(NEW_MACHINE, front), views[|views| - 1]);
      assert forall i | 0 <= i < |front| :: views[i] == front[i];
    }
  }

  /** Once set, it stays set. */
  lemma {:induction false} ProvisionedStays(s: Status, views: seq<View>)
    requires s.provisioned
    ensures Passes(s, views).provisioned
  {
    if views != [] {
      ProvisionedStays(s, views[..|views| - 1]);
      ProvisionsIff(Passes(s, views[..|views| - 1]), views[|views| - 1]);
    }
  }

  /** In one pass, the condition of a provisioned machine stays True exactly if the gates hold. */
  lemma ConditionStaysIff(s: Status, v: View)
    requires s == Status(true, True)
    ensures NormalPass(s, v).condition == True <==> Gates(v)
  {
  }

  /** If the gates never revert, no error and no wait ever takes the condition back. */
  lemma {:induction false} ConditionStays(s: Status, views: seq<View>)
    requires s == Status(true, True) && forall i | 0 <= i < |views| :: Gates(views[i])
    ensures Passes(s, views) == Status(true, True)
  {
    if views != [] {
      ConditionStays(s, views[..|views| - 1]);
    }
  }
}
