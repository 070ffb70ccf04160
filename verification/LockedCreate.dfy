/**
 Concurrent reconciles that create a shared resource inside a section protected by a key lock:
 ReconcileLAN under the LAN lock, and the reservation of a failover IP block under its own lock.

 The lock is the one of module Locker, action by action, with other goroutines using it for other
 keys and other purposes; the creations are those of module CreateOnce.  That reconciles exclude
 each other is not assumed here, it follows from the lock.
 */
module LockedCreate {
  import opened Base
  import L = Locker
  import LI = LockerInvariant
  import LR = LockerRuns
  import LO = LockOrder
  import LS = LockedSection
  import C = CreateOnce
  import LL = LanLookup
  import IB = IpBlocks

  /** The locker and the creations of the name that key `key` protects. */
  datatype World = World(lk: L.State, sys: C.System)

  predicate ReconcileEvent(e: C.Event) {
    e.FirstLookup? || e.Queue? || e.SecondLookup? || e.Post? || e.Leave?
  }

  predicate CloudEvent(e: C.Event) {
    e.Start? || e.List? || e.Finish? || e.Fail? || e.Delete? || e.Tick?
  }

  ghost predicate LockerMoves(key: L.Key, w: World, w': World) {
    LS.LockerMoves(key, w.lk, w.sys.active.Keys, w'.lk) && w'.sys == w.sys
  }

  /** A goroutine enters the section when its Lock has returned nil. */
  ghost predicate Enters(c: C.Bounds, key: L.Key, w: World, w': World) {
    exists t :: LS.MayEnter(key, w.lk, t) && C.Enabled(c, w.sys, C.Enter(t)) &&
                w' == w.(sys := C.Apply(c, w.sys, C.Enter(t)))
  }

  ghost predicate SectionOrCloudMoves(c: C.Bounds, w: World, w': World) {
    exists e :: (ReconcileEvent(e) || CloudEvent(e)) && C.Enabled(c, w.sys, e) && w' == w.(sys := C.Apply(c, w.sys, e))
  }

  ghost predicate Step(c: C.Bounds, key: L.Key, w: World, w': World) {
    LockerMoves(key, w, w') || Enters(c, key, w, w') || SectionOrCloudMoves(c, w, w')
  }

  ghost predicate Init(w: World) { LR.Init(w.lk) && C.Init(w.sys) }

  ghost predicate Run(c: C.Bounds, key: L.Key, b: seq<World>) {
    |b| > 0 && Init(b[0]) && forall i | 0 <= i < |b| - 1 :: Step(c, key, b[i], b[i + 1])
  }

  ghost predicate Reachable(c: C.Bounds, key: L.Key, w: World) {
    exists b :: Run(c, key, b) && b[|b| - 1] == w
  }

  predicate WorldInv(c: C.Bounds, key: L.Key, w: World) {
    LI.Inv(w.lk) && LS.HoldersOnly(key, w.lk, w.sys.active.Keys) && C.Inv(c, w.sys)
  }

  lemma HoldersExclude(key: L.Key, w: World)
    requires LI.Inv(w.lk) && LS.HoldersOnly(key, w.lk, w.sys.active.Keys)
    ensures C.Exclusive(w.sys)
  {
    LS.HoldersExclude(key, w.lk, w.sys.active.Keys);
  }

  lemma ApplyKeepsActive(c: C.Bounds, s: C.System, e: C.Event)
    requires C.Enabled(c, s, e) && !e.Enter?
    ensures C.Apply(c, s, e).active.Keys <= s.active.Keys
  {
  }

  lemma StepKeeps(c: C.Bounds, key: L.Key, w: World, w': World)
    requires C.BoundsOk(c) && WorldInv(c, key, w) && Step(c, key, w, w')
    ensures WorldInv(c, key, w')
  {
    HoldersExclude(key, w);
    if LockerMoves(key, w, w') {
      LS.LockerMoveKeeps(key, w.lk, w.sys.active.Keys, w'.lk);
    } else {
      assert C.Step(c, w.sys, w'.sys) && LS.HoldersOnly(key, w'.lk, w'.sys.active.Keys) by {
        SectionMoveKeepsHolders(c, key, w, w');
      }
      C.StepKeeps(c, w.sys, w'.sys);
    }
  }

  lemma SectionMoveKeepsHolders(c: C.Bounds, key: L.Key, w: World, w': World)
    requires LS.HoldersOnly(key, w.lk, w.sys.active.Keys) && (Enters(c, key, w, w') || SectionOrCloudMoves(c, w, w'))
    ensures C.Step(c, w.sys, w'.sys) && LS.HoldersOnly(key, w'.lk, w'.sys.active.Keys) && w'.lk == w.lk
  {
    if Enters(c, key, w, w') {
      var t :| LS.MayEnter(key, w.lk, t) && C.Enabled(c, w.sys, C.Enter(t)) &&
               w' == w.(sys := C.Apply(c, w.sys, C.Enter(t)));
    } else {
      var e :| (ReconcileEvent(e) || CloudEvent(e)) && C.Enabled(c, w.sys, e) && w' == w.(sys := C.Apply(c, w.sys, e));
      ApplyKeepsActive(c, w.sys, e);
    }
  }

  lemma {:induction false} RunKeepsInv(c: C.Bounds, key: L.Key, b: seq<World>)
    requires C.BoundsOk(c) && Run(c, key, b)
    ensures WorldInv(c, key, b[|b| - 1])
  {
    if |b| == 1 {
      LR.RunKeepsInv([b[0].lk]);
    } else {
      var front := b[..|b| - 1];
      assert forall i | 0 <= i < |front| - 1 :: Step(c, key, front[i], front[i + 1]);
      RunKeepsInv(c, key, front);
      StepKeeps(c, key, b[|b| - 2], b[|b| - 1]);
    }
  }

  /**
   For any key, any number of goroutines and any cloud progress: listed resources and pending
   creations together never exceed one, and at most one goroutine is in the section.
   */
  lemma LockedSectionCreatesOnce(c: C.Bounds, key: L.Key, w: World)
    requires C.BoundsOk(c) && Reachable(c, key, w)
    ensures |C.LiveOnes(w.sys)| <= 1
    ensures !C.LookUp(w.sys).LookupError?
    ensures C.Exclusive(w.sys)
  {
    var b :| Run(c, key, b) && b[|b| - 1] == w;
    RunKeepsInv(c, key, b);
    C.InvMeansOne(c, w.sys);
    HoldersExclude(key, w);
  }

  /** At most one cluster LAN per data center. */
  lemma AtMostOneLAN(c: C.Bounds, clusterUID: string, datacenter: string, w: World)
    requires C.BoundsOk(c) && Reachable(c, LO.LanKey(clusterUID, datacenter), w)
    ensures |C.LiveOnes(w.sys)| <= 1 && !C.LookUp(w.sys).LookupError?
  {
    LockedSectionCreatesOnce(c, LO.LanKey(clusterUID, datacenter), w);
  }

  /** So getLAN, given any list that shows the listed LANs, never ends in the error for several LANs. */
  method LookUpLAN(ghost c: C.Bounds, ghost clusterUID: string, ghost datacenter: string, ghost w: World,
                   lans: seq<LL.Lan>, name: string)
    returns (r: LL.Search)
    requires C.BoundsOk(c) && Reachable(c, LO.LanKey(clusterUID, datacenter), w)
    requires LL.CountNamed(lans, name) == |C.Listed(w.sys)|
    ensures !r.SeveralLans?
    ensures r.NoLan? <==> C.LookUp(w.sys).Missing?
    ensures r.FoundLan? <==> C.LookUp(w.sys).Present?
  {
    AtMostOneLAN(c, clusterUID, datacenter, w);
    r := LL.GetLAN(lans, None, name);
    assert r.FoundLan? || r.NoLan?;
  }

  /** At most one failover IP block per MachineDeployment. */
  lemma AtMostOneFailoverBlock(c: C.Bounds, namespace: string, deployment: string, w: World)
    requires C.BoundsOk(c) && Reachable(c, LO.FailoverBlockKey(namespace, deployment), w)
    ensures |C.LiveOnes(w.sys)| <= 1 && |C.Listed(w.sys)| <= 1
  {
    LockedSectionCreatesOnce(c, LO.FailoverBlockKey(namespace, deployment), w);
  }

  /** So the first match, which getFailoverIPBlock takes, is the only one there is. */
  method LookUpFailoverBlock(ghost c: C.Bounds, ghost namespace: string, ghost deployment: string, ghost w: World,
                             wanted: IB.Wanted, blocks: seq<IB.Block>)
    returns (r: Option<IB.Block>)
    requires C.BoundsOk(c) && Reachable(c, LO.FailoverBlockKey(namespace, deployment), w)
    requires IB.CountNamed(wanted, blocks) == |C.Listed(w.sys)|
    ensures r.None? <==> C.LookUp(w.sys).Missing?
    ensures forall b | b in blocks && IB.Named(wanted, b) :: r == Some(b)
  {
    AtMostOneFailoverBlock(c, namespace, deployment, w);
    r := IB.SearchFailoverBlock(wanted, blocks);
    if r.None? {
      CountedNever(blocks, IB.ByName(wanted));
    } else {
      var i :| IB.FirstNamed(wanted, blocks, i) && blocks[i] == r.value;
      CountedOnce(blocks, IB.ByName(wanted), i);
      forall b | b in blocks && IB.Named(wanted, b) ensures b == r.value {
        IB.OnlyNamedIsOne(wanted, blocks, b, r.value);
      }
    }
  }
}
