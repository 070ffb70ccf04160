/**
 Reconciles never deadlock on key locks.

 The call sites that take a key lock while holding another one are createLAN, deleteLAN and
 removeLANPendingRequestFromCluster: they take the cluster's current-request lock inside the
 LAN lock.  All other sites hold nothing when they call Lock.
 */
module LockOrder {
  import opened Base
  import opened Locker
  import opened LockerInvariant
  import opened LockerRuns

  // ---- the keys ----

  function LanKey(clusterUID: string, datacenter: string): Key {
    "cluster/" + clusterUID + "/dc/" + datacenter + "/lan"
  }

  function CurrentRequestKey(clusterUID: string): Key {
    clusterUID + "/currentRequestByDatacenter"
  }

  function FailoverBlockKey(namespace: string, deployment: string): Key {
    "fo-ipb/" + namespace + "/" + deployment
  }

  predicate EndsWith(s: string, suffix: string) {
    |suffix| <= |s| && s[|s| - |suffix|..] == suffix
  }

  /** Current-request locks are innermost. */
  function Rank(k: Key): nat {
    if EndsWith(k, "/currentRequestByDatacenter") then 1 else 0
  }

  const MAX_RANK := 1

  lemma RankOfKeys(uid: string, dc: string)
    ensures Rank(LanKey(uid, dc)) == 0
    ensures Rank(CurrentRequestKey(uid)) == 1
  {
    var lan := LanKey(uid, dc);
    assert lan[|lan| - 1] == 'n';
  }

  /** The LAN lock and the current-request lock are never the same lock, for any strings. */
  lemma KeysNeverEqual(uid: string, dc: string, uid': string)
    ensures LanKey(uid, dc) != CurrentRequestKey(uid')
  {
    RankOfKeys(uid, dc);
    RankOfKeys(uid', dc);
  }

  predicate NoSlash(s: string) { '/' !in s }

  lemma SlashSplits(a: string, x: string, b: string, y: string)
    requires NoSlash(a) && NoSlash(b) && a + "/" + x == b + "/" + y
    ensures a == b && x == y
  {
    var s := a + "/" + x;
    assert s[|a|] == '/' && s[|b|] == '/';
    assert forall i | 0 <= i < |a| :: s[i] == a[i] && a[i] != '/';
    assert forall i | 0 <= i < |b| :: s[i] == b[i] && b[i] != '/';
    assert a == s[..|a|] && b == s[..|b|];
    assert x == s[|a| + 1..] && y == s[|b| + 1..];
  }

  /** Machines share a LAN lock only within one cluster and data center (UIDs contain no slash). */
  lemma LanKeyInjective(uid: string, dc: string, uid': string, dc': string)
    requires NoSlash(uid) && NoSlash(uid') && LanKey(uid, dc) == LanKey(uid', dc')
    ensures uid == uid' && dc == dc'
  {
    var a, b := LanKey(uid, dc)[8..], LanKey(uid', dc')[8..];
    assert a == uid + "/" + ("dc/" + dc + "/lan");
    assert b == uid' + "/" + ("dc/" + dc' + "/lan");
    SlashSplits(uid, "dc/" + dc + "/lan", uid', "dc/" + dc' + "/lan");
    var x, y := "dc/" + dc + "/lan", "dc/" + dc' + "/lan";
    assert dc == x[3..|x| - 4] && dc' == y[3..|y| - 4];
  }

  /** Machines share a failover block lock only within one MachineDeployment. */
  lemma FailoverBlockKeyInjective(ns: string, md: string, ns': string, md': string)
    requires NoSlash(ns) && NoSlash(ns') && FailoverBlockKey(ns, md) == FailoverBlockKey(ns', md')
    ensures ns == ns' && md == md'
  {
    var a, b := FailoverBlockKey(ns, md)[7..], FailoverBlockKey(ns', md')[7..];
    assert a == ns + "/" + md && b == ns' + "/" + md';
    SlashSplits(ns, md, ns', md');
  }

  /** Clusters share a current-request lock with nobody. */
  lemma CurrentRequestKeyInjective(uid: string, uid': string)
    requires CurrentRequestKey(uid) == CurrentRequestKey(uid')
    ensures uid == uid'
  {
    var a, b := CurrentRequestKey(uid), CurrentRequestKey(uid');
    assert a[..|a| - 27] == uid && b[..|b| - 27] == uid';
  }

  lemma FailoverBlockIsNoLan(uid: string, dc: string, ns: string, md: string)
    ensures FailoverBlockKey(ns, md) != LanKey(uid, dc)
  {
    assert FailoverBlockKey(ns, md)[0] == 'f' && LanKey(uid, dc)[0] == 'c';
  }

  /** A string with a slash after its first one has more than one. */
  lemma TwoSlashes(a: string, b: string, c: string, x: string, y: string)
    requires NoSlash(a) && NoSlash(x) && NoSlash(y)
    ensures a + "/" + (b + "/" + c) != x + "/" + y
  {
    var rest := b + "/" + c;
    assert rest[|b|] == '/';
    if a + "/" + rest == x + "/" + y { SlashSplits(a, rest, x, y); }
  }

  /** A failover block lock is no lock of another kind. */
  lemma FailoverBlockKeyIsOther(uid: string, dc: string, ns: string, md: string)
    ensures FailoverBlockKey(ns, md) != LanKey(uid, dc)
    ensures NoSlash(uid) ==> FailoverBlockKey(ns, md) != CurrentRequestKey(uid)
  {
    FailoverBlockIsNoLan(uid, dc, ns, md);
    if NoSlash(uid) { FailoverBlockIsNoCurrentRequest(uid, ns, md); }
  }

  lemma FailoverBlockIsNoCurrentRequest(uid: string, ns: string, md: string)
    requires NoSlash(uid)
    ensures FailoverBlockKey(ns, md) != CurrentRequestKey(uid)
  {
    var tail := "currentRequestByDatacenter";
    TwoSlashes("fo-ipb", ns, md, uid, tail);
    assert FailoverBlockKey(ns, md) == "fo-ipb" + "/" + (ns + "/" + md);
    assert "/currentRequestByDatacenter" == "/" + tail;
    assert CurrentRequestKey(uid) == uid + "/" + tail;
  }

  // ---- runs of reconciles ----

  /** A call of Lock that the code makes while its goroutine holds exactly `held`. */
  ghost predicate CallSite(held: set<Key>, k: Key) {
    held == {} || exists uid, dc :: held == {LanKey(uid, dc)} && k == CurrentRequestKey(uid)
  }

  ghost predicate ReconcileStep(s: State, s': State) {
    exists t, c :: StepOf(s, t, c, s') && (c.CallLock? ==> CallSite(s.threads[t].held.Keys, c.k))
  }

  ghost predicate ReconcileRun(b: seq<State>) {
    |b| > 0 && Init(b[0]) && forall i | 0 <= i < |b| - 1 :: ReconcileStep(b[i], b[i + 1])
  }

  ghost predicate ReconcileReachable(s: State) {
    exists b :: ReconcileRun(b) && b[|b| - 1] == s
  }

  /** A goroutine in Lock asks for a key above everything it holds. */
  predicate Locking(pc: Pc) {
    pc.LockMu? || pc.LockCtx? || pc.LockGet? || pc.LockInc? || pc.LockRel? || pc.Select? || pc.Sent?
  }

  predicate Above(k: Key, held: set<Key>) {
    forall h | h in held :: Rank(h) < Rank(k)
  }

  predicate Ordered(s: State) {
    forall t | t in s.threads :: Locking(s.threads[t].pc) ==> Above(s.threads[t].pc.k, s.threads[t].held.Keys)
  }

  lemma CallSitesAscend(held: set<Key>, k: Key)
    requires CallSite(held, k)
    ensures Above(k, held)
  {
    if held != {} {
      var uid, dc :| held == {LanKey(uid, dc)} && k == CurrentRequestKey(uid);
      RankOfKeys(uid, dc);
    }
  }

  ghost predicate LockingMoves(s: State, t: Tid, c: Choice, s': State) {
    && t in s.threads && t in s'.threads && s'.threads == s.threads[t := s'.threads[t]]
    && var g, g' := s.threads[t], s'.threads[t];
      Locking(g'.pc) ==> g'.held == g.held && (c == CallLock(g'.pc.k) || (Locking(g.pc) && g.pc.k == g'.pc.k))
  }

  lemma LockGoMoves(s: State, t: Tid, s': State)
    requires t in s.threads && InRange(s, s.threads[t].pc) && ExecGo(s, t) == Some(s')
    requires Locking(s.threads[t].pc)
    ensures LockingMoves(s, t, Go, s')
  {
  }

  lemma OtherGoMoves(s: State, t: Tid, s': State)
    requires t in s.threads && InRange(s, s.threads[t].pc) && ExecGo(s, t) == Some(s')
    requires !Locking(s.threads[t].pc)
    ensures LockingMoves(s, t, Go, s')
  {
  }

  lemma ToldMoves(s: State, t: Tid, c: Choice, s': State)
    requires StepOf(s, t, c, s')
    requires s.threads[t].pc.Client? || s.threads[t].pc.Select? || s.threads[t].pc.LockCtx?
    ensures LockingMoves(s, t, c, s')
  {
  }

  lemma StepMovesLocking(s: State, t: Tid, c: Choice, s': State)
    requires StepOf(s, t, c, s')
    ensures LockingMoves(s, t, c, s')
  {
    var pc := s.threads[t].pc;
    if pc.Client? || pc.Select? || pc.LockCtx? {
      ToldMoves(s, t, c, s');
    } else {
      assert c == Go && ExecGo(s, t) == Some(s');
      if Locking(pc) { LockGoMoves(s, t, s'); } else { OtherGoMoves(s, t, s'); }
    }
  }

  lemma OrderedKept(s: State, t: Tid, c: Choice, s': State)
    requires Ordered(s) && LockingMoves(s, t, c, s')
    requires c.CallLock? ==> Above(c.k, s.threads[t].held.Keys)
    ensures Ordered(s')
  {
  }

  lemma ReconcileStepKeeps(s: State, s': State)
    requires Inv(s) && Ordered(s) && ReconcileStep(s, s')
    ensures Inv(s') && Ordered(s')
  {
    var t, c :| StepOf(s, t, c, s') && (c.CallLock? ==> CallSite(s.threads[t].held.Keys, c.k));
    InvKept(s, t, c, s');
    if c.CallLock? { CallSitesAscend(s.threads[t].held.Keys, c.k); }
    StepMovesLocking(s, t, c, s');
    OrderedKept(s, t, c, s');
  }

  lemma {:induction false} ReconcileRunIsOrdered(b: seq<State>)
    requires ReconcileRun(b)
    ensures Inv(b[|b| - 1]) && Ordered(b[|b| - 1])
  {
    if |b| == 1 {
      RunKeepsInv(b);
    } else {
      var front := b[..|b| - 1];
      assert forall i | 0 <= i < |front| - 1 :: ReconcileStep(front[i], front[i + 1]);
      ReconcileRunIsOrdered(front);
      ReconcileStepKeeps(b[|b| - 2], b[|b| - 1]);
    }
  }

  // ---- no cycle of waiting goroutines ----

  /** `t` is stuck at the channel of a key that `u` holds. */
  predicate WaitsFor(s: State, t: Tid, u: Tid) {
    t in s.threads && s.threads[t].pc.Select? && Holds(s, u, s.threads[t].pc.k)
  }

  ghost predicate WaitChain(s: State, p: seq<Tid>) {
    forall i | 0 <= i < |p| - 1 :: WaitsFor(s, p[i], p[i + 1])
  }

  lemma {:induction false} ChainAscends(s: State, p: seq<Tid>)
    requires Ordered(s) && |p| >= 3 && WaitChain(s, p)
    ensures WaitsFor(s, p[0], p[1]) && WaitsFor(s, p[|p| - 2], p[|p| - 1])
    ensures Rank(s.threads[p[0]].pc.k) < Rank(s.threads[p[|p| - 2]].pc.k)
  {
    assert WaitsFor(s, p[0], p[1]) && WaitsFor(s, p[1], p[2]);
    assert s.threads[p[0]].pc.k in s.threads[p[1]].held.Keys;
    if |p| > 3 {
      var rest := p[1..];
      forall i | 0 <= i < |rest| - 1 ensures WaitsFor(s, rest[i], rest[i + 1]) {
        assert WaitsFor(s, p[i + 1], p[i + 2]);
      }
      ChainAscends(s, rest);
    }
  }

  lemma CycleImpossible(s: State, p: seq<Tid>)
    requires Ordered(s) && |p| >= 2 && WaitChain(s, p)
    ensures p[0] != p[|p| - 1]
  {
    if p[0] == p[|p| - 1] {
      var around := p + [p[1]];
      forall i | 0 <= i < |around| - 1 ensures WaitsFor(s, around[i], around[i + 1]) {
        assert WaitsFor(s, p[if i < |p| - 1 then i else 0], p[if i < |p| - 1 then i + 1 else 1]);
      }
      ChainAscends(s, around);
    }
  }

  /** No goroutine waits for itself through any chain of other goroutines. */
  lemma NoWaitCycle(s: State, p: seq<Tid>)
    requires ReconcileReachable(s) && |p| >= 2 && WaitChain(s, p)
    ensures p[0] != p[|p| - 1]
  {
    var b :| ReconcileRun(b) && b[|b| - 1] == s;
    ReconcileRunIsOrdered(b);
    CycleImpossible(s, p);
  }

  // ---- somebody can always go on ----

  /** Can take its next action in Lock or Unlock, or runs client code inside a locked section. */
  predicate CanGoOn(s: State, u: Tid) {
    u in s.threads && InRange(s, s.threads[u].pc) &&
    if s.threads[u].pc.Client? then s.threads[u].held != map[] else Exec(s, u, Go).Some?
  }

  /** `t` cannot go on because of `u`: `u` has the mutex `t` asks for, or its token is in the channel. */
  predicate HeldUpBy(s: State, t: Tid, u: Tid) {
    && t in s.threads && u in s.threads
    && var pc := s.threads[t].pc;
      || ((pc.LockMu? || pc.CancelMu? || pc.UnlockMu?) && s.mu == Some(u))
      || (pc.Select? && pc.o < |s.objs| && s.objs[pc.o].slot == Some(u) && Occupies(s.threads[u], pc.k, pc.o))
  }

  /** `p` leads from `t`, each held up by the next, to somebody who can go on. */
  ghost predicate LeadsOn(s: State, t: Tid, p: seq<Tid>) {
    && |p| > 0 && p[0] == t && CanGoOn(s, p[|p| - 1])
    && forall i | 0 <= i < |p| - 1 :: HeldUpBy(s, p[i], p[i + 1])
  }

  lemma LeadsFurther(s: State, t: Tid, u: Tid, p: seq<Tid>)
    requires HeldUpBy(s, t, u) && LeadsOn(s, u, p)
    ensures LeadsOn(s, t, [t] + p)
  {
    var q := [t] + p;
    forall i | 0 <= i < |q| - 1 ensures HeldUpBy(s, q[i], q[i + 1]) {
      if i > 0 { assert HeldUpBy(s, p[i - 1], p[i]); }
    }
  }

  /** Whoever cannot go on is at the mutex or at a full channel. */
  lemma StuckAt(s: State, t: Tid)
    requires Inv(s) && t in s.threads && !s.threads[t].pc.Client? && !CanGoOn(s, t)
    ensures var pc := s.threads[t].pc;
      || ((pc.LockMu? || pc.CancelMu? || pc.UnlockMu?) && s.mu.Some?)
      || (pc.Select? && pc.o < |s.objs| && s.objs[pc.o].slot.Some?)
  {
    assert PcOk(s, t, s.threads[t]);
    if HoldsMu(s.threads[t].pc) { MutexHolderGoesOn(s, t); }
  }

  lemma MutexHolderGoesOn(s: State, u: Tid)
    requires Inv(s) && s.mu == Some(u)
    ensures CanGoOn(s, u)
  {
    assert PcOk(s, u, s.threads[u]) && HeldOk(s, u, s.threads[u]);
  }

  lemma RunnerAtMutex(s: State, t: Tid) returns (p: seq<Tid>)
    requires Inv(s) && t in s.threads && !s.threads[t].pc.Client? && !s.threads[t].pc.Select?
    ensures LeadsOn(s, t, p)
  {
    if CanGoOn(s, t) {
      p := [t];
    } else {
      StuckAt(s, t);
      MutexHolderGoesOn(s, s.mu.value);
      p := [t, s.mu.value];
    }
  }

  lemma {:induction false} RunnerAtChannel(s: State, t: Tid) returns (p: seq<Tid>)
    requires Inv(s) && Ordered(s) && t in s.threads && s.threads[t].pc.Select?
    ensures LeadsOn(s, t, p)
    decreases MAX_RANK - Rank(s.threads[t].pc.k)
  {
    if CanGoOn(s, t) {
      p := [t];
    } else {
      StuckAt(s, t);
      var owner := OwnerOfChannel(s, t);
      if CanGoOn(s, owner) {
        p := [owner];
      } else if s.threads[owner].pc.Select? {
        p := RunnerAtChannel(s, owner);
      } else {
        p := RunnerAtMutex(s, owner);
      }
      LeadsFurther(s, t, owner, p);
      p := [t] + p;
    }
  }

  /** The owner of the channel `t` waits at either can go on or waits for something of higher rank. */
  lemma OwnerOfChannel(s: State, t: Tid) returns (owner: Tid)
    requires Inv(s) && Ordered(s) && t in s.threads && s.threads[t].pc.Select?
    requires s.threads[t].pc.o < |s.objs| && s.objs[s.threads[t].pc.o].slot.Some?
    ensures HeldUpBy(s, t, owner)
    ensures CanGoOn(s, owner) || !s.threads[owner].pc.Client?
    ensures !CanGoOn(s, owner) && s.threads[owner].pc.Select? ==> Rank(s.threads[t].pc.k) < Rank(s.threads[owner].pc.k)
  {
    var k, o := s.threads[t].pc.k, s.threads[t].pc.o;
    assert PcOk(s, t, s.threads[t]);
    owner := s.objs[o].slot.value;
    assert s.objs[s.locks[k]].key == k;
    assert Occupies(s.threads[owner], k, o);
    assert PcOk(s, owner, s.threads[owner]);
  }

  /**
   Whenever a goroutine is inside Lock or Unlock, the chain of those that hold it up ends in one that
   can take its next action there or is running client code inside a locked section: no reachable
   state is a deadlock for anybody, even if no context is ever done.
   */
  lemma NoDeadlock(s: State, t: Tid)
    requires ReconcileReachable(s) && t in s.threads && !s.threads[t].pc.Client?
    ensures exists p :: LeadsOn(s, t, p)
  {
    var b :| ReconcileRun(b) && b[|b| - 1] == s;
    ReconcileRunIsOrdered(b);
    if s.threads[t].pc.Select? {
      var p := RunnerAtChannel(s, t);
    } else {
      var p := RunnerAtMutex(s, t);
    }
  }
}
