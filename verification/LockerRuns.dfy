/** What holds in every state of every run of the keyed lock. */
module LockerRuns {
  import opened Base
  import opened Locker
  import opened LockerInvariant

  /** A fresh locker and goroutines that have not called it yet. */
  ghost predicate Init(s: State) {
    && s.mu == None && s.locks == map[] && s.objs == []
    && forall t | t in s.threads :: s.threads[t] == Goroutine(Client, map[])
  }

  ghost predicate Step(s: State, s': State) {
    exists t, c :: StepOf(s, t, c, s')
  }

  /** A finite run; runs of every length and every interleaving are covered. */
  ghost predicate Run(b: seq<State>) {
    |b| > 0 && Init(b[0]) && forall i | 0 <= i < |b| - 1 :: Step(b[i], b[i + 1])
  }

  ghost predicate Reachable(s: State) {
    exists b :: Run(b) && b[|b| - 1] == s
  }

  lemma InitInv(s: State)
    requires Init(s)
    ensures Inv(s)
  {
  }

  lemma StepKeepsInv(s: State, s': State)
    requires Inv(s) && Step(s, s')
    ensures Inv(s')
  {
    var t, c :| StepOf(s, t, c, s');
    InvKept(s, t, c, s');
  }

  lemma {:induction false} RunKeepsInv(b: seq<State>)
    requires Run(b)
    ensures Inv(b[|b| - 1])
  {
    if |b| == 1 {
      InitInv(b[0]);
    } else {
      var front := b[..|b| - 1];
      assert forall i | 0 <= i < |front| - 1 :: Step(front[i], front[i + 1]);
      RunKeepsInv(front);
      StepKeepsInv(b[|b| - 2], b[|b| - 1]);
    }
  }

  lemma ReachableInv(s: State)
    requires Reachable(s)
    ensures Inv(s)
  {
    var b :| Run(b) && b[|b| - 1] == s;
    RunKeepsInv(b);
  }

  /** `t` is between a successful Lock(k) and the point at which its Unlock(k) lets go. */
  predicate Holds(s: State, t: Tid, k: Key) {
    t in s.threads && k in s.threads[t].held
  }

  /** What one goroutine knows of its own locks. */
  predicate Knows(s: State, t: Tid) {
    t in s.threads && PcOk(s, t, s.threads[t]) && HeldOk(s, t, s.threads[t]) &&
    (HoldsMu(s.threads[t].pc) ==> s.mu == Some(t))
  }

  lemma KnownHoldersAgree(s: State, t: Tid, u: Tid, k: Key)
    requires Knows(s, t) && Knows(s, u) && Holds(s, t, k) && Holds(s, u, k)
    ensures t == u
  {
  }

  lemma OneHolder(s: State, t: Tid, u: Tid, k: Key)
    requires Inv(s) && Holds(s, t, k) && Holds(s, u, k)
    ensures t == u
  {
    assert Knows(s, t) && Knows(s, u);
    KnownHoldersAgree(s, t, u, k);
  }

  /** Mutual exclusion per key, whatever happened to the lock objects of that key. */
  lemma MutualExclusion(s: State, t: Tid, u: Tid, k: Key)
    requires Reachable(s) && Holds(s, t, k) && Holds(s, u, k)
    ensures t == u
  {
    ReachableInv(s);
    OneHolder(s, t, u, k);
  }

  /** Object `o` exists for `k` and somebody sent into it or is registered with it. */
  predicate InUse(s: State, k: Key, o: Obj) {
    o < |s.objs| && s.objs[o].key == k && (s.objs[o].slot.Some? || Waiters(s, o) != {})
  }

  /** With the mutex free, the map holds exactly the objects in use, and one per key. */
  lemma MapIsExact(s: State, k: Key)
    requires Reachable(s) && s.mu.None?
    ensures k in s.locks ==> InUse(s, k, s.locks[k])
    ensures forall o :: InUse(s, k, o) ==> k in s.locks && s.locks[k] == o
  {
    ReachableInv(s);
    if k in s.locks {
      assert Needed(s, k);
      assert s.objs[s.locks[k]].waiters == |Waiters(s, s.locks[k])|;
    }
    forall o | InUse(s, k, o) ensures k in s.locks && s.locks[k] == o {
      InUseIsMapped(s, k, o);
    }
  }

  lemma InUseIsMapped(s: State, k: Key, o: Obj)
    requires Inv(s) && s.mu.None? && InUse(s, k, o)
    ensures k in s.locks && s.locks[k] == o
  {
    if s.objs[o].slot.Some? {
      var t := s.objs[o].slot.value;
      assert Occupies(s.threads[t], k, o);
      assert PcOk(s, t, s.threads[t]) && HeldOk(s, t, s.threads[t]);
    } else {
      var t :| t in Waiters(s, o);
      assert PcOk(s, t, s.threads[t]);
      assert Mapped(s, s.threads[t].pc.k, o);
      assert s.objs[s.locks[s.threads[t].pc.k]].key == s.threads[t].pc.k;
    }
  }

  /** The waiter counter is the number of registered goroutines, so it is never negative. */
  lemma CounterIsExact(s: State, o: Obj)
    requires Reachable(s) && o < |s.objs|
    ensures s.objs[o].waiters == |Waiters(s, o)|
    ensures 0 <= s.objs[o].waiters <= |s.threads|
  {
    ReachableInv(s);
    CardinalityOfSubset(Waiters(s, o), s.threads.Keys);
  }

  lemma CardinalityOfSubset<T>(a: set<T>, b: set<T>)
    requires a <= b
    ensures |a| <= |b|
  {
    assert |b| == |a| + |b - a| by { assert b == a + (b - a); }
  }

  /** Nothing is left behind once every goroutine is back in the client and holds nothing. */
  lemma QuiescentIsEmpty(s: State)
    requires Reachable(s)
    requires forall t | t in s.threads :: s.threads[t] == Goroutine(Client, map[])
    ensures s.mu.None? && s.locks == map[]
    ensures forall o | 0 <= o < |s.objs| :: s.objs[o].slot.None? && s.objs[o].waiters == 0
  {
    ReachableInv(s);
    forall o | 0 <= o < |s.objs| ensures s.objs[o].slot.None? && s.objs[o].waiters == 0 {
      assert Waiters(s, o) == {};
    }
    assert s.locks.Keys == {};
  }

  /**
   A holder's Unlock finds the very object it sent into, never panics, and its channel receive is
   enabled whenever it is reached.
   */
  lemma UnlockOfHolder(s: State, t: Tid)
    requires Reachable(s) && t in s.threads
    ensures !s.threads[t].pc.Panicked?
    ensures var g := s.threads[t]; g.pc.UnlockGet? ==>
      g.pc.k in g.held && g.pc.k in s.locks && s.locks[g.pc.k] == g.held[g.pc.k]
    ensures var g := s.threads[t]; g.pc.UnlockRecv? ==>
      InRange(s, g.pc) && g.pc.k in g.held && g.pc.o == g.held[g.pc.k] && Exec(s, t, Go).Some?
  {
    ReachableInv(s);
    assert PcOk(s, t, s.threads[t]) && HeldOk(s, t, s.threads[t]);
  }

  // ---- the lock seen from outside: a mutex per key ----

  /** Which goroutine owns which key. */
  type Owners = map<Key, Tid>

  ghost predicate Owns(m: Owners, k: Key, t: Tid) {
    k in m && m[k] == t
  }

  ghost predicate Acquires(m: Owners, k: Key, t: Tid, m': Owners) {
    k !in m && m' == m[k := t]
  }

  ghost predicate Releases(m: Owners, k: Key, t: Tid, m': Owners) {
    Owns(m, k, t) && m' == m - {k}
  }

  ghost function HeldKeys(s: State): (keys: set<Key>)
    ensures forall k :: k in keys <==> exists t :: Holds(s, t, k)
  {
    set t, k | t in s.threads && k in s.threads[t].held && Holds(s, t, k) :: k
  }

  ghost function OwnersOf(s: State): Owners {
    map k | k in HeldKeys(s) :: var t :| Holds(s, t, k); t
  }

  lemma OwnersAre(s: State)
    requires Inv(s)
    ensures forall t, k :: Holds(s, t, k) <==> Owns(OwnersOf(s), k, t)
  {
    forall t, k ensures Holds(s, t, k) <==> Owns(OwnersOf(s), k, t) {
      if Holds(s, t, k) { OneHolder(s, t, OwnersOf(s)[k], k); }
    }
  }

  lemma SenderIsFirst(s: State, t: Tid, u: Tid)
    requires Knows(s, t) && Knows(s, u) && s.threads[t].pc.Sent?
    ensures !Holds(s, u, s.threads[t].pc.k)
  {
  }

  lemma NobodyHoldsBeforeAcquire(s: State, t: Tid, u: Tid)
    requires Inv(s) && t in s.threads && s.threads[t].pc.Sent?
    ensures !Holds(s, u, s.threads[t].pc.k)
  {
    if u in s.threads {
      assert Knows(s, t) && Knows(s, u);
      SenderIsFirst(s, t, u);
    }
  }

  lemma HeldMoves(s: State, t: Tid, c: Choice, s': State)
    requires StepOf(s, t, c, s')
    ensures match s.threads[t].pc
      case Sent(k, _) => forall u, j :: Holds(s', u, j) <==> Holds(s, u, j) || (u == t && j == k)
      case UnlockRecv(k, _) => forall u, j :: Holds(s', u, j) <==> Holds(s, u, j) && !(u == t && j == k)
      case _ => forall u, j :: Holds(s', u, j) <==> Holds(s, u, j)
  {
  }

  lemma OwnersEqual(m: Owners, n: Owners)
    requires forall t, k :: Owns(m, k, t) <==> Owns(n, k, t)
    ensures m == n
  {
    forall k ensures k in m <==> k in n {
      if k in m { assert Owns(m, k, m[k]); }
      if k in n { assert Owns(n, k, n[k]); }
    }
    forall k | k in m ensures m[k] == n[k] { assert Owns(m, k, m[k]); }
  }

  lemma AcquireShows(m: Owners, k: Key, t: Tid, n: Owners)
    requires forall u :: !Owns(m, k, u)
    requires forall u, j :: Owns(n, j, u) <==> Owns(m, j, u) || (u == t && j == k)
    ensures Acquires(m, k, t, n)
  {
    assert k in m ==> Owns(m, k, m[k]);
    OwnersEqual(m[k := t], n);
  }

  lemma ReleaseShows(m: Owners, k: Key, t: Tid, n: Owners)
    requires Owns(m, k, t)
    requires forall u, j :: Owns(n, j, u) <==> Owns(m, j, u) && !(u == t && j == k)
    ensures Releases(m, k, t, n)
  {
    OwnersEqual(m - {k}, n);
  }

  /**
   Each transition is an acquisition of a free key by the goroutine whose Lock returns nil, a release
   by the goroutine that owns the key, or invisible.  In particular a Lock that returns an error, at
   whatever point its context is done, changes no ownership at all.
   */
  lemma RefinesKeyedMutex(s: State, t: Tid, c: Choice, s': State)
    requires Reachable(s) && StepOf(s, t, c, s')
    ensures match s.threads[t].pc
      case Sent(k, _) => Acquires(OwnersOf(s), k, t, OwnersOf(s'))
      case UnlockRecv(k, _) => Releases(OwnersOf(s), k, t, OwnersOf(s'))
      case _ => OwnersOf(s') == OwnersOf(s)
  {
    ReachableInv(s);
    InvKept(s, t, c, s');
    assert PcOk(s, t, s.threads[t]);
    HeldMoves(s, t, c, s');
    OwnersAre(s);
    OwnersAre(s');
    match s.threads[t].pc
    case Sent(k, _) =>
      forall u ensures !Holds(s, u, k) { NobodyHoldsBeforeAcquire(s, t, u); }
      AcquireShows(OwnersOf(s), k, t, OwnersOf(s'));
    case UnlockRecv(k, _) =>
      assert Holds(s, t, k);
      ReleaseShows(OwnersOf(s), k, t, OwnersOf(s'));
    case _ =>
      OwnersEqual(OwnersOf(s), OwnersOf(s'));
  }
}
