/**
 Unlock of a key by a goroutine that does not hold it.  The documentation promises a panic when the
 key is not locked.  That is so exactly while nobody is registered for the key; otherwise the call
 waits on the empty channel with the internal mutex held.
 */
module StrayUnlock {
  import opened Base
  import opened Locker
  import opened LockerInvariant
  import opened LockerRuns
  import opened LockerObject

  datatype Outcome = Panics | Blocks | Proceeds

  /** What Unlock(k) does once it has taken the free mutex. */
  function OutcomeOf(s: State, k: Key): Outcome
    requires k in s.locks ==> s.locks[k] < |s.objs|
  {
    if k !in s.locks then Panics
    else if s.objs[s.locks[k]].slot.None? then Blocks
    else Proceeds
  }

  /** That is what the actions of Unlock add up to, whoever calls it. */
  lemma OutcomeIsSection(s: State, t: Tid)
    requires t in s.threads && s.threads[t].pc.UnlockGet? && Sound(SharedOf(s))
    ensures var k := s.threads[t].pc.k;
      match OutcomeOf(s, k)
      case Panics => Section(s, t) == Some(Goto(s.(mu := None), t, Panicked))
      case Blocks => Section(s, t).None?
      case Proceeds => (
        && AfterUnlock(SharedOf(s), k).Some?
        && EndsIn(s, t, AfterUnlock(SharedOf(s), k).value, Goroutine(Client, s.threads[t].held - {k})))
  {
    if s.threads[t].pc.k in s.locks {
      UnlockIsSection(s, t);
    } else {
      var s1 := Exec(s, t, Go).value;
      assert Section(s1, t) == Some(s1);
    }
  }

  /** Some goroutine's token is in the channel of `k`. */
  ghost predicate Locked(s: State, k: Key) {
    exists t, o :: t in s.threads && Occupies(s.threads[t], k, o)
  }

  /** Some goroutine's registration as a waiter for `k` is counted. */
  ghost predicate Registered(s: State, k: Key) {
    exists t, o :: t in s.threads && Waits(s.threads[t].pc, o) && s.threads[t].pc.k == k
  }

  lemma LockedIsMapped(s: State, k: Key)
    requires Inv(s) && s.mu.None? && Locked(s, k)
    ensures k in s.locks && s.objs[s.locks[k]].slot.Some?
  {
    var t, o :| t in s.threads && Occupies(s.threads[t], k, o);
    assert PcOk(s, t, s.threads[t]) && HeldOk(s, t, s.threads[t]);
  }

  lemma RegisteredIsMapped(s: State, k: Key)
    requires Inv(s) && Registered(s, k)
    ensures k in s.locks
  {
    var t, o :| t in s.threads && Waits(s.threads[t].pc, o) && s.threads[t].pc.k == k;
    assert PcOk(s, t, s.threads[t]);
  }

  lemma MappedIsLockedOrRegistered(s: State, k: Key)
    requires Inv(s) && s.mu.None? && k in s.locks
    ensures s.objs[s.locks[k]].slot.Some? ==> Locked(s, k)
    ensures s.objs[s.locks[k]].slot.None? ==> Registered(s, k)
  {
    var o := s.locks[k];
    assert Needed(s, k);
    if s.objs[o].slot.Some? {
      var t := s.objs[o].slot.value;
      assert t in s.threads && Occupies(s.threads[t], k, o);
    } else {
      assert |Waiters(s, o)| > 0;
      var t :| t in Waiters(s, o);
      assert PcOk(s, t, s.threads[t]);
      assert s.objs[s.locks[s.threads[t].pc.k]].key == s.threads[t].pc.k;
      assert t in s.threads && Waits(s.threads[t].pc, o) && s.threads[t].pc.k == k;
    }
  }

  /** The three outcomes, each with the exact condition under which it happens. */
  lemma OutcomeIff(s: State, k: Key)
    requires Reachable(s) && s.mu.None?
    ensures k in s.locks ==> s.locks[k] < |s.objs|
    ensures OutcomeOf(s, k) == Proceeds <==> Locked(s, k)
    ensures OutcomeOf(s, k) == Panics <==> !Locked(s, k) && !Registered(s, k)
    ensures OutcomeOf(s, k) == Blocks <==> !Locked(s, k) && Registered(s, k)
  {
    ReachableInv(s);
    if Locked(s, k) { LockedIsMapped(s, k); }
    if Registered(s, k) { RegisteredIsMapped(s, k); }
    if k in s.locks { MappedIsLockedOrRegistered(s, k); }
  }

  /** One goroutine on its way through Lock("a"), up to the map lookup. */
  lemma HalfWay() returns (b: seq<State>)
    ensures Run(b) && |b| == 4
    ensures b[3].mu == Some(0) && b[3].locks == map[] && b[3].objs == []
    ensures b[3].threads.Keys == {0} && b[3].threads[0] == Goroutine(LockGet("a"), map[])
  {
    var s0 := State(None, map[], [], map[0 := Goroutine(Client, map[])]);
    var s1 := Exec(s0, 0, CallLock("a")).value;
    var s2 := Exec(s1, 0, Go).value;
    var s3 := Exec(s2, 0, Go).value;
    b := [s0, s1, s2, s3];
    assert StepOf(s0, 0, CallLock("a"), s1) && StepOf(s1, 0, Go, s2) && StepOf(s2, 0, Go, s3);
  }

  /** The promise fails: the key is not locked, and Unlock blocks instead of panicking. */
  lemma PromisedPanicFails() returns (s: State)
    ensures Reachable(s) && s.mu.None? && !Locked(s, "a")
    ensures "a" in s.locks && s.locks["a"] < |s.objs| && OutcomeOf(s, "a") == Blocks
  {
    var b := HalfWay();
    var s4 := Exec(b[3], 0, Go).value;
    var s5 := Exec(s4, 0, Go).value;
    s := Exec(s5, 0, Go).value;
    assert StepOf(b[3], 0, Go, s4) && StepOf(s4, 0, Go, s5) && StepOf(s5, 0, Go, s);
    var run := b + [s4, s5, s];
    assert Run(run);
    assert forall t, o | t in s.threads :: !Occupies(s.threads[t], "a", o);
  }
}
