/**
 Giving up: a Lock whose context is done can always stop waiting, returns without the key, and
 leaves everybody else as they were.
 */
module LockCancel {
  import opened Base
  import opened Locker
  import opened LockerInvariant
  import opened LockerRuns
  import opened LockerObject
  import opened StrayUnlock

  /** A goroutine inside Lock that looks at its context goes on to give up as soon as that is done. */
  lemma CanGiveUp(s: State, t: Tid)
    requires Reachable(s) && t in s.threads && (s.threads[t].pc.Select? || s.threads[t].pc.LockCtx?)
    ensures InRange(s, s.threads[t].pc) && Exec(s, t, CtxDone).Some?
    ensures var g, s' := s.threads[t], Exec(s, t, CtxDone).value;
      s' == s.(threads := s.threads[t := g.(pc := if g.pc.Select? then CancelMu(g.pc.k, g.pc.o) else Leave)])
  {
    ReachableInv(s);
    assert PcOk(s, t, s.threads[t]);
  }

  // ---- the section keeps the invariant ----

  lemma InvSound(s: State, t: Tid)
    requires Inv(s) && t in s.threads
    ensures InRange(s, s.threads[t].pc) && Sound(SharedOf(s))
  {
    assert PcOk(s, t, s.threads[t]);
  }

  lemma SectionSteps(s: State, t: Tid, s': State)
    requires StepOf(s, t, Go, s') && HoldsMu(s.threads[t].pc)
    ensures t in s'.threads && Distance(s'.threads[t].pc) < Distance(s.threads[t].pc)
  {
  }

  lemma {:induction false} SectionKeepsInv(s: State, t: Tid)
    requires Inv(s) && t in s.threads && InRange(s, s.threads[t].pc) && Sound(SharedOf(s))
    ensures Section(s, t).Some? ==> Inv(Section(s, t).value)
    decreases Distance(s.threads[t].pc)
  {
    if HoldsMu(s.threads[t].pc) && Exec(s, t, Go).Some? {
      var s' := Exec(s, t, Go).value;
      SectionSteps(s, t, s');
      assert Inv(s') && InRange(s', s'.threads[t].pc) && Sound(SharedOf(s')) by {
        InvKept(s, t, Go, s');
        InvSound(s', t);
      }
      SectionKeepsInv(s', t);
    }
  }

  /** `t`, holding the mutex, runs on until it lets go of it. */
  ghost predicate RunsOnTo(s: State, t: Tid, s': State) {
    && t in s.threads && InRange(s, s.threads[t].pc) && Sound(SharedOf(s))
    && Section(s, t) == Some(s')
  }

  /** With the mutex free, a key is in the map exactly if somebody occupies it or waits for it. */
  lemma MappedIff(s: State, k: Key)
    requires Inv(s) && s.mu.None?
    ensures k in s.locks <==> Locked(s, k) || Registered(s, k)
  {
    if Locked(s, k) { LockedIsMapped(s, k); }
    if Registered(s, k) { RegisteredIsMapped(s, k); }
    if k in s.locks { MappedIsLockedOrRegistered(s, k); }
  }

  /** Whose locks are whose depends on nothing but what each goroutine holds. */
  lemma SameHeldSameOwners(s: State, s': State)
    requires Inv(s) && Inv(s') && forall t, k :: Holds(s, t, k) <==> Holds(s', t, k)
    ensures OwnersOf(s) == OwnersOf(s')
  {
    OwnersAre(s);
    OwnersAre(s');
    OwnersEqual(OwnersOf(s), OwnersOf(s'));
  }

  /** What a Lock that has returned an error leaves. */
  ghost predicate GivenUp(s: State, t: Tid, s': State)
    requires t in s.threads
  {
    && BackInClient(s, t, s')
    && OwnersOf(s') == OwnersOf(s)
    && forall k :: k in s'.locks <==> Locked(s', k) || Registered(s', k)
  }

  lemma EndedIsGivenUp(s: State, t: Tid, s': State)
    requires Inv(s) && Inv(s') && t in s.threads
    requires BackInClient(s, t, s')
    ensures GivenUp(s, t, s')
  {
    SameHeldSameOwners(s, s');
    forall k ensures k in s'.locks <==> Locked(s', k) || Registered(s', k) { MappedIff(s', k); }
  }

  predicate BackInClient(s: State, t: Tid, s': State)
    requires t in s.threads
  {
    s'.mu.None? && s'.threads == s.threads[t := Goroutine(Client, s.threads[t].held)]
  }

  lemma LeaveRunsOn(s: State, t: Tid) returns (s': State)
    requires Inv(s) && t in s.threads && s.threads[t].pc.Leave?
    ensures RunsOnTo(s, t, s') && Inv(s') && BackInClient(s, t, s') && s'.locks == s.locks && s'.objs == s.objs
  {
    InvSound(s, t);
    LeaveEnds(s, t);
    SectionKeepsInv(s, t);
    s' := Section(s, t).value;
  }

  lemma CancelRunsOn(s: State, t: Tid) returns (s': State)
    requires Inv(s) && t in s.threads && s.threads[t].pc.CancelDec?
    ensures RunsOnTo(s, t, s') && Inv(s') && BackInClient(s, t, s')
  {
    InvSound(s, t);
    CancelIsSection(s, t);
    SectionKeepsInv(s, t);
    s' := Section(s, t).value;
  }

  lemma CancelTakesMutex(s: State, t: Tid) returns (s1: State)
    requires Inv(s) && t in s.threads && s.threads[t].pc.CancelMu? && s.mu.None?
    ensures StepOf(s, t, Go, s1) && Inv(s1)
    ensures var g := s.threads[t];
      s1.threads == s.threads[t := Goroutine(CancelDec(g.pc.k, g.pc.o), g.held)]
  {
    InvSound(s, t);
    s1 := Exec(s, t, Go).value;
    InvKept(s, t, Go, s1);
  }

  /** A context that was done before the call touched anything: nothing is registered or made. */
  lemma EarlyGiveUpEnds(s: State, t: Tid) returns (s1: State, s': State)
    requires Reachable(s) && t in s.threads && s.threads[t].pc.LockCtx?
    ensures StepOf(s, t, CtxDone, s1) && RunsOnTo(s1, t, s')
    ensures GivenUp(s, t, s') && s'.locks == s.locks && s'.objs == s.objs
  {
    CanGiveUp(s, t);
    ReachableInv(s);
    s1 := Exec(s, t, CtxDone).value;
    InvKept(s, t, CtxDone, s1);
    s' := LeaveRunsOn(s1, t);
    assert BackInClient(s, t, s');
    EndedIsGivenUp(s, t, s');
  }

  /**
   A waiter that has given up needs the mutex once: whenever that is free, the waiter, running on,
   takes it, deregisters and is back in the client holding what it held.  No key has changed its
   owner, and each key is in the map exactly if somebody occupies it or waits for it.
   */
  lemma GiveUpEnds(s: State, t: Tid) returns (s1: State, s': State)
    requires Reachable(s) && t in s.threads && s.threads[t].pc.CancelMu? && s.mu.None?
    ensures StepOf(s, t, Go, s1) && RunsOnTo(s1, t, s')
    ensures GivenUp(s, t, s')
  {
    ReachableInv(s);
    s1 := CancelTakesMutex(s, t);
    s' := CancelRunsOn(s1, t);
    assert BackInClient(s, t, s');
    EndedIsGivenUp(s, t, s');
  }
}
