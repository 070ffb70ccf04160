/**
 The Locker object itself.  Each part of Lock and Unlock that runs under the internal mutex is a
 method that updates the object in place, and is shown to be what the transitions of module Locker
 do when that goroutine runs on, undisturbed, until it lets go of the mutex.
 */
module LockerObject {
  import opened Base
  import opened Locker
  import opened LockerInvariant

  /** How many actions a goroutine is away from releasing the mutex, at most. */
  function Distance(pc: Pc): nat {
    match pc
    case LockCtx(_) => 4
    case LockGet(_) => 3
    case LockInc(_, _) => 2
    case LockRel(_, _) => 1
    case CancelDec(_, _) => 4
    case CancelLen(_, _) => 3
    case CancelDel(_, _) => 2
    case UnlockGet(_) => 5
    case UnlockCount(_, _) => 4
    case UnlockDel(_, _) => 3
    case UnlockRecv(_, _) => 2
    case Leave => 1
    case _ => 0
  }

  /** `t` runs on until it does not hold the mutex; None if it gets stuck holding it. */
  ghost function Section(s: State, t: Tid): Option<State>
    requires t in s.threads && InRange(s, s.threads[t].pc)
    requires forall k | k in s.locks :: s.locks[k] < |s.objs|
    decreases Distance(s.threads[t].pc)
  {
    if !HoldsMu(s.threads[t].pc) then Some(s)
    else if Exec(s, t, Go).None? then None
    else Section(Exec(s, t, Go).value, t)
  }

  // ---- the three sections, each in one go ----

  /** The shared part of the state: the map and the lock objects. */
  datatype Shared = Shared(locks: map<Key, Obj>, objs: seq<LockObj>)

  predicate Sound(h: Shared) {
    forall k | k in h.locks :: h.locks[k] < |h.objs|
  }

  function SharedOf(s: State): Shared { Shared(s.locks, s.objs) }

  function Bump(h: Shared, o: Obj, n: int): Shared
    requires o < |h.objs|
  {
    h.(objs := h.objs[o := h.objs[o].(waiters := h.objs[o].waiters + n)])
  }

  function AfterRegister(h: Shared, k: Key): (Shared, Obj)
    requires Sound(h)
  {
    if k in h.locks then (Bump(h, h.locks[k], 1), h.locks[k])
    else (Shared(h.locks[k := |h.objs|], h.objs + [LockObj(k, None, 1)]), |h.objs|)
  }

  function AfterCancel(h: Shared, k: Key, o: Obj): Shared
    requires o < |h.objs|
  {
    var h1 := Bump(h, o, -1);
    if h1.objs[o].waiters == 0 && h1.objs[o].slot.None? then h1.(locks := h1.locks - {k}) else h1
  }

  /** None: there is no lock object, or its channel is empty. */
  function AfterUnlock(h: Shared, k: Key): Option<Shared>
    requires Sound(h)
  {
    if k !in h.locks || h.objs[h.locks[k]].slot.None? then None
    else
      var o := h.locks[k];
      Some(Shared(if h.objs[o].waiters == 0 then h.locks - {k} else h.locks,
                  h.objs[o := h.objs[o].(slot := None)]))
  }

  /** The state after `t` has let go of the mutex with shared part `h`. */
  ghost predicate EndsIn(s: State, t: Tid, h: Shared, g: Goroutine)
    requires t in s.threads && InRange(s, s.threads[t].pc) && Sound(SharedOf(s))
  {
    Section(s, t) == Some(State(None, h.locks, h.objs, s.threads[t := g]))
  }

  lemma LockRelEnds(s: State, t: Tid)
    requires t in s.threads && s.threads[t].pc.LockRel? && InRange(s, s.threads[t].pc) && Sound(SharedOf(s))
    ensures var g := s.threads[t]; EndsIn(s, t, SharedOf(s), g.(pc := Select(g.pc.k, g.pc.o)))
  {
    var s1 := Exec(s, t, Go).value;
    assert Section(s1, t) == Some(s1);
  }

  lemma LockIncEnds(s: State, t: Tid)
    requires t in s.threads && s.threads[t].pc.LockInc? && InRange(s, s.threads[t].pc) && Sound(SharedOf(s))
    ensures var g := s.threads[t]; EndsIn(s, t, Bump(SharedOf(s), g.pc.o, 1), g.(pc := Select(g.pc.k, g.pc.o)))
  {
    var s1 := Exec(s, t, Go).value;
    LockRelEnds(s1, t);
    assert s1.threads[t := s.threads[t].(pc := Select(s.threads[t].pc.k, s.threads[t].pc.o))]
        == s.threads[t := s.threads[t].(pc := Select(s.threads[t].pc.k, s.threads[t].pc.o))];
  }

  /** Lock, from the map lookup to the release of the mutex. */
  lemma RegisterIsSection(s: State, t: Tid)
    requires t in s.threads && s.threads[t].pc.LockGet? && Sound(SharedOf(s))
    ensures var g := s.threads[t]; var (h, o) := AfterRegister(SharedOf(s), g.pc.k);
      EndsIn(s, t, h, g.(pc := Select(g.pc.k, o)))
  {
    var g := s.threads[t];
    var (h, o) := AfterRegister(SharedOf(s), g.pc.k);
    var s1 := Exec(s, t, Go).value;
    LockIncEnds(s1, t);
    assert h.objs == Bump(SharedOf(s1), o, 1).objs;
    assert s1.threads[t := g.(pc := Select(g.pc.k, o))] == s.threads[t := g.(pc := Select(g.pc.k, o))];
  }

  lemma LeaveEnds(s: State, t: Tid)
    requires t in s.threads && s.threads[t].pc.Leave? && Sound(SharedOf(s))
    ensures EndsIn(s, t, SharedOf(s), s.threads[t].(pc := Client))
  {
    var s1 := Exec(s, t, Go).value;
    assert Section(s1, t) == Some(s1);
  }

  lemma CancelDelEnds(s: State, t: Tid)
    requires t in s.threads && s.threads[t].pc.CancelDel? && InRange(s, s.threads[t].pc) && Sound(SharedOf(s))
    ensures var g := s.threads[t]; EndsIn(s, t, Shared(s.locks - {g.pc.k}, s.objs), g.(pc := Client))
  {
    var s1 := Exec(s, t, Go).value;
    LeaveEnds(s1, t);
    assert s1.threads[t := s.threads[t].(pc := Client)] == s.threads[t := s.threads[t].(pc := Client)];
  }

  lemma CancelLenEnds(s: State, t: Tid)
    requires t in s.threads && s.threads[t].pc.CancelLen? && InRange(s, s.threads[t].pc) && Sound(SharedOf(s))
    ensures var g := s.threads[t];
      var h := if s.objs[g.pc.o].slot.None? then Shared(s.locks - {g.pc.k}, s.objs) else SharedOf(s);
      EndsIn(s, t, h, g.(pc := Client))
  {
    var s1 := Exec(s, t, Go).value;
    if s1.threads[t].pc.Leave? { LeaveEnds(s1, t); } else { CancelDelEnds(s1, t); }
    assert s1.threads[t := s.threads[t].(pc := Client)] == s.threads[t := s.threads[t].(pc := Client)];
  }

  /** Lock, from the decrement after giving up to the return of the error. */
  lemma CancelIsSection(s: State, t: Tid)
    requires t in s.threads && s.threads[t].pc.CancelDec? && InRange(s, s.threads[t].pc) && Sound(SharedOf(s))
    ensures var g := s.threads[t]; EndsIn(s, t, AfterCancel(SharedOf(s), g.pc.k, g.pc.o), g.(pc := Client))
  {
    var s1 := Exec(s, t, Go).value;
    if s1.threads[t].pc.Leave? { LeaveEnds(s1, t); } else { CancelLenEnds(s1, t); }
    assert s1.threads[t := s.threads[t].(pc := Client)] == s.threads[t := s.threads[t].(pc := Client)];
  }

  lemma UnlockRecvEnds(s: State, t: Tid)
    requires t in s.threads && s.threads[t].pc.UnlockRecv? && InRange(s, s.threads[t].pc) && Sound(SharedOf(s))
    ensures var g := s.threads[t]; var obj := s.objs[g.pc.o];
      if obj.slot.None? then Section(s, t).None?
      else EndsIn(s, t, Shared(s.locks, s.objs[g.pc.o := obj.(slot := None)]), Goroutine(Client, g.held - {g.pc.k}))
  {
    if s.objs[s.threads[t].pc.o].slot.Some? {
      var s1 := Exec(s, t, Go).value;
      LeaveEnds(s1, t);
      var end := Goroutine(Client, s.threads[t].held - {s.threads[t].pc.k});
      assert s1.threads[t := end] == s.threads[t := end];
    }
  }

  lemma UnlockCountEnds(s: State, t: Tid)
    requires t in s.threads && s.threads[t].pc.UnlockCount? && InRange(s, s.threads[t].pc) && Sound(SharedOf(s))
    ensures var g := s.threads[t]; var obj := s.objs[g.pc.o];
      if obj.slot.None? then Section(s, t).None?
      else EndsIn(s, t, Shared(if obj.waiters == 0 then s.locks - {g.pc.k} else s.locks,
                               s.objs[g.pc.o := obj.(slot := None)]), Goroutine(Client, g.held - {g.pc.k}))
  {
    var s1 := Exec(s, t, Go).value;
    var s2 := if s1.threads[t].pc.UnlockDel? then ExecGo(s1, t).value else s1;
    UnlockRecvEnds(s2, t);
    var end := Goroutine(Client, s.threads[t].held - {s.threads[t].pc.k});
    assert s2.threads[t := end] == s.threads[t := end];
    assert Section(s1, t) == Section(s2, t);
  }

  /**
   Unlock, from the map lookup to the return: with a lock object whose channel is empty it never
   returns and never releases the mutex.
   */
  lemma UnlockIsSection(s: State, t: Tid)
    requires t in s.threads && s.threads[t].pc.UnlockGet? && Sound(SharedOf(s)) && s.threads[t].pc.k in s.locks
    ensures var g := s.threads[t]; var h := AfterUnlock(SharedOf(s), g.pc.k);
      if h.None? then Section(s, t).None? else EndsIn(s, t, h.value, Goroutine(Client, g.held - {g.pc.k}))
  {
    var s1 := Exec(s, t, Go).value;
    UnlockCountEnds(s1, t);
    var end := Goroutine(Client, s.threads[t].held - {s.threads[t].pc.k});
    assert s1.threads[t := end] == s.threads[t := end];
  }

  /** The object, with its fields updated in place as the code does. */
  class KeyedLocker {
    var locks: map<Key, Obj>
    var objs: seq<LockObj>

    ghost function View(): Shared
      reads this
    {
      Shared(locks, objs)
    }

    constructor ()
      ensures View() == Shared(map[], [])
    {
      locks, objs := map[], [];
    }

    method Register(k: Key) returns (o: Obj)
      requires Sound(View())
      modifies this
      ensures View() == AfterRegister(old(View()), k).0 && o == AfterRegister(old(View()), k).1
      ensures Sound(View())
    {
      if k in locks {
        o := locks[k];
      } else {
        o := |objs|;
        objs := objs + [LockObj(k, None, 0)];
        locks := locks[k := o];
      }
      objs := objs[o := objs[o].(waiters := objs[o].waiters + 1)];
    }

    method Cancel(k: Key, o: Obj)
      requires Sound(View()) && o < |objs|
      modifies this
      ensures View() == AfterCancel(old(View()), k, o) && Sound(View())
    {
      objs := objs[o := objs[o].(waiters := objs[o].waiters - 1)];
      if objs[o].waiters == 0 && objs[o].slot.None? {
        locks := locks - {k};
      }
    }

    /** `done` is false where the code panics or waits forever. */
    method Unlock(k: Key) returns (done: bool)
      requires Sound(View())
      modifies this
      ensures done == AfterUnlock(old(View()), k).Some? && Sound(View())
      ensures done ==> View() == AfterUnlock(old(View()), k).value
    {
      done := k in locks;
      if done {
        var o := locks[k];
        if objs[o].waiters == 0 {
          locks := locks - {k};
        }
        done := objs[o].slot.Some?;
        if done {
          objs := objs[o := objs[o].(slot := None)];
        }
      }
    }
  }
}
