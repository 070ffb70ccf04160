/**
 The keyed, cancellable lock of internal/util/locker/locker.go as a transition system.

 Any number of goroutines run `Lock` and `Unlock` on any number of keys.  One transition is one
 indivisible action of the Go program: taking or releasing the internal mutex, one map access, one
 atomic counter operation, one channel operation, or one call.  Everything between two such actions
 may be interleaved with actions of other goroutines, including inside a section that holds the
 mutex, because channel sends and the decrement after a successful send happen outside of it.
 A context may be done at every point at which the code looks at it.
 */
module Locker {
  import opened Base

  type Key = string
  type Tid = nat
  /** A `lockWithCounter` is identified by its position in allocation order. */
  type Obj = nat

  /**
   A `lockWithCounter`.  `slot` is the one-element channel; the token in it is labelled with its
   sender.  The label, and the key the object was allocated for, are history: no transition
   branches on either of them.
   */
  datatype LockObj = LockObj(key: Key, slot: Option<Tid>, waiters: int)

  /** The next action of a goroutine. */
  datatype Pc =
    | Client                         // neither in Lock nor in Unlock
    | LockMu(k: Key)                 // Lock: take the mutex
    | LockCtx(k: Key)                // Lock: look at ctx.Err()
    | LockGet(k: Key)                // Lock: find or allocate the lock object
    | LockInc(k: Key, o: Obj)        // Lock: register as a waiter
    | LockRel(k: Key, o: Obj)        // Lock: release the mutex
    | Select(k: Key, o: Obj)         // Lock: send or give up
    | Sent(k: Key, o: Obj)           // Lock: sent, decrement still to come
    | CancelMu(k: Key, o: Obj)       // Lock: gave up, take the mutex
    | CancelDec(k: Key, o: Obj)      // Lock: gave up, decrement and compare with zero
    | CancelLen(k: Key, o: Obj)      // Lock: gave up, look at len(ch)
    | CancelDel(k: Key, o: Obj)      // Lock: gave up, delete the map entry
    | UnlockMu(k: Key)               // Unlock: take the mutex
    | UnlockGet(k: Key)              // Unlock: find the lock object
    | UnlockCount(k: Key, o: Obj)    // Unlock: look at the waiter counter
    | UnlockDel(k: Key, o: Obj)      // Unlock: delete the map entry
    | UnlockRecv(k: Key, o: Obj)     // Unlock: receive from the channel
    | Leave                          // release the mutex and return
    | Panicked                       // Unlock found no lock object

  /** `held` records, per key between a successful Lock and its Unlock, the object sent to. */
  datatype Goroutine = Goroutine(pc: Pc, held: map<Key, Obj>)

  datatype State = State(
    mu: Option<Tid>,
    locks: map<Key, Obj>,
    objs: seq<LockObj>,
    threads: map<Tid, Goroutine>)

  /** What a transition is told from outside: a call, that the context is done, or nothing. */
  datatype Choice = CallLock(k: Key) | CallUnlock(k: Key) | Go | CtxDone

  function Goto(s: State, t: Tid, pc: Pc): State
    requires t in s.threads
  {
    s.(threads := s.threads[t := s.threads[t].(pc := pc)])
  }

  function TakeMu(s: State, t: Tid, pc: Pc): Option<State>
    requires t in s.threads
  {
    if s.mu.None? then Some(Goto(s.(mu := Some(t)), t, pc)) else None
  }

  function SetObj(s: State, o: Obj, obj: LockObj): State
    requires o < |s.objs|
  {
    s.(objs := s.objs[o := obj])
  }

  predicate InRange(s: State, pc: Pc) {
    match pc
    case LockInc(_, o) => o < |s.objs|
    case LockRel(_, o) => o < |s.objs|
    case Select(_, o) => o < |s.objs|
    case Sent(_, o) => o < |s.objs|
    case CancelMu(_, o) => o < |s.objs|
    case CancelDec(_, o) => o < |s.objs|
    case CancelLen(_, o) => o < |s.objs|
    case CancelDel(_, o) => o < |s.objs|
    case UnlockCount(_, o) => o < |s.objs|
    case UnlockDel(_, o) => o < |s.objs|
    case UnlockRecv(_, o) => o < |s.objs|
    case _ => true
  }

  /** The transition of goroutine `t`, or None when it is not enabled. */
  function Exec(s: State, t: Tid, c: Choice): Option<State>
    requires t in s.threads && InRange(s, s.threads[t].pc)
  {
    var g := s.threads[t];
    match g.pc
    case Client => (
      match c
      case CallLock(k) => Some(Goto(s, t, LockMu(k)))
      case CallUnlock(k) => if k in g.held then Some(Goto(s, t, UnlockMu(k))) else None
      case _ => None)
    case Select(k, o) =>
      if c.CtxDone? then Some(Goto(s, t, CancelMu(k, o)))
      else if c.Go? && s.objs[o].slot.None? then
        Some(Goto(SetObj(s, o, s.objs[o].(slot := Some(t))), t, Sent(k, o)))
      else None
    case LockCtx(k) =>
      if c.CtxDone? then Some(Goto(s, t, Leave))
      else if c.Go? then Some(Goto(s, t, LockGet(k)))
      else None
    case _ => if c.Go? then ExecGo(s, t) else None
  }

  /** The transitions that are told nothing. */
  function ExecGo(s: State, t: Tid): Option<State>
    requires t in s.threads && InRange(s, s.threads[t].pc)
  {
    var g := s.threads[t];
    match g.pc
    case LockMu(k) => TakeMu(s, t, LockCtx(k))
    case LockGet(k) =>
      if k in s.locks then Some(Goto(s, t, LockInc(k, s.locks[k])))
      else
        var s1 := s.(objs := s.objs + [LockObj(k, None, 0)], locks := s.locks[k := |s.objs|]);
        Some(Goto(s1, t, LockInc(k, |s.objs|)))
    case LockInc(k, o) =>
      Some(Goto(SetObj(s, o, s.objs[o].(waiters := s.objs[o].waiters + 1)), t, LockRel(k, o)))
    case LockRel(k, o) => Some(Goto(s.(mu := None), t, Select(k, o)))
    case Sent(k, o) =>
      var s1 := SetObj(s, o, s.objs[o].(waiters := s.objs[o].waiters - 1));
      Some(s1.(threads := s.threads[t := Goroutine(Client, g.held[k := o])]))
    case CancelMu(k, o) => TakeMu(s, t, CancelDec(k, o))
    case CancelDec(k, o) =>
      var n := s.objs[o].waiters - 1;
      Some(Goto(SetObj(s, o, s.objs[o].(waiters := n)), t, if n == 0 then CancelLen(k, o) else Leave))
    case CancelLen(k, o) => Some(Goto(s, t, if s.objs[o].slot.None? then CancelDel(k, o) else Leave))
    case CancelDel(k, o) => Some(Goto(s.(locks := s.locks - {k}), t, Leave))
    case UnlockMu(k) => TakeMu(s, t, UnlockGet(k))
    case UnlockGet(k) =>
      if k in s.locks then Some(Goto(s, t, UnlockCount(k, s.locks[k])))
      else Some(Goto(s.(mu := None), t, Panicked))
    case UnlockCount(k, o) =>
      Some(Goto(s, t, if s.objs[o].waiters == 0 then UnlockDel(k, o) else UnlockRecv(k, o)))
    case UnlockDel(k, o) => Some(Goto(s.(locks := s.locks - {k}), t, UnlockRecv(k, o)))
    case UnlockRecv(k, o) =>
      if s.objs[o].slot.None? then None
      else
        var s1 := SetObj(s, o, s.objs[o].(slot := None));
        Some(s1.(threads := s.threads[t := Goroutine(Leave, g.held - {k})]))
    case Leave => Some(Goto(s.(mu := None), t, Client))
    case _ => None
  }
}
