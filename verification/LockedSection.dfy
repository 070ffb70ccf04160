/**
 Code between a successful Lock(key) and the deferred Unlock(key), for any key: at most one
 goroutine is ever in it.
 */
module LockedSection {
  import opened Base
  import opened Locker
  import opened LockerInvariant
  import opened LockerRuns

  /** A goroutine enters the section when its Lock has returned nil. */
  predicate MayEnter(key: Key, s: State, t: Tid) {
    Holds(s, t, key) && s.threads[t].pc.Client?
  }

  /** The locker moves; a goroutine leaves the section before it calls Unlock. */
  ghost predicate LockerMoves(key: Key, s: State, inside: set<Tid>, s': State) {
    exists t, c :: StepOf(s, t, c, s') && (c == CallUnlock(key) ==> t !in inside)
  }

  predicate Unlocking(pc: Pc, key: Key) {
    (pc.UnlockMu? || pc.UnlockGet? || pc.UnlockCount? || pc.UnlockDel? || pc.UnlockRecv?) && pc.k == key
  }

  predicate HoldersOnly(key: Key, s: State, inside: set<Tid>) {
    forall t | t in inside :: Holds(s, t, key) && !Unlocking(s.threads[t].pc, key)
  }

  lemma HoldersExclude(key: Key, s: State, inside: set<Tid>)
    requires Inv(s) && HoldersOnly(key, s, inside)
    ensures forall t, u | t in inside && u in inside :: t == u
  {
    forall t, u | t in inside && u in inside ensures t == u {
      OneHolder(s, t, u, key);
    }
  }

  lemma GoStartsNoUnlock(key: Key, s: State, t: Tid, s': State)
    requires t in s.threads && InRange(s, s.threads[t].pc) && ExecGo(s, t) == Some(s')
    requires !Unlocking(s.threads[t].pc, key)
    ensures t in s'.threads && !Unlocking(s'.threads[t].pc, key)
  {
  }

  lemma UnlockStartsWithCall(key: Key, s: State, t: Tid, c: Choice, s': State)
    requires StepOf(s, t, c, s') && !Unlocking(s.threads[t].pc, key) && c != CallUnlock(key)
    ensures t in s'.threads && !Unlocking(s'.threads[t].pc, key)
  {
    var pc := s.threads[t].pc;
    if !pc.Client? && !pc.Select? && !pc.LockCtx? { GoStartsNoUnlock(key, s, t, s'); }
  }

  lemma LockerMoveKeeps(key: Key, s: State, inside: set<Tid>, s': State)
    requires Inv(s) && HoldersOnly(key, s, inside) && LockerMoves(key, s, inside, s')
    ensures Inv(s') && HoldersOnly(key, s', inside)
  {
    var t, c :| StepOf(s, t, c, s') && (c == CallUnlock(key) ==> t !in inside);
    InvKept(s, t, c, s');
    HeldMoves(s, t, c, s');
    OthersStay(s, t, c, s');
    if t in inside { UnlockStartsWithCall(key, s, t, c, s'); }
  }

  lemma OthersStay(s: State, t: Tid, c: Choice, s': State)
    requires StepOf(s, t, c, s')
    ensures forall u | u in s.threads && u != t :: u in s'.threads && s'.threads[u] == s.threads[u]
  {
  }
}
