/** What every transition of the keyed lock keeps. */
module LockerInvariant {
  import opened Base
  import opened Locker

  predicate HoldsMu(pc: Pc) {
    pc.LockCtx? || pc.LockGet? || pc.LockInc? || pc.LockRel? ||
    pc.CancelDec? || pc.CancelLen? || pc.CancelDel? ||
    pc.UnlockGet? || pc.UnlockCount? || pc.UnlockDel? || pc.UnlockRecv? || pc.Leave?
  }

  /** Registered with object `o`: after its increment, before its decrement. */
  predicate Waits(pc: Pc, o: Obj) {
    (pc.LockRel? || pc.Select? || pc.Sent? || pc.CancelMu? || pc.CancelDec?) && pc.o == o
  }

  function Waiters(s: State, o: Obj): set<Tid> {
    set t | t in s.threads && Waits(s.threads[t].pc, o)
  }

  /** Goroutine `g` has sent into object `o` for key `k` and not yet received. */
  predicate Occupies(g: Goroutine, k: Key, o: Obj) {
    g.pc == Sent(k, o) || (k in g.held && g.held[k] == o)
  }

  /** Object `o` is the one the map holds for key `k`. */
  predicate Mapped(s: State, k: Key, o: Obj) {
    k in s.locks && s.locks[k] == o && o < |s.objs|
  }

  predicate PcOk(s: State, t: Tid, g: Goroutine) {
    match g.pc
    case LockInc(k, o) => Mapped(s, k, o)
    case LockRel(k, o) => Mapped(s, k, o)
    case Select(k, o) => Mapped(s, k, o)
    case Sent(k, o) => Mapped(s, k, o) && s.objs[o].slot == Some(t) && k !in g.held
    case CancelMu(k, o) => Mapped(s, k, o)
    case CancelDec(k, o) => Mapped(s, k, o)
    case CancelLen(k, o) => Mapped(s, k, o) && s.objs[o].waiters == 0
    case CancelDel(k, o) => Mapped(s, k, o) && s.objs[o].waiters == 0 && s.objs[o].slot.None?
    case UnlockMu(k) => k in g.held
    case UnlockGet(k) => k in g.held
    case UnlockCount(k, o) => k in g.held && g.held[k] == o && Mapped(s, k, o)
    case UnlockDel(k, o) => k in g.held && g.held[k] == o && Mapped(s, k, o) && s.objs[o].waiters == 0
    case UnlockRecv(k, o) =>
      k in g.held && g.held[k] == o && o < |s.objs| &&
      if k in s.locks then s.locks[k] == o && s.objs[o].waiters != 0 else s.objs[o].waiters == 0
    case Panicked => false
    case _ => true
  }

  /** A held key's object carries this goroutine's token and, outside the last act of Unlock, is mapped. */
  predicate HeldOk(s: State, t: Tid, g: Goroutine) {
    forall k | k in g.held ::
      g.held[k] < |s.objs| && s.objs[g.held[k]].slot == Some(t) && s.objs[g.held[k]].key == k &&
      (g.pc != UnlockRecv(k, g.held[k]) ==> Mapped(s, k, g.held[k]))
  }

  predicate MuOk(s: State) {
    && (forall t | t in s.threads :: HoldsMu(s.threads[t].pc) ==> s.mu == Some(t))
    && (s.mu.Some? ==> s.mu.value in s.threads && HoldsMu(s.threads[s.mu.value].pc))
  }

  predicate ThreadsOk(s: State) {
    forall t | t in s.threads :: PcOk(s, t, s.threads[t]) && HeldOk(s, t, s.threads[t])
  }

  predicate CountsOk(s: State) {
    forall o | 0 <= o < |s.objs| :: s.objs[o].waiters == |Waiters(s, o)|
  }

  predicate SlotsOk(s: State) {
    forall o | 0 <= o < |s.objs| && s.objs[o].slot.Some? ::
      s.objs[o].slot.value in s.threads && Occupies(s.threads[s.objs[o].slot.value], s.objs[o].key, o)
  }

  /** An entry nobody occupies or waits for exists only while the mutex holder is about to fix that. */
  predicate Transient(s: State, k: Key, o: Obj) {
    s.mu.Some? && s.mu.value in s.threads &&
    s.threads[s.mu.value].pc in {LockInc(k, o), CancelLen(k, o), CancelDel(k, o)}
  }

  predicate KeysOk(s: State) {
    forall k | k in s.locks :: s.locks[k] < |s.objs| && s.objs[s.locks[k]].key == k
  }

  predicate Needed(s: State, k: Key)
    requires k in s.locks && s.locks[k] < |s.objs|
  {
    s.objs[s.locks[k]].slot.Some? || s.objs[s.locks[k]].waiters > 0 || Transient(s, k, s.locks[k])
  }

  predicate MapOk(s: State) {
    KeysOk(s) && forall k | k in s.locks :: Needed(s, k)
  }

  predicate Inv(s: State) {
    MuOk(s) && ThreadsOk(s) && CountsOk(s) && SlotsOk(s) && MapOk(s)
  }

  ghost predicate StepOf(s: State, t: Tid, c: Choice, s': State) {
    t in s.threads && InRange(s, s.threads[t].pc) && Exec(s, t, c) == Some(s')
  }

  // ---- the waiter counters ----

  function One(b: bool): int { if b then 1 else 0 }

  lemma WaitersMove(s: State, t: Tid, s': State, o: Obj)
    requires t in s.threads && t in s'.threads && s'.threads == s.threads[t := s'.threads[t]]
    ensures |Waiters(s', o)| - One(Waits(s'.threads[t].pc, o)) == |Waiters(s, o)| - One(Waits(s.threads[t].pc, o))
  {
    var before, after := Waiters(s, o), Waiters(s', o);
    var rest := before - {t};
    assert after - {t} == rest;
    assert |before| == |rest| + One(t in before);
    assert |after| == |rest| + One(t in after);
  }

  lemma NoneWaitsBeyond(s: State, o: Obj)
    requires ThreadsOk(s) && o >= |s.objs|
    ensures Waiters(s, o) == {}
  {
    forall u | u in s.threads ensures !Waits(s.threads[u].pc, o) {
      assert PcOk(s, u, s.threads[u]);
    }
  }

  /** The counter of each object moves with the registration of the goroutine that steps. */
  ghost predicate CountersFollow(s: State, t: Tid, s': State) {
    && t in s.threads && t in s'.threads && s'.threads == s.threads[t := s'.threads[t]]
    && |s.objs| <= |s'.objs|
    && (forall o | 0 <= o < |s.objs| ::
          s'.objs[o].waiters - One(Waits(s'.threads[t].pc, o)) == s.objs[o].waiters - One(Waits(s.threads[t].pc, o)))
    && (forall o | |s.objs| <= o < |s'.objs| ::
          s'.objs[o].waiters == 0 && s'.objs[o].slot.None? && !Waits(s'.threads[t].pc, o))
  }

  lemma CountsKept(s: State, t: Tid, s': State)
    requires ThreadsOk(s) && CountsOk(s) && CountersFollow(s, t, s')
    ensures CountsOk(s')
  {
    forall o | 0 <= o < |s'.objs| ensures s'.objs[o].waiters == |Waiters(s', o)| {
      WaitersMove(s, t, s', o);
      if o >= |s.objs| { NoneWaitsBeyond(s, o); }
    }
  }

  // ---- what a transition of `t` leaves to the other goroutines ----

  ghost predicate Guarantee(s: State, t: Tid, s': State)
    requires t in s.threads
  {
    && |s.objs| <= |s'.objs|
    && (s.mu == Some(t) || s'.locks == s.locks)
    && (forall k | k in s.locks && s.locks[k] < |s.objs| ::
          (k in s'.locks && s'.locks[k] == s.locks[k]) ||
          (k !in s'.locks && s.objs[s.locks[k]].waiters == 0 && s.objs[s.locks[k]].slot in {None, Some(t)}))
    && (forall o | 0 <= o < |s.objs| ::
          s'.objs[o].key == s.objs[o].key && SlotMove(s, t, s', o) &&
          (s'.objs[o].waiters == s.objs[o].waiters || s.mu == Some(t) ||
           (s.objs[o].slot == Some(t) && Waits(s.threads[t].pc, o))))
  }

  predicate SlotMove(s: State, t: Tid, s': State, o: Obj)
    requires t in s.threads && o < |s.objs| <= |s'.objs|
  {
    || s'.objs[o].slot == s.objs[o].slot
    || (s.objs[o].slot.None? && s'.objs[o].slot == Some(t) && Waits(s.threads[t].pc, o))
    || (s.objs[o].slot == Some(t) && s'.objs[o].slot.None? && s.mu == Some(t))
  }

  lemma WaiterCounts(s: State, u: Tid, o: Obj)
    requires CountsOk(s) && u in s.threads && o < |s.objs| && Waits(s.threads[u].pc, o)
    ensures s.objs[o].waiters > 0
  {
    assert u in Waiters(s, o);
  }

  lemma OthersKept(s: State, t: Tid, s': State, u: Tid)
    requires Inv(s) && CountersFollow(s, t, s') && Guarantee(s, t, s')
    requires u in s.threads && u != t
    ensures PcOk(s', u, s.threads[u]) && HeldOk(s', u, s.threads[u])
  {
    var g := s.threads[u];
    assert PcOk(s, u, g) && HeldOk(s, u, g);
    assert HoldsMu(g.pc) ==> s.mu == Some(u);
    forall o | 0 <= o < |s.objs| ensures Waits(g.pc, o) || Waits(s.threads[t].pc, o) ==> s.objs[o].waiters > 0 {
      if Waits(g.pc, o) { WaiterCounts(s, u, o); }
      if Waits(s.threads[t].pc, o) { WaiterCounts(s, t, o); }
    }
  }

  /** The token of `t` stays where `t` occupies, fresh objects are empty. */
  predicate OwnSlots(s: State, t: Tid) {
    t in s.threads && forall o | 0 <= o < |s.objs| && s.objs[o].slot == Some(t) ::
      Occupies(s.threads[t], s.objs[o].key, o)
  }

  ghost predicate MuMoves(s: State, t: Tid, s': State) {
    && t in s'.threads
    && (HoldsMu(s'.threads[t].pc) ==> s'.mu == Some(t))
    && (s'.mu == s.mu || (s.mu.None? && s'.mu == Some(t)) || (s.mu == Some(t) && s'.mu.None?))
    && (s'.mu == Some(t) ==> HoldsMu(s'.threads[t].pc))
  }

  predicate CountersPositive(s: State, t: Tid) {
    && (forall o | 0 <= o < |s.objs| :: s.objs[o].waiters >= 0)
    && t in s.threads
    && (s.threads[t].pc.CancelDec? && s.threads[t].pc.o < |s.objs| ==> s.objs[s.threads[t].pc.o].waiters > 0)
  }

  /** What a transition of `t` leaves to everybody. */
  ghost predicate KeptForAll(s: State, t: Tid, s': State) {
    t in s.threads && CountersFollow(s, t, s') && Guarantee(s, t, s') && MuMoves(s, t, s')
  }

  /** What a transition of `t` leaves to `t`. */
  ghost predicate KeptForSelf(t: Tid, s': State) {
    t in s'.threads && OwnSlots(s', t) && PcOk(s', t, s'.threads[t]) && HeldOk(s', t, s'.threads[t]) && MapOk(s')
  }

  ghost predicate Kept(s: State, t: Tid, s': State) {
    KeptForAll(s, t, s') && KeptForSelf(t, s')
  }

  /** What `t` alone can tell before its transition. */
  ghost predicate Ready(s: State, t: Tid) {
    && t in s.threads && PcOk(s, t, s.threads[t]) && HeldOk(s, t, s.threads[t])
    && (HoldsMu(s.threads[t].pc) <==> s.mu == Some(t))
    && MapOk(s) && CountersPositive(s, t) && OwnSlots(s, t)
  }

  // ---- transitions that touch nothing but the mutex and the program counter ----

  /** From `g.pc` to `q` without sending, receiving, registering or deregistering. */
  predicate QuietMove(s: State, g: Goroutine, q: Pc)
    requires InRange(s, g.pc)
  {
    match g.pc
    case Client => q.LockMu? || (q.UnlockMu? && q.k in g.held)
    case LockMu(k) => q == LockCtx(k)
    case LockCtx(k) => q == LockGet(k) || q == Leave
    case LockGet(k) => k in s.locks && q == LockInc(k, s.locks[k])
    case LockRel(k, o) => q == Select(k, o)
    case Select(k, o) => q == CancelMu(k, o)
    case CancelMu(k, o) => q == CancelDec(k, o)
    case CancelLen(k, o) => if s.objs[o].slot.None? then q == CancelDel(k, o) else q == Leave
    case UnlockMu(k) => q == UnlockGet(k)
    case UnlockGet(k) => k in s.locks && q == UnlockCount(k, s.locks[k])
    case UnlockCount(k, o) => if s.objs[o].waiters == 0 then q == UnlockDel(k, o) else q == UnlockRecv(k, o)
    case Leave => q == Client
    case _ => false
  }

  ghost predicate Quiet(s: State, t: Tid, s': State) {
    && t in s.threads && t in s'.threads && InRange(s, s.threads[t].pc)
    && s' == Goto(s.(mu := s'.mu), t, s'.threads[t].pc)
    && QuietMove(s, s.threads[t], s'.threads[t].pc)
    && (if HoldsMu(s'.threads[t].pc) then s'.mu == Some(t) && s.mu in {None, Some(t)}
        else s'.mu == if HoldsMu(s.threads[t].pc) then None else s.mu)
  }

  lemma StepIsQuietOrTouches(s: State, t: Tid, c: Choice, s': State)
    requires Ready(s, t) && StepOf(s, t, c, s')
    ensures Quiet(s, t, s') || Touches(s, t, c)
  {
  }

  /** The transitions that change the map or a lock object. */
  predicate Touches(s: State, t: Tid, c: Choice)
    requires t in s.threads
  {
    match s.threads[t].pc
    case LockGet(k) => k !in s.locks
    case LockInc(_, _) => true
    case Select(_, _) => c.Go?
    case Sent(_, _) => true
    case CancelDec(_, _) => true
    case CancelDel(_, _) => true
    case UnlockDel(_, _) => true
    case UnlockRecv(_, _) => true
    case _ => false
  }

  lemma QuietKeepsForAll(s: State, t: Tid, s': State)
    requires Ready(s, t) && Quiet(s, t, s')
    ensures KeptForAll(s, t, s')
  {
  }

  lemma QuietKeepsForSelf(s: State, t: Tid, s': State)
    requires Ready(s, t) && Quiet(s, t, s')
    ensures KeptForSelf(t, s')
  {
    QuietKeepsMap(s, t, s');
  }

  lemma QuietKeepsMap(s: State, t: Tid, s': State)
    requires Ready(s, t) && Quiet(s, t, s')
    ensures MapOk(s')
  {
  }

  lemma AllocKeepsForAll(s: State, t: Tid, c: Choice, s': State)
    requires Ready(s, t) && StepOf(s, t, c, s') && s.threads[t].pc.LockGet? && Touches(s, t, c)
    ensures KeptForAll(s, t, s')
  {
  }

  lemma AllocKeepsForSelf(s: State, t: Tid, c: Choice, s': State)
    requires Ready(s, t) && StepOf(s, t, c, s') && s.threads[t].pc.LockGet? && Touches(s, t, c)
    ensures KeptForSelf(t, s')
  {
  }

  lemma IncKeepsForAll(s: State, t: Tid, c: Choice, s': State)
    requires Ready(s, t) && StepOf(s, t, c, s') && s.threads[t].pc.LockInc?
    ensures KeptForAll(s, t, s')
  {
  }

  lemma IncKeepsForSelf(s: State, t: Tid, c: Choice, s': State)
    requires Ready(s, t) && StepOf(s, t, c, s') && s.threads[t].pc.LockInc?
    ensures KeptForSelf(t, s')
  {
  }

  lemma SendKeepsForAll(s: State, t: Tid, c: Choice, s': State)
    requires Ready(s, t) && StepOf(s, t, c, s') && s.threads[t].pc.Select? && Touches(s, t, c)
    ensures KeptForAll(s, t, s')
  {
  }

  lemma SendKeepsForSelf(s: State, t: Tid, c: Choice, s': State)
    requires Ready(s, t) && StepOf(s, t, c, s') && s.threads[t].pc.Select? && Touches(s, t, c)
    ensures KeptForSelf(t, s')
  {
  }

  lemma AcquireKeepsForAll(s: State, t: Tid, c: Choice, s': State)
    requires Ready(s, t) && StepOf(s, t, c, s') && s.threads[t].pc.Sent?
    ensures KeptForAll(s, t, s')
  {
  }

  lemma AcquireKeepsForSelf(s: State, t: Tid, c: Choice, s': State)
    requires Ready(s, t) && StepOf(s, t, c, s') && s.threads[t].pc.Sent?
    ensures KeptForSelf(t, s')
  {
  }

  lemma CancelDecKeepsForAll(s: State, t: Tid, c: Choice, s': State)
    requires Ready(s, t) && StepOf(s, t, c, s') && s.threads[t].pc.CancelDec?
    ensures KeptForAll(s, t, s')
  {
  }

  lemma CancelDecKeepsForSelf(s: State, t: Tid, c: Choice, s': State)
    requires Ready(s, t) && StepOf(s, t, c, s') && s.threads[t].pc.CancelDec?
    ensures KeptForSelf(t, s')
  {
  }

  lemma CancelDelKeepsForAll(s: State, t: Tid, c: Choice, s': State)
    requires Ready(s, t) && StepOf(s, t, c, s') && s.threads[t].pc.CancelDel?
    ensures KeptForAll(s, t, s')
  {
  }

  lemma CancelDelKeepsForSelf(s: State, t: Tid, c: Choice, s': State)
    requires Ready(s, t) && StepOf(s, t, c, s') && s.threads[t].pc.CancelDel?
    ensures KeptForSelf(t, s')
  {
  }

  lemma UnlockDelKeepsForAll(s: State, t: Tid, c: Choice, s': State)
    requires Ready(s, t) && StepOf(s, t, c, s') && s.threads[t].pc.UnlockDel?
    ensures KeptForAll(s, t, s')
  {
  }

  lemma UnlockDelKeepsForSelf(s: State, t: Tid, c: Choice, s': State)
    requires Ready(s, t) && StepOf(s, t, c, s') && s.threads[t].pc.UnlockDel?
    ensures KeptForSelf(t, s')
  {
  }

  lemma RecvKeepsForAll(s: State, t: Tid, c: Choice, s': State)
    requires Ready(s, t) && StepOf(s, t, c, s') && s.threads[t].pc.UnlockRecv?
    ensures KeptForAll(s, t, s')
  {
  }

  lemma RecvKeepsForSelf(s: State, t: Tid, c: Choice, s': State)
    requires Ready(s, t) && StepOf(s, t, c, s') && s.threads[t].pc.UnlockRecv?
    ensures KeptForSelf(t, s')
  {
  }

  // ---- all transitions, all runs ----

  lemma StepKeeps(s: State, t: Tid, c: Choice, s': State)
    requires Ready(s, t) && StepOf(s, t, c, s')
    ensures Kept(s, t, s')
  {
    StepIsQuietOrTouches(s, t, c, s');
    if Quiet(s, t, s') {
      QuietKeepsForAll(s, t, s');
      QuietKeepsForSelf(s, t, s');
    } else {
      match s.threads[t].pc
      case LockGet(_) =>
        AllocKeepsForAll(s, t, c, s');
        AllocKeepsForSelf(s, t, c, s');
      case LockInc(_, _) =>
        IncKeepsForAll(s, t, c, s');
        IncKeepsForSelf(s, t, c, s');
      case Select(_, _) =>
        SendKeepsForAll(s, t, c, s');
        SendKeepsForSelf(s, t, c, s');
      case Sent(_, _) =>
        AcquireKeepsForAll(s, t, c, s');
        AcquireKeepsForSelf(s, t, c, s');
      case CancelDec(_, _) =>
        CancelDecKeepsForAll(s, t, c, s');
        CancelDecKeepsForSelf(s, t, c, s');
      case CancelDel(_, _) =>
        CancelDelKeepsForAll(s, t, c, s');
        CancelDelKeepsForSelf(s, t, c, s');
      case UnlockDel(_, _) =>
        UnlockDelKeepsForAll(s, t, c, s');
        UnlockDelKeepsForSelf(s, t, c, s');
      case UnlockRecv(_, _) =>
        RecvKeepsForAll(s, t, c, s');
        RecvKeepsForSelf(s, t, c, s');
    }
  }

  lemma InvIsReady(s: State, t: Tid)
    requires Inv(s) && t in s.threads
    ensures Ready(s, t)
  {
    var g := s.threads[t];
    assert PcOk(s, t, g) && HeldOk(s, t, g);
    if g.pc.CancelDec? { WaiterCounts(s, t, g.pc.o); }
  }

  lemma InvFollows(s: State, t: Tid, s': State)
    requires Inv(s) && Kept(s, t, s')
    ensures Inv(s')
  {
    CountsKept(s, t, s');
    forall u | u in s'.threads ensures PcOk(s', u, s'.threads[u]) && HeldOk(s', u, s'.threads[u]) {
      if u != t { OthersKept(s, t, s', u); }
    }
    SlotsKept(s, t, s');
  }

  lemma SlotsKept(s: State, t: Tid, s': State)
    requires Inv(s) && Kept(s, t, s')
    ensures SlotsOk(s')
  {
    forall o | 0 <= o < |s'.objs| && s'.objs[o].slot.Some?
      ensures s'.objs[o].slot.value in s'.threads
      ensures Occupies(s'.threads[s'.objs[o].slot.value], s'.objs[o].key, o)
    {
      if o < |s.objs| { assert SlotMove(s, t, s', o); }
    }
  }

  /** The invariant is kept by every transition of every goroutine. */
  lemma InvKept(s: State, t: Tid, c: Choice, s': State)
    requires Inv(s) && StepOf(s, t, c, s')
    ensures Inv(s')
  {
    InvIsReady(s, t);
    StepKeeps(s, t, c, s');
    InvFollows(s, t, s');
  }
}
