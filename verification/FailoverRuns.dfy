/**
 Concurrent edits of one LAN's failover group: each reads the LAN, checks that no patch is pending,
 edits the list, sends it as a patch and waits for it, all under the LAN lock.

 A wait may be given up (its context is done), and then the lock is released with the patch still
 in flight.  The next edit may find that patch landed, find it pending and leave, or read the LAN
 just before it lands and check just after.  Only in the last case can an update be lost.
 */
module FailoverRuns {
  import opened Base
  import opened Failover
  import L = Locker
  import LI = LockerInvariant
  import LR = LockerRuns
  import LO = LockOrder
  import LS = LockedSection

  type Tid = nat

  /** An edit and its place in the order in which the lock was acquired. */
  datatype Edit = Edit(ticket: nat, op: Op)

  datatype Pc =
    | Begin(edit: Edit)                          // retrieveLANFailoverConfig: read the LAN
    | HasRead(edit: Edit, base: seq<Entry>)      // isLANPatchPending
    | Ready(edit: Edit, base: seq<Entry>)        // edit the list and patch, or do nothing
    | Waiting(edit: Edit)                        // WaitForRequest

  /** A patch replaces the whole list when it lands. */
  datatype Patch = Patch(edit: Edit, list: seq<Entry>)

  /** `done` are the edits that took effect, in the order in which they did. */
  datatype Group = Group(lan: seq<Entry>, inFlight: seq<Patch>, active: map<Tid, Pc>, tickets: nat, done: seq<Edit>)

  datatype Event =
    | Enter(t: Tid, op: Op)
    | Read(t: Tid)
    | Check(t: Tid)
    | Decide(t: Tid)
    | Exit(t: Tid)         // finished, an error, or the wait was given up
    | Land                 // the oldest patch in flight is carried out
    | Reject               // the oldest patch in flight fails

  predicate Enabled(g: Group, e: Event) {
    match e
    case Enter(t, _) => t !in g.active
    case Read(t) => t in g.active && g.active[t].Begin?
    case Check(t) => t in g.active && g.active[t].HasRead?
    case Decide(t) => t in g.active && g.active[t].Ready?
    case Exit(t) => t in g.active
    case Land => g.inFlight != []
    case Reject => g.inFlight != []
  }

  function Goto(g: Group, t: Tid, pc: Pc): Group { g.(active := g.active[t := pc]) }

  function Leave(g: Group, t: Tid): Group { g.(active := g.active - {t}) }

  function Apply(g: Group, e: Event): Group
    requires Enabled(g, e)
  {
    match e
    case Enter(t, op) => Goto(g, t, Begin(Edit(g.tickets, op))).(tickets := g.tickets + 1)
    case Read(t) => Goto(g, t, HasRead(g.active[t].edit, g.lan))
    case Check(t) =>
      if g.inFlight != [] then Leave(g, t) else Goto(g, t, Ready(g.active[t].edit, g.active[t].base))
    case Decide(t) =>
      var edit, base := g.active[t].edit, g.active[t].base;
      if Patches(edit.op, base)
      then Goto(g.(inFlight := g.inFlight + [Patch(edit, Effect(edit.op, base))]), t, Waiting(edit))
      else Leave(g, t).(done := g.done + [edit])
    case Exit(t) => Leave(g, t)
    case Land => g.(lan := g.inFlight[0].list, inFlight := g.inFlight[1..], done := g.done + [g.inFlight[0].edit])
    case Reject => g.(inFlight := g.inFlight[1..])
  }

  predicate Exclusive(g: Group) {
    forall t, u | t in g.active && u in g.active :: t == u
  }

  function Ops(edits: seq<Edit>): seq<Op> {
    seq(|edits|, i requires 0 <= i < |edits| => edits[i].op)
  }

  // ---- patches that land between a read and the check after it ----

  /** The list after an edit that was decided on `base` while the LAN has `now`. */
  function Decided(op: Op, base: seq<Entry>, now: seq<Entry>): seq<Entry> {
    if Patches(op, base) then Effect(op, base) else now
  }

  /** Deciding on what was read is as good as deciding on what there is. */
  predicate StillGood(op: Op, base: seq<Entry>, now: seq<Entry>) {
    Decided(op, base, now) == Effect(op, now)
  }

  /** Somebody has read the LAN and not yet checked for a pending patch. */
  ghost predicate Between(g: Group) {
    exists t :: t in g.active && g.active[t].HasRead?
  }

  /** A patch that lands between a read and its check does not matter to the edit that has read. */
  predicate Harmless(g: Group, e: Event)
    requires Enabled(g, e)
  {
    e.Land? ==> forall t | t in g.active && g.active[t].HasRead? ::
      StillGood(g.active[t].edit.op, g.active[t].base, g.inFlight[0].list)
  }

  // ---- what runs of harmless events keep ----

  /** Nobody is behind: the list is what the finished edits make of it, one after the other. */
  predicate Settled(start: seq<Entry>, g: Group) {
    g.lan == Serial(start, Ops(g.done))
  }

  predicate FlightOk(g: Group) {
    |g.inFlight| <= 1 && forall p | p in g.inFlight :: p.list == Effect(p.edit.op, g.lan) && p.edit.ticket < g.tickets
  }

  /** Finished edits and patches in flight are from before ticket `n`. */
  predicate AllBefore(g: Group, n: nat) {
    && (forall i | 0 <= i < |g.done| :: g.done[i].ticket < n)
    && (forall p | p in g.inFlight :: p.edit.ticket < n)
  }

  predicate PcOk(g: Group, pc: Pc) {
    && pc.edit.ticket < g.tickets
    && (!pc.Waiting? ==> AllBefore(g, pc.edit.ticket))
    && (pc.Ready? ==> g.inFlight == [])
    && (pc.HasRead? && g.inFlight != [] ==> pc.base == g.lan)
    && (pc.HasRead? || pc.Ready? ==> StillGood(pc.edit.op, pc.base, g.lan))
  }

  /** Finished edits are in the order of lock acquisition. */
  predicate OrderOk(g: Group) {
    && AllBefore(g, g.tickets)
    && (forall i, j | 0 <= i < j < |g.done| :: g.done[i].ticket < g.done[j].ticket)
    && (forall p, i | p in g.inFlight && 0 <= i < |g.done| :: g.done[i].ticket < p.edit.ticket)
  }

  predicate Inv(start: seq<Entry>, g: Group) {
    Settled(start, g) && FlightOk(g) && OrderOk(g) && forall t | t in g.active :: PcOk(g, g.active[t])
  }

  lemma SettledExtends(start: seq<Entry>, done: seq<Edit>, edit: Edit)
    ensures Serial(start, Ops(done + [edit])) == Effect(edit.op, Serial(start, Ops(done)))
  {
    var ops := Ops(done + [edit]);
    assert ops[..|ops| - 1] == Ops(done);
  }

  lemma LandKeepsPc(start: seq<Entry>, g: Group, t: Tid)
    requires Inv(start, g) && Enabled(g, Land) && Harmless(g, Land) && t in g.active
    ensures PcOk(Apply(g, Land), g.active[t])
  {
    assert PcOk(g, g.active[t]) && g.inFlight[0] in g.inFlight && g.inFlight[1..] == [];
  }

  lemma LandKeeps(start: seq<Entry>, g: Group)
    requires Inv(start, g) && Enabled(g, Land) && Harmless(g, Land)
    ensures Inv(start, Apply(g, Land))
  {
    SettledExtends(start, g.done, g.inFlight[0].edit);
    assert Apply(g, Land).inFlight == [] && g.inFlight[0] in g.inFlight;
    forall t | t in g.active ensures PcOk(Apply(g, Land), g.active[t]) { LandKeepsPc(start, g, t); }
  }

  lemma RejectKeeps(start: seq<Entry>, g: Group)
    requires Inv(start, g) && Enabled(g, Reject)
    ensures Inv(start, Apply(g, Reject))
  {
    var g' := Apply(g, Reject);
    assert g'.inFlight == [];
    forall t | t in g.active ensures PcOk(g', g.active[t]) { assert PcOk(g, g.active[t]); }
  }

  /** The only reconcile in its section sends its edit of the list. */
  lemma SendKeeps(start: seq<Entry>, g: Group, t: Tid, p: Patch)
    requires Inv(start, g) && Exclusive(g) && t in g.active && g.active[t].Ready? && g.active[t].edit == p.edit
    requires p.list == Effect(p.edit.op, g.lan)
    ensures Inv(start, Goto(g.(inFlight := g.inFlight + [p]), t, Waiting(p.edit)))
  {
    assert PcOk(g, g.active[t]);
    var g' := Goto(g.(inFlight := g.inFlight + [p]), t, Waiting(p.edit));
    assert g'.inFlight == [p];
    assert forall u | u in g'.active :: u == t;
  }

  /** The only reconcile in its section has nothing to change. */
  lemma SkipKeeps(start: seq<Entry>, g: Group, t: Tid, edit: Edit)
    requires Inv(start, g) && Exclusive(g) && t in g.active && g.active[t].Ready? && g.active[t].edit == edit
    requires Effect(edit.op, g.lan) == g.lan
    ensures Inv(start, Leave(g, t).(done := g.done + [edit]))
  {
    assert PcOk(g, g.active[t]);
    SettledExtends(start, g.done, edit);
    assert forall u | u in g.active :: u == t;
  }

  lemma DecideKeeps(start: seq<Entry>, g: Group, t: Tid)
    requires Inv(start, g) && Exclusive(g) && Enabled(g, Decide(t))
    ensures Inv(start, Apply(g, Decide(t)))
  {
    var pc := g.active[t];
    assert PcOk(g, pc);
    if Patches(pc.edit.op, pc.base) {
      SendKeeps(start, g, t, Patch(pc.edit, Effect(pc.edit.op, pc.base)));
    } else {
      SkipKeeps(start, g, t, pc.edit);
    }
  }

  /** A goroutine may go to any place whose claim holds. */
  lemma GotoKeeps(start: seq<Entry>, g: Group, t: Tid, pc: Pc)
    requires Inv(start, g) && PcOk(g, pc)
    ensures Inv(start, Goto(g, t, pc))
  {
    var g' := Goto(g, t, pc);
    forall u | u in g'.active ensures PcOk(g', g'.active[u]) { assert u in g.active ==> PcOk(g, g.active[u]); }
  }

  lemma LeaveKeeps(start: seq<Entry>, g: Group, t: Tid)
    requires Inv(start, g)
    ensures Inv(start, Leave(g, t))
  {
    forall u | u in g.active ensures PcOk(Leave(g, t), g.active[u]) { assert PcOk(g, g.active[u]); }
  }

  lemma TicketKeeps(start: seq<Entry>, g: Group)
    requires Inv(start, g)
    ensures Inv(start, g.(tickets := g.tickets + 1))
  {
    var g' := g.(tickets := g.tickets + 1);
    forall u | u in g.active ensures PcOk(g', g.active[u]) { assert PcOk(g, g.active[u]); }
  }

  lemma ReadKeeps(start: seq<Entry>, g: Group, t: Tid)
    requires Inv(start, g) && Enabled(g, Read(t))
    ensures Inv(start, Apply(g, Read(t)))
  {
    assert PcOk(g, g.active[t]);
    GotoKeeps(start, g, t, HasRead(g.active[t].edit, g.lan));
  }

  lemma CheckKeeps(start: seq<Entry>, g: Group, t: Tid)
    requires Inv(start, g) && Enabled(g, Check(t))
    ensures Inv(start, Apply(g, Check(t)))
  {
    assert PcOk(g, g.active[t]);
    if g.inFlight != [] {
      LeaveKeeps(start, g, t);
    } else {
      GotoKeeps(start, g, t, Ready(g.active[t].edit, g.active[t].base));
    }
  }

  lemma EnterKeeps(start: seq<Entry>, g: Group, t: Tid, op: Op)
    requires Inv(start, g) && Enabled(g, Enter(t, op))
    ensures Inv(start, Apply(g, Enter(t, op)))
  {
    TicketKeeps(start, g);
    GotoKeeps(start, g.(tickets := g.tickets + 1), t, Begin(Edit(g.tickets, op)));
  }

  lemma ApplyKeeps(start: seq<Entry>, g: Group, e: Event)
    requires Inv(start, g) && Exclusive(g) && Enabled(g, e) && Harmless(g, e)
    ensures Inv(start, Apply(g, e))
  {
    match e
    case Enter(t, op) => EnterKeeps(start, g, t, op);
    case Read(t) => ReadKeeps(start, g, t);
    case Check(t) => CheckKeeps(start, g, t);
    case Decide(t) => DecideKeeps(start, g, t);
    case Exit(t) => LeaveKeeps(start, g, t);
    case Land => LandKeeps(start, g);
    case Reject => RejectKeeps(start, g);
  }

  // ---- all runs, on top of the real lock ----

  datatype World = World(lk: L.State, g: Group)

  ghost predicate LockerMoves(key: L.Key, w: World, w': World) {
    LS.LockerMoves(key, w.lk, w.g.active.Keys, w'.lk) && w'.g == w.g
  }

  /** An event of the group; whoever enters the section holds the lock. */
  ghost predicate GroupDoes(key: L.Key, w: World, e: Event, w': World) {
    Enabled(w.g, e) && (e.Enter? ==> LS.MayEnter(key, w.lk, e.t)) && w' == w.(g := Apply(w.g, e))
  }

  ghost predicate Moves(key: L.Key, w: World, w': World) {
    LockerMoves(key, w, w') || exists e :: GroupDoes(key, w, e, w')
  }

  ghost predicate HarmlessMoves(key: L.Key, w: World, w': World) {
    LockerMoves(key, w, w') || exists e :: GroupDoes(key, w, e, w') && Harmless(w.g, e)
  }

  ghost predicate Init(start: seq<Entry>, w: World) {
    LR.Init(w.lk) && w.g == Group(start, [], map[], 0, [])
  }

  ghost predicate HarmlessRun(key: L.Key, start: seq<Entry>, b: seq<World>) {
    |b| > 0 && Init(start, b[0]) && forall i | 0 <= i < |b| - 1 :: HarmlessMoves(key, b[i], b[i + 1])
  }

  /** Reached by a run in which every patch that landed was harmless. */
  ghost predicate Reachable(key: L.Key, start: seq<Entry>, w: World) {
    exists b :: HarmlessRun(key, start, b) && b[|b| - 1] == w
  }

  predicate WorldInv(key: L.Key, start: seq<Entry>, w: World) {
    LI.Inv(w.lk) && LS.HoldersOnly(key, w.lk, w.g.active.Keys) && Inv(start, w.g)
  }

  lemma ActiveMoves(g: Group, e: Event)
    requires Enabled(g, e)
    ensures Apply(g, e).active.Keys <= if e.Enter? then g.active.Keys + {e.t} else g.active.Keys
  {
  }

  lemma MoveKeeps(key: L.Key, start: seq<Entry>, w: World, w': World)
    requires WorldInv(key, start, w) && HarmlessMoves(key, w, w')
    ensures WorldInv(key, start, w')
  {
    if LockerMoves(key, w, w') {
      LS.LockerMoveKeeps(key, w.lk, w.g.active.Keys, w'.lk);
    } else {
      var e :| GroupDoes(key, w, e, w') && Harmless(w.g, e);
      LS.HoldersExclude(key, w.lk, w.g.active.Keys);
      ApplyKeeps(start, w.g, e);
      ActiveMoves(w.g, e);
    }
  }

  lemma StartInv(key: L.Key, start: seq<Entry>, w: World)
    requires Init(start, w)
    ensures WorldInv(key, start, w)
  {
    LR.InitInv(w.lk);
  }

  lemma {:induction false} RunKeepsInv(key: L.Key, start: seq<Entry>, b: seq<World>, n: nat)
    requires HarmlessRun(key, start, b) && n < |b|
    ensures WorldInv(key, start, b[n])
  {
    if n == 0 {
      StartInv(key, start, b[0]);
    } else {
      RunKeepsInv(key, start, b, n - 1);
      assert HarmlessMoves(key, b[n - 1], b[n - 1 + 1]);
      MoveKeeps(key, start, b[n - 1], b[n]);
    }
  }

  lemma ReachableInv(key: L.Key, start: seq<Entry>, w: World)
    requires Reachable(key, start, w)
    ensures WorldInv(key, start, w) && Exclusive(w.g)
  {
    var b :| HarmlessRun(key, start, b) && b[|b| - 1] == w;
    RunKeepsInv(key, start, b, |b| - 1);
    LS.HoldersExclude(key, w.lk, w.g.active.Keys);
  }

  /**
   No update is lost: the list is the result of the finished edits one after the other, in the
   order in which they acquired the LAN lock, whatever was in flight when they did.
   */
  lemma NoLostUpdate(clusterUID: string, datacenter: string, start: seq<Entry>, w: World)
    requires Reachable(LO.LanKey(clusterUID, datacenter), start, w)
    ensures w.g.lan == Serial(start, Ops(w.g.done))
    ensures forall i, j | 0 <= i < j < |w.g.done| :: w.g.done[i].ticket < w.g.done[j].ticket
  {
    ReachableInv(LO.LanKey(clusterUID, datacenter), start, w);
  }

  /** Hence a well-kept group stays well-kept under any interleaving of the controller's edits. */
  lemma GroupStaysGood(d: Desired, clusterUID: string, datacenter: string, start: seq<Entry>, w: World)
    requires Reachable(LO.LanKey(clusterUID, datacenter), start, w)
    requires Good(d, start) && forall i | 0 <= i < |w.g.done| :: Allowed(d, w.g.done[i].op)
    ensures Good(d, w.g.lan) && Foreign(d, w.g.lan) == Foreign(d, start)
  {
    NoLostUpdate(clusterUID, datacenter, start, w);
    EditsKeepGood(d, start, Ops(w.g.done));
  }

  // ---- two conditions one can see from outside ----

  /** Nothing that changes the list lands between a read and the check after it. */
  ghost predicate Undisturbed(g: Group, e: Event)
    requires Enabled(g, e)
  {
    e.Land? && Between(g) ==> g.inFlight[0].list == g.lan
  }

  /** What lands before a read or after the check does not matter, and what changes nothing neither. */
  lemma UndisturbedIsHarmless(start: seq<Entry>, g: Group, e: Event)
    requires Inv(start, g) && Enabled(g, e) && Undisturbed(g, e)
    ensures Harmless(g, e)
  {
    if e.Land? {
      forall t | t in g.active && g.active[t].HasRead?
        ensures StillGood(g.active[t].edit.op, g.active[t].base, g.inFlight[0].list)
      {
        assert PcOk(g, g.active[t]);
      }
    }
  }

  ghost predicate UndisturbedMoves(key: L.Key, w: World, w': World) {
    LockerMoves(key, w, w') || exists e :: GroupDoes(key, w, e, w') && Undisturbed(w.g, e)
  }

  /** No patch is in flight when a goroutine enters its section. */
  ghost predicate CalmMoves(key: L.Key, w: World, w': World) {
    LockerMoves(key, w, w') || exists e :: GroupDoes(key, w, e, w') && (e.Enter? ==> w.g.inFlight == [])
  }

  ghost predicate UndisturbedRun(key: L.Key, start: seq<Entry>, b: seq<World>) {
    |b| > 0 && Init(start, b[0]) && forall i | 0 <= i < |b| - 1 :: UndisturbedMoves(key, b[i], b[i + 1])
  }

  ghost predicate CalmRun(key: L.Key, start: seq<Entry>, b: seq<World>) {
    |b| > 0 && Init(start, b[0]) && forall i | 0 <= i < |b| - 1 :: CalmMoves(key, b[i], b[i + 1])
  }

  lemma UndisturbedMoveIsHarmless(key: L.Key, start: seq<Entry>, w: World, w': World)
    requires Inv(start, w.g) && UndisturbedMoves(key, w, w')
    ensures HarmlessMoves(key, w, w')
  {
    if !LockerMoves(key, w, w') {
      var e :| GroupDoes(key, w, e, w') && Undisturbed(w.g, e);
      UndisturbedIsHarmless(start, w.g, e);
    }
  }

  lemma {:induction false} UndisturbedRunKeeps(key: L.Key, start: seq<Entry>, b: seq<World>, n: nat)
    requires UndisturbedRun(key, start, b) && n < |b|
    ensures WorldInv(key, start, b[n])
    ensures forall i | 0 <= i < n :: HarmlessMoves(key, b[i], b[i + 1])
  {
    if n == 0 {
      StartInv(key, start, b[0]);
    } else {
      UndisturbedRunKeeps(key, start, b, n - 1);
      assert UndisturbedMoves(key, b[n - 1], b[n - 1 + 1]);
      UndisturbedMoveIsHarmless(key, start, b[n - 1], b[n]);
      MoveKeeps(key, start, b[n - 1], b[n]);
    }
  }

  lemma UndisturbedRunIsHarmless(key: L.Key, start: seq<Entry>, b: seq<World>)
    requires UndisturbedRun(key, start, b)
    ensures HarmlessRun(key, start, b)
  {
    UndisturbedRunKeeps(key, start, b, |b| - 1);
  }

  /** Only a goroutine that waits for its own patch has one in flight beside it. */
  predicate Calm(g: Group) {
    forall t | t in g.active && !g.active[t].Waiting? :: g.inFlight == []
  }

  lemma CalmKept(g: Group, e: Event)
    requires Calm(g) && Exclusive(g) && Enabled(g, e) && |g.inFlight| <= 1 && (e.Enter? ==> g.inFlight == [])
    ensures Calm(Apply(g, e))
  {
  }

  lemma CalmMoveIsUndisturbed(key: L.Key, start: seq<Entry>, w: World, w': World)
    requires WorldInv(key, start, w) && Calm(w.g) && CalmMoves(key, w, w')
    ensures UndisturbedMoves(key, w, w') && Calm(w'.g)
  {
    if !LockerMoves(key, w, w') {
      var e :| GroupDoes(key, w, e, w') && (e.Enter? ==> w.g.inFlight == []);
      assert Undisturbed(w.g, e);
      LS.HoldersExclude(key, w.lk, w.g.active.Keys);
      CalmKept(w.g, e);
    }
  }

  lemma {:induction false} CalmRunKeeps(key: L.Key, start: seq<Entry>, b: seq<World>, n: nat)
    requires CalmRun(key, start, b) && n < |b|
    ensures WorldInv(key, start, b[n]) && Calm(b[n].g)
    ensures forall i | 0 <= i < n :: UndisturbedMoves(key, b[i], b[i + 1])
  {
    if n == 0 {
      StartInv(key, start, b[0]);
    } else {
      CalmRunKeeps(key, start, b, n - 1);
      assert CalmMoves(key, b[n - 1], b[n - 1 + 1]);
      CalmMoveIsUndisturbed(key, start, b[n - 1], b[n]);
      UndisturbedMoveIsHarmless(key, start, b[n - 1], b[n]);
      MoveKeeps(key, start, b[n - 1], b[n]);
    }
  }

  lemma CalmRunIsUndisturbed(key: L.Key, start: seq<Entry>, b: seq<World>)
    requires CalmRun(key, start, b)
    ensures UndisturbedRun(key, start, b)
  {
    CalmRunKeeps(key, start, b, |b| - 1);
  }

  /** What is promised of the last world of a run. */
  ghost predicate NothingLost(d: Desired, start: seq<Entry>, g: Group) {
    && g.lan == Serial(start, Ops(g.done))
    && (forall i, j | 0 <= i < j < |g.done| :: g.done[i].ticket < g.done[j].ticket)
    && (Good(d, start) && (forall i | 0 <= i < |g.done| :: Allowed(d, g.done[i].op)) ==>
          Good(d, g.lan) && Foreign(d, g.lan) == Foreign(d, start))
  }

  /** If nothing that changes the list lands between a read and its check, no update is lost. */
  lemma UndisturbedLosesNothing(d: Desired, clusterUID: string, datacenter: string, start: seq<Entry>, b: seq<World>)
    requires UndisturbedRun(LO.LanKey(clusterUID, datacenter), start, b)
    ensures NothingLost(d, start, b[|b| - 1].g)
  {
    var w := b[|b| - 1];
    UndisturbedRunIsHarmless(LO.LanKey(clusterUID, datacenter), start, b);
    NoLostUpdate(clusterUID, datacenter, start, w);
    if Good(d, start) && forall i | 0 <= i < |w.g.done| :: Allowed(d, w.g.done[i].op) {
      GroupStaysGood(d, clusterUID, datacenter, start, w);
    }
  }

  /** If no patch is in flight when the lock is acquired, no update is lost. */
  lemma CalmLosesNothing(d: Desired, clusterUID: string, datacenter: string, start: seq<Entry>, b: seq<World>)
    requires CalmRun(LO.LanKey(clusterUID, datacenter), start, b)
    ensures NothingLost(d, start, b[|b| - 1].g)
  {
    CalmRunIsUndisturbed(LO.LanKey(clusterUID, datacenter), start, b);
    UndisturbedLosesNothing(d, clusterUID, datacenter, start, b);
  }
}
