/**
 The other half of NoLostUpdate: whenever a patch that is not harmless lands between a read and the
 check after it, the run can go on to lose an update; and that does come about, under the lock, for
 every patch that changes the list.
 */
module LostUpdates {
  import opened Base
  import opened Failover
  import opened FailoverRuns
  import L = Locker
  import LI = LockerInvariant
  import LR = LockerRuns
  import LO = LockOrder
  import LS = LockedSection

  /** From here on the list is not what the finished edits in lock order make of it. */
  predicate Lost(start: seq<Entry>, g: Group) {
    g.inFlight == [] && g.lan != Serial(start, Ops(g.done))
  }

  ghost predicate Path(key: L.Key, b: seq<World>) {
    |b| > 0 && forall i | 0 <= i < |b| - 1 :: Moves(key, b[i], b[i + 1])
  }

  // ---- a harmful patch lands ----

  /** The edit that has read goes on: it checks, decides on what it read, and its patch lands. */
  function GoOn(g: Group, t: Tid): seq<Event>
    requires t in g.active && g.active[t].HasRead?
  {
    [Land, Check(t), Decide(t)] + if Patches(g.active[t].edit.op, g.active[t].base) then [Land] else []
  }

  ghost predicate Follows(b: seq<Group>, events: seq<Event>) {
    && |b| == |events| + 1
    && forall i | 0 <= i < |events| :: Enabled(b[i], events[i]) && b[i + 1] == Apply(b[i], events[i])
  }

  /** One patch is in flight, and it is the right edit of the list as it is. */
  predicate AboutToLand(start: seq<Entry>, g: Group) {
    |g.inFlight| == 1 && g.inFlight[0].list == Effect(g.inFlight[0].edit.op, g.lan) && Settled(start, g)
  }

  lemma InvAboutToLand(start: seq<Entry>, g: Group)
    requires Inv(start, g) && Enabled(g, Land)
    ensures AboutToLand(start, g)
  {
    assert g.inFlight[0] in g.inFlight;
  }

  lemma LandAndCheck(start: seq<Entry>, g: Group, t: Tid) returns (b: seq<Group>)
    requires AboutToLand(start, g) && t in g.active && g.active[t].HasRead?
    ensures Follows(b, [Land, Check(t)]) && b[0] == g
    ensures b[2].inFlight == [] && b[2].lan == g.inFlight[0].list == Serial(start, Ops(b[2].done))
    ensures b[2].done == g.done + [g.inFlight[0].edit]
    ensures t in b[2].active && b[2].active[t] == Ready(g.active[t].edit, g.active[t].base)
  {
    var p := g.inFlight[0];
    SettledExtends(start, g.done, p.edit);
    var g1 := Apply(g, Land);
    assert g1.inFlight == [];
    b := [g, g1, Apply(g1, Check(t))];
  }

  lemma DecidesWrongly(start: seq<Entry>, g: Group, t: Tid, edit: Edit, base: seq<Entry>) returns (b: seq<Group>)
    requires g.inFlight == [] && g.lan == Serial(start, Ops(g.done))
    requires t in g.active && g.active[t] == Ready(edit, base) && !StillGood(edit.op, base, g.lan)
    ensures Follows(b, [Decide(t)] + if Patches(edit.op, base) then [Land] else [])
    ensures b[0] == g && Lost(start, b[|b| - 1]) && b[|b| - 1].done == g.done + [edit]
    ensures b[|b| - 1].lan == Decided(edit.op, base, g.lan)
  {
    SettledExtends(start, g.done, edit);
    var g1 := Apply(g, Decide(t));
    if Patches(edit.op, base) {
      assert g1.inFlight == [Patch(edit, Effect(edit.op, base))];
      b := [g, g1, Apply(g1, Land)];
    } else {
      b := [g, g1];
    }
  }

  lemma GoingOnLoses(start: seq<Entry>, g: Group, t: Tid) returns (b: seq<Group>)
    requires AboutToLand(start, g) && t in g.active && g.active[t].HasRead?
    requires !StillGood(g.active[t].edit.op, g.active[t].base, g.inFlight[0].list)
    ensures Follows(b, GoOn(g, t)) && b[0] == g && Lost(start, b[|b| - 1])
    ensures b[|b| - 1].done == g.done + [g.inFlight[0].edit, g.active[t].edit]
    ensures b[|b| - 1].lan == Decided(g.active[t].edit.op, g.active[t].base, g.inFlight[0].list)
  {
    var front := LandAndCheck(start, g, t);
    var rest := DecidesWrongly(start, front[2], t, g.active[t].edit, g.active[t].base);
    b := front[..2] + rest;
    assert front[..2] == front[..|[Land, Check(t)]|];
    var events := [Decide(t)] + if Patches(g.active[t].edit.op, g.active[t].base) then [Land] else [];
    assert GoOn(g, t) == [Land, Check(t)] + events;
    JoinFollows(front, [Land, Check(t)], rest, events);
    assert g.done + [g.inFlight[0].edit] + [g.active[t].edit] == g.done + [g.inFlight[0].edit, g.active[t].edit];
  }

  lemma JoinFollows(a: seq<Group>, d: seq<Event>, b: seq<Group>, e: seq<Event>)
    requires Follows(a, d) && Follows(b, e) && a[|a| - 1] == b[0]
    ensures var c := a[..|d|] + b; Follows(c, d + e) && c[0] == a[0] && c[|c| - 1] == b[|b| - 1]
  {
    var c := a[..|d|] + b;
    assert forall i | 0 <= i <= |d| :: c[i] == a[i];
    assert forall i | |d| <= i < |c| :: c[i] == b[i - |d|];
  }

  lemma InWorlds(key: L.Key, w: World, b: seq<Group>, events: seq<Event>) returns (ws: seq<World>)
    requires Follows(b, events) && b[0] == w.g && forall i | 0 <= i < |events| :: !events[i].Enter?
    ensures |ws| == |b| && Path(key, ws) && ws[0] == w && ws[|ws| - 1].g == b[|b| - 1]
  {
    ws := seq(|b|, i requires 0 <= i < |b| => World(w.lk, b[i]));
    forall i | 0 <= i < |ws| - 1 ensures Moves(key, ws[i], ws[i + 1]) {
      assert GroupDoes(key, ws[i], events[i], ws[i + 1]);
    }
  }

  /**
   Being harmless is needed: from any reachable world in which a patch that is not harmless can
   land, there is a way to go on that loses an update.
   */
  lemma HarmfulLandLoses(clusterUID: string, datacenter: string, start: seq<Entry>, w: World) returns (b: seq<World>)
    requires Reachable(LO.LanKey(clusterUID, datacenter), start, w) && Enabled(w.g, Land) && !Harmless(w.g, Land)
    ensures Path(LO.LanKey(clusterUID, datacenter), b) && b[0] == w && Lost(start, b[|b| - 1].g)
  {
    ReachableInv(LO.LanKey(clusterUID, datacenter), start, w);
    b := HarmedWorldLoses(LO.LanKey(clusterUID, datacenter), start, w);
  }

  lemma GoingOnInWorlds(key: L.Key, start: seq<Entry>, w: World, t: Tid) returns (b: seq<World>)
    requires AboutToLand(start, w.g) && t in w.g.active && w.g.active[t].HasRead?
    requires !StillGood(w.g.active[t].edit.op, w.g.active[t].base, w.g.inFlight[0].list)
    ensures Path(key, b) && b[0] == w && Lost(start, b[|b| - 1].g)
    ensures b[|b| - 1].g.done == w.g.done + [w.g.inFlight[0].edit, w.g.active[t].edit]
    ensures b[|b| - 1].g.lan == Decided(w.g.active[t].edit.op, w.g.active[t].base, w.g.inFlight[0].list)
  {
    var groups := GoingOnLoses(start, w.g, t);
    b := InWorlds(key, w, groups, GoOn(w.g, t));
  }

  lemma HarmedWorldLoses(key: L.Key, start: seq<Entry>, w: World) returns (b: seq<World>)
    requires Inv(start, w.g) && Enabled(w.g, Land) && !Harmless(w.g, Land)
    ensures Path(key, b) && b[0] == w && Lost(start, b[|b| - 1].g)
  {
    InvAboutToLand(start, w.g);
    var t :| t in w.g.active && w.g.active[t].HasRead? &&
             !StillGood(w.g.active[t].edit.op, w.g.active[t].base, w.g.inFlight[0].list);
    b := GoingOnInWorlds(key, start, w, t);
  }

  // ---- every change of the list harms some edit ----

  /** Adding a NIC and an IP that are new to both lists: one of the two lists would be forgotten. */
  lemma AddIsHarmed(l: seq<Entry>, l': seq<Entry>, nic: string, ip: string)
    requires l != l' && forall e | e in l || e in l' :: !Stops(e, nic, ip)
    ensures Patches(Add(nic, ip), l) && !StillGood(Add(nic, ip), l, l')
  {
    assert AddStop(l, nic, ip) == |l| && AddStop(l', nic, ip) == |l'|;
    var e := Entry(Some(ip), Some(nic));
    assert (l + [e])[..|l|] == l && (l' + [e])[..|l'|] == l';
  }

  // ---- a run that gets there, with all actions of the lock ----

  lemma Extends(key: L.Key, start: seq<Entry>, w: World, w': World)
    requires Reachable(key, start, w) && HarmlessMoves(key, w, w')
    ensures Reachable(key, start, w')
  {
    var b :| HarmlessRun(key, start, b) && b[|b| - 1] == w;
    var b' := b + [w'];
    assert forall i | 0 <= i < |b'| - 1 :: HarmlessMoves(key, b'[i], b'[i + 1]);
    assert HarmlessRun(key, start, b') && b'[|b'| - 1] == w';
  }

  lemma Acts(key: L.Key, start: seq<Entry>, w: World, t: Tid, c: L.Choice, lk: L.State)
    requires Reachable(key, start, w) && LI.StepOf(w.lk, t, c, lk) && (c == L.CallUnlock(key) ==> t !in w.g.active)
    ensures Reachable(key, start, w.(lk := lk))
  {
    assert LS.LockerMoves(key, w.lk, w.g.active.Keys, lk);
    Extends(key, start, w, w.(lk := lk));
  }

  lemma Does(key: L.Key, start: seq<Entry>, w: World, e: Event)
    requires Reachable(key, start, w) && Enabled(w.g, e) && !e.Land? && (e.Enter? ==> LS.MayEnter(key, w.lk, e.t))
    ensures Reachable(key, start, w.(g := Apply(w.g, e)))
  {
    var w' := w.(g := Apply(w.g, e));
    assert GroupDoes(key, w, e, w') && Harmless(w.g, e);
    Extends(key, start, w, w');
  }

  /** The lock state in which goroutine `t` is at `pc`. */
  function At(s: L.State, mu: Option<Tid>, locks: map<L.Key, L.Obj>, objs: seq<L.LockObj>,
              t: Tid, pc: L.Pc, held: map<L.Key, L.Obj>): L.State
  {
    L.State(mu, locks, objs, s.threads[t := L.Goroutine(pc, held)])
  }

  predicate Idle(key: L.Key, s: L.State, t: Tid) {
    s.mu.None? && s.locks == map[] && t in s.threads && s.threads[t] == L.Goroutine(L.Client, map[])
  }

  /** In the middle of a Lock that nobody interferes with: a lock object has been made. */
  function Found(key: L.Key, s: L.State, t: Tid): L.State {
    var o := |s.objs|;
    At(s, Some(t), map[key := o], s.objs + [L.LockObj(key, None, 0)], t, L.LockInc(key, o), map[])
  }

  /** Registered, and about to send. */
  function AtChannel(key: L.Key, s: L.State, t: Tid): L.State {
    var o := |s.objs|;
    At(s, None, map[key := o], s.objs + [L.LockObj(key, None, 1)], t, L.Select(key, o), map[])
  }

  /** The state after a Lock that nobody interfered with. */
  function Taken(key: L.Key, s: L.State, t: Tid): L.State {
    At(s, None, map[key := |s.objs|], s.objs + [L.LockObj(key, Some(t), 0)], t, L.Client, map[key := |s.objs|])
  }

  lemma RegistersAlone(key: L.Key, start: seq<Entry>, w: World, t: Tid)
    requires Reachable(key, start, w) && Idle(key, w.lk, t)
    ensures Reachable(key, start, w.(lk := Found(key, w.lk, t)))
  {
    var s := w.lk;
    var s1 := At(s, None, map[], s.objs, t, L.LockMu(key), map[]);
    var s2 := At(s, Some(t), map[], s.objs, t, L.LockCtx(key), map[]);
    var s3 := At(s, Some(t), map[], s.objs, t, L.LockGet(key), map[]);
    var s4 := Found(key, s, t);
    Acts(key, start, w, t, L.CallLock(key), s1);
    assert s1.threads[t := L.Goroutine(L.LockCtx(key), map[])] == s2.threads;
    Acts(key, start, w.(lk := s1), t, L.Go, s2);
    assert s2.threads[t := L.Goroutine(L.LockGet(key), map[])] == s3.threads;
    Acts(key, start, w.(lk := s2), t, L.Go, s3);
    assert s3.threads[t := L.Goroutine(L.LockInc(key, |s.objs|), map[])] == s4.threads;
    Acts(key, start, w.(lk := s3), t, L.Go, s4);
  }

  lemma WaitsAlone(key: L.Key, start: seq<Entry>, w: World, t: Tid)
    requires Reachable(key, start, w) && Idle(key, w.lk, t)
    ensures Reachable(key, start, w.(lk := AtChannel(key, w.lk, t)))
  {
    RegistersAlone(key, start, w, t);
    var s, o := w.lk, |w.lk.objs|;
    var s4 := Found(key, s, t);
    var s5 := At(s, Some(t), map[key := o], s.objs + [L.LockObj(key, None, 1)], t, L.LockRel(key, o), map[]);
    var s6 := AtChannel(key, s, t);
    assert s4.threads[t := s5.threads[t]] == s5.threads && s4.objs[o := s5.objs[o]] == s5.objs;
    Acts(key, start, w.(lk := s4), t, L.Go, s5);
    assert s5.threads[t := s6.threads[t]] == s6.threads;
    Acts(key, start, w.(lk := s5), t, L.Go, s6);
  }

  lemma LocksAlone(key: L.Key, start: seq<Entry>, w: World, t: Tid)
    requires Reachable(key, start, w) && Idle(key, w.lk, t)
    ensures Reachable(key, start, w.(lk := Taken(key, w.lk, t)))
  {
    WaitsAlone(key, start, w, t);
    var s, o := w.lk, |w.lk.objs|;
    var s6 := AtChannel(key, s, t);
    var s7 := At(s, None, map[key := o], s.objs + [L.LockObj(key, Some(t), 1)], t, L.Sent(key, o), map[]);
    var s8 := Taken(key, s, t);
    assert s6.threads[t := s7.threads[t]] == s7.threads && s6.objs[o := s7.objs[o]] == s7.objs;
    Acts(key, start, w.(lk := s6), t, L.Go, s7);
    assert s7.threads[t := s8.threads[t]] == s8.threads && s7.objs[o := s8.objs[o]] == s8.objs;
    Acts(key, start, w.(lk := s7), t, L.Go, s8);
  }

  lemma LooksUpAlone(key: L.Key, start: seq<Entry>, w: World, t: Tid, o: L.Obj)
    requires Reachable(key, start, w) && Owns(key, w.lk, t, o) && t !in w.g.active
    ensures var s := w.lk;
      Reachable(key, start, w.(lk := At(s, Some(t), s.locks, s.objs, t, L.UnlockCount(key, o), map[key := o])))
  {
    var s := w.lk;
    var s1 := At(s, None, s.locks, s.objs, t, L.UnlockMu(key), map[key := o]);
    var s2 := At(s, Some(t), s.locks, s.objs, t, L.UnlockGet(key), map[key := o]);
    var s3 := At(s, Some(t), s.locks, s.objs, t, L.UnlockCount(key, o), map[key := o]);
    Acts(key, start, w, t, L.CallUnlock(key), s1);
    assert s1.threads[t := s2.threads[t]] == s2.threads;
    Acts(key, start, w.(lk := s1), t, L.Go, s2);
    assert s2.threads[t := s3.threads[t]] == s3.threads;
    Acts(key, start, w.(lk := s2), t, L.Go, s3);
  }

  /** `t` owns the key and is the only one to know it. */
  predicate Owns(key: L.Key, s: L.State, t: Tid, o: L.Obj) {
    && s.mu.None? && s.locks == map[key := o] && o < |s.objs| && s.objs[o] == L.LockObj(key, Some(t), 0)
    && t in s.threads && s.threads[t] == L.Goroutine(L.Client, map[key := o])
  }

  lemma DeletesAlone(key: L.Key, start: seq<Entry>, w: World, t: Tid, o: L.Obj)
    requires Reachable(key, start, w) && Owns(key, w.lk, t, o) && t !in w.g.active
    ensures Reachable(key, start, w.(lk := At(w.lk, Some(t), map[], w.lk.objs, t, L.UnlockRecv(key, o), map[key := o])))
  {
    LooksUpAlone(key, start, w, t, o);
    var s := w.lk;
    var s3 := At(s, Some(t), s.locks, s.objs, t, L.UnlockCount(key, o), map[key := o]);
    var s4 := At(s, Some(t), s.locks, s.objs, t, L.UnlockDel(key, o), map[key := o]);
    var s5 := At(s, Some(t), map[], s.objs, t, L.UnlockRecv(key, o), map[key := o]);
    assert s3.threads[t := s4.threads[t]] == s4.threads;
    Acts(key, start, w.(lk := s3), t, L.Go, s4);
    assert s4.threads[t := s5.threads[t]] == s5.threads && s4.locks - {key} == map[];
    Acts(key, start, w.(lk := s4), t, L.Go, s5);
  }

  lemma UnlocksAlone(key: L.Key, start: seq<Entry>, w: World, t: Tid, o: L.Obj)
    requires Reachable(key, start, w) && Owns(key, w.lk, t, o) && t !in w.g.active
    ensures Reachable(key, start,
      w.(lk := At(w.lk, None, map[], w.lk.objs[o := L.LockObj(key, None, 0)], t, L.Client, map[])))
  {
    DeletesAlone(key, start, w, t, o);
    var s, free := w.lk, w.lk.objs[o := L.LockObj(key, None, 0)];
    var s5 := At(s, Some(t), map[], s.objs, t, L.UnlockRecv(key, o), map[key := o]);
    var s6 := At(s, Some(t), map[], free, t, L.Leave, map[]);
    var s7 := At(s, None, map[], free, t, L.Client, map[]);
    assert s5.threads[t := s6.threads[t]] == s6.threads && map[key := o] - {key} == map[];
    Acts(key, start, w.(lk := s5), t, L.Go, s6);
    assert s6.threads[t := s7.threads[t]] == s7.threads;
    Acts(key, start, w.(lk := s6), t, L.Go, s7);
  }

  /** The first edit sends its patch, gives up waiting, and lets go of the lock. */
  lemma FirstGivesUp(key: L.Key, start: seq<Entry>, first: Op) returns (w: World)
    requires Patches(first, start)
    ensures Reachable(key, start, w) && Idle(key, w.lk, 1)
    ensures w.g == Group(start, [Patch(Edit(0, first), Effect(first, start))], map[], 1, [])
  {
    var idle := L.Goroutine(L.Client, map[]);
    var w0 := World(L.State(None, map[], [], map[0 := idle, 1 := idle]), Group(start, [], map[], 0, []));
    assert HarmlessRun(key, start, [w0]) && [w0][0] == w0;
    LocksAlone(key, start, w0, 0);
    var w1 := w0.(lk := Taken(key, w0.lk, 0));
    var w2 := SendsAndLeaves(key, start, w1, first);
    UnlocksAlone(key, start, w2, 0, 0);
    w := w2.(lk := At(w2.lk, None, map[], w2.lk.objs[0 := L.LockObj(key, None, 0)], 0, L.Client, map[]));
  }

  lemma EntersAndReads(key: L.Key, start: seq<Entry>, w: World, t: Tid, op: Op)
    requires Reachable(key, start, w) && w.g.lan == start && w.g.active == map[] && LS.MayEnter(key, w.lk, t)
    ensures Reachable(key, start,
      w.(g := w.g.(active := map[t := HasRead(Edit(w.g.tickets, op), start)], tickets := w.g.tickets + 1)))
  {
    var edit := Edit(w.g.tickets, op);
    var g1 := w.g.(active := map[t := Begin(edit)], tickets := w.g.tickets + 1);
    var g2 := w.g.(active := map[t := HasRead(edit, start)], tickets := w.g.tickets + 1);
    Does(key, start, w, Enter(t, op));
    assert Apply(w.g, Enter(t, op)) == g1;
    Does(key, start, w.(g := g1), Read(t));
    assert Apply(g1, Read(t)) == g2;
  }

  lemma SendsAndLeaves(key: L.Key, start: seq<Entry>, w: World, first: Op) returns (w': World)
    requires Reachable(key, start, w) && w.g == Group(start, [], map[], 0, []) && LS.MayEnter(key, w.lk, 0)
    requires Patches(first, start)
    ensures Reachable(key, start, w') && w'.lk == w.lk
    ensures w'.g == Group(start, [Patch(Edit(0, first), Effect(first, start))], map[], 1, [])
  {
    var edit := Edit(0, first);
    var g2 := Group(start, [], map[0 := HasRead(edit, start)], 1, []);
    var g3 := Group(start, [], map[0 := Ready(edit, start)], 1, []);
    var g4 := Group(start, [Patch(edit, Effect(first, start))], map[0 := Waiting(edit)], 1, []);
    var g5 := Group(start, [Patch(edit, Effect(first, start))], map[], 1, []);
    EntersAndReads(key, start, w, 0, first);
    Does(key, start, w.(g := g2), Check(0));
    assert Apply(g2, Check(0)) == g3;
    Does(key, start, w.(g := g3), Decide(0));
    assert Apply(g3, Decide(0)) == g4;
    Does(key, start, w.(g := g4), Exit(0));
    assert Apply(g4, Exit(0)) == g5;
    w' := w.(g := g5);
  }

  /** Any two edits get to the point at which the patch of the first can land under the second. */
  lemma StaleReadHappens(key: L.Key, start: seq<Entry>, first: Op, second: Op) returns (w: World)
    requires Patches(first, start)
    ensures Reachable(key, start, w)
    ensures w.g == Group(start, [Patch(Edit(0, first), Effect(first, start))],
                         map[1 := HasRead(Edit(1, second), start)], 2, [])
  {
    var w1 := FirstGivesUp(key, start, first);
    LocksAlone(key, start, w1, 1);
    var w2 := w1.(lk := Taken(key, w1.lk, 1));
    EntersAndReads(key, start, w2, 1, second);
    w := w2.(g := w2.g.(active := map[1 := HasRead(Edit(1, second), start)], tickets := 2));
  }

  lemma SecondOverwrites(key: L.Key, start: seq<Entry>, w: World, first: Op, second: Op) returns (b: seq<World>)
    requires !StillGood(second, start, Effect(first, start))
    requires w.g == Group(start, [Patch(Edit(0, first), Effect(first, start))],
                          map[1 := HasRead(Edit(1, second), start)], 2, [])
    ensures Path(key, b) && b[0] == w && Lost(start, b[|b| - 1].g)
    ensures b[|b| - 1].g.done == [Edit(0, first), Edit(1, second)]
    ensures b[|b| - 1].g.lan == Decided(second, start, Effect(first, start))
  {
    assert Serial(start, Ops([])) == start;
    b := GoingOnInWorlds(key, start, w, 1);
  }

  lemma LosingRun(key: L.Key, start: seq<Entry>, first: Op, second: Op) returns (b: seq<World>)
    requires Patches(first, start) && !StillGood(second, start, Effect(first, start))
    ensures Path(key, b) && Init(start, b[0]) && Lost(start, b[|b| - 1].g)
    ensures b[|b| - 1].g.done == [Edit(0, first), Edit(1, second)]
    ensures b[|b| - 1].g.lan == Decided(second, start, Effect(first, start))
  {
    var w := StaleReadHappens(key, start, first, second);
    var front :| HarmlessRun(key, start, front) && front[|front| - 1] == w;
    var rest := SecondOverwrites(key, start, w, first, second);
    b := front + rest[1..];
    JoinPaths(key, front, rest);
  }

  /**
   From a fresh locker and any list: any edit that changes the list, and the addition after it of any
   NIC and IP that are new to the list before and after, have a run under the lock in which an
   update is lost.
   */
  lemma AnyUpdateCanBeLost(clusterUID: string, datacenter: string, start: seq<Entry>, first: Op,
                           nic: string, ip: string)
    returns (b: seq<World>)
    requires Effect(first, start) != start
    requires forall e | e in start || e in Effect(first, start) :: !Stops(e, nic, ip)
    ensures Path(LO.LanKey(clusterUID, datacenter), b) && Init(start, b[0]) && Lost(start, b[|b| - 1].g)
    ensures b[|b| - 1].g.done == [Edit(0, first), Edit(1, Add(nic, ip))]
    ensures b[|b| - 1].g.lan == start + [Entry(Some(ip), Some(nic))]
  {
    AddIsHarmed(start, Effect(first, start), nic, ip);
    b := LosingRun(LO.LanKey(clusterUID, datacenter), start, first, Add(nic, ip));
    assert AddStop(start, nic, ip) == |start|;
  }

  lemma JoinPaths(key: L.Key, front: seq<World>, rest: seq<World>)
    requires |front| > 0 && forall i | 0 <= i < |front| - 1 :: HarmlessMoves(key, front[i], front[i + 1])
    requires Path(key, rest) && rest[0] == front[|front| - 1]
    ensures var b := front + rest[1..]; Path(key, b) && b[0] == front[0] && b[|b| - 1] == rest[|rest| - 1]
  {
    var b := front + rest[1..];
    forall i | 0 <= i < |b| - 1 ensures Moves(key, b[i], b[i + 1]) {
      if i < |front| - 1 {
        assert HarmlessMoves(key, front[i], front[i + 1]);
      } else {
        assert b[i] == rest[i - |front| + 1] && b[i + 1] == rest[i - |front| + 2];
      }
    }
  }
}
