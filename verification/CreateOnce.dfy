/**
 Creating a named resource at most once through an asynchronous request queue.

 A reconcile looks the resource up, asks the queue for the latest creation request, looks again if
 that request is done, and posts a creation only if it found nothing (findResource and its callers
 ReconcileLAN, ReconcileServer, ReconcileControlPlaneEndpoint and retrieveFailoverIPForMachine).
 The cloud may move between any two of these observations.  Reconciles may fail at any point, and
 a post may be accepted although the caller sees an error.

 The cloud is assumed to do this much: an accepted post is in the queue at once; creation dates
 differ; a done request has its resource listed until it is deleted, a failed one has none; a
 pending one may or may not be listed already.
 */
module CreateOnce {
  import opened Base
  import opened Requests

  type Tid = nat

  /** The queue shows requests of the last 24 hours, in seconds. */
  const LOOKBACK: nat := 86400

  /** Longest time a request stays pending, and from a first lookup to the question to the queue. */
  datatype Bounds = Bounds(pending: nat, gap: nat)

  predicate BoundsOk(c: Bounds) { c.pending + c.gap < LOOKBACK }

  /** An accepted creation request and whether the resource it made is listed. */
  datatype Creation = Creation(at: nat, status: Status, listed: bool)

  /** Where a reconcile is between entering its section and leaving it. */
  datatype Pc =
    | Entered                 // nothing observed yet
    | Looked(since: nat)      // the first lookup found nothing, at time `since`
    | Asked                   // the latest request was done; look again
    | Creating                // findResource found neither a resource nor a pending request

  /** All creations of one name so far, the oldest first, and the reconciles in their sections. */
  datatype System = System(now: nat, log: seq<Creation>, active: map<Tid, Pc>)

  predicate Live(r: Creation) { Pending(r.status) || r.listed }

  function Listed(s: System): set<nat> {
    set i: nat | i < |s.log| && s.log[i].listed
  }

  /** Two resources of the same name are an error, as in getLAN. */
  function LookUp(s: System): Lookup<()> {
    if |Listed(s)| == 0 then Missing else if |Listed(s)| == 1 then Present(()) else LookupError
  }

  predicate Visible(s: System, r: Creation) { r.at + LOOKBACK > s.now }

  /** The latest request the queue shows. */
  function AskQueue(s: System): QueueAnswer {
    AskQueueFrom(s, |s.log|)
  }

  function AskQueueFrom(s: System, n: nat): QueueAnswer
    requires n <= |s.log|
  {
    if n == 0 then NoRequest
    else if Visible(s, s.log[n - 1]) then Latest(s.log[n - 1].status)
    else AskQueueFrom(s, n - 1)
  }

  datatype Event =
    | Enter(t: Tid)
    | FirstLookup(t: Tid)
    | Queue(t: Tid)
    | SecondLookup(t: Tid)
    | Post(t: Tid)
    | Leave(t: Tid)            // an error, or nothing left to do
    | Start(i: nat)
    | List(i: nat)
    | Finish(i: nat)
    | Fail(i: nat)
    | Delete(i: nat)
    | Tick

  function Goto(s: System, t: Tid, pc: Pc): System { s.(active := s.active[t := pc]) }

  function Exit(s: System, t: Tid): System { s.(active := s.active - {t}) }

  function SetReq(s: System, i: nat, r: Creation): System
    requires i < |s.log|
  {
    s.(log := s.log[i := r])
  }

  /** Leave with a resource, an error or a pending request; go on to create otherwise. */
  function Conclude(s: System, t: Tid, o: Outcome<()>): System {
    if GoesOnToCreate(o) then Goto(s, t, Creating) else Exit(s, t)
  }

  predicate At(s: System, t: Tid, pc: Pc) { t in s.active && s.active[t] == pc }

  predicate Enabled(c: Bounds, s: System, e: Event) {
    match e
    case Enter(t) => t !in s.active
    case FirstLookup(t) => At(s, t, Entered)
    case Queue(t) => t in s.active && s.active[t].Looked?
    case SecondLookup(t) => At(s, t, Asked)
    case Post(t) => At(s, t, Creating) && (s.log != [] ==> s.log[|s.log| - 1].at < s.now)
    case Leave(t) => t in s.active
    case Start(i) => i < |s.log| && s.log[i].status.Queued?
    case List(i) => i < |s.log| && Pending(s.log[i].status)
    case Finish(i) => i < |s.log| && Pending(s.log[i].status)
    case Fail(i) => i < |s.log| && Pending(s.log[i].status)
    case Delete(i) => i < |s.log| && !Pending(s.log[i].status)
    case Tick =>
      (forall i | 0 <= i < |s.log| && Pending(s.log[i].status) :: s.now + 1 <= s.log[i].at + c.pending) &&
      (forall t | t in s.active && s.active[t].Looked? :: s.now + 1 <= s.active[t].since + c.gap)
  }

  function Apply(c: Bounds, s: System, e: Event): System
    requires Enabled(c, s, e)
  {
    match e
    case Enter(t) => Goto(s, t, Entered)
    case FirstLookup(t) =>
      var o := AfterFirstLookup(LookUp(s));
      if o.Some? then Conclude(s, t, o.value) else Goto(s, t, Looked(s.now))
    case Queue(t) =>
      var o := AfterQueue<()>(AskQueue(s));
      if o.Some? then Conclude(s, t, o.value) else Goto(s, t, Asked)
    case SecondLookup(t) => Conclude(s, t, AfterSecondLookup(LookUp(s)))
    case Post(t) => Exit(s.(log := s.log + [Creation(s.now, Queued, false)]), t)
    case Leave(t) => Exit(s, t)
    case Start(i) => SetReq(s, i, s.log[i].(status := Running))
    case List(i) => SetReq(s, i, s.log[i].(listed := true))
    case Finish(i) => SetReq(s, i, s.log[i].(status := Done, listed := true))
    case Fail(i) => SetReq(s, i, s.log[i].(status := Failed, listed := false))
    case Delete(i) => SetReq(s, i, s.log[i].(listed := false))
    case Tick => s.(now := s.now + 1)
  }

  /** One reconcile at a time may be between Enter and leaving. */
  predicate Exclusive(s: System) {
    forall t, u | t in s.active && u in s.active :: t == u
  }

  predicate Init(s: System) { s.log == [] && s.active == map[] }

  ghost predicate Step(c: Bounds, s: System, s': System) {
    exists e :: Enabled(c, s, e) && Apply(c, s, e) == s'
  }

  // ---- what is kept ----

  /** Request times ascend, and only the newest request can be pending or have a listed resource. */
  predicate LogOk(c: Bounds, s: System) {
    && (forall i, j | 0 <= i < j < |s.log| :: s.log[i].at < s.log[j].at)
    && (forall i | 0 <= i < |s.log| ::
          && s.log[i].at <= s.now
          && (Live(s.log[i]) ==> i == |s.log| - 1)
          && (s.log[i].status.Failed? ==> !s.log[i].listed)
          && (Pending(s.log[i].status) ==> s.now <= s.log[i].at + c.pending))
  }

  /** What a reconcile has learnt stays true while the cloud moves. */
  predicate PcOk(c: Bounds, s: System, pc: Pc) {
    match pc
    case Entered => true
    case Looked(since) =>
      && since <= s.now <= since + c.gap
      && (s.log != [] && Live(s.log[|s.log| - 1]) ==> since <= s.log[|s.log| - 1].at + c.pending)
    case Asked => s.log != [] ==> !Pending(s.log[|s.log| - 1].status)
    case Creating => forall i | 0 <= i < |s.log| :: !Live(s.log[i])
  }

  predicate Inv(c: Bounds, s: System) {
    LogOk(c, s) && forall t | t in s.active :: PcOk(c, s, s.active[t])
  }

  lemma {:induction false} QueueShowsNewest(c: Bounds, s: System, n: nat)
    requires LogOk(c, s) && n <= |s.log|
    ensures AskQueueFrom(s, n) ==
      if n > 0 && Visible(s, s.log[n - 1]) then Latest(s.log[n - 1].status) else NoRequest
  {
    if n > 1 { QueueShowsNewest(c, s, n - 1); }
  }

  lemma MissingMeansUnlisted(s: System)
    ensures LookUp(s).Missing? ==> forall i | 0 <= i < |s.log| :: !s.log[i].listed
  {
    assert forall i: nat | i < |s.log| && s.log[i].listed :: i in Listed(s);
  }

  lemma CloudKeeps(c: Bounds, s: System, e: Event)
    requires BoundsOk(c) && Inv(c, s) && Enabled(c, s, e)
    requires e.Start? || e.List? || e.Finish? || e.Fail? || e.Delete? || e.Tick?
    ensures Inv(c, Apply(c, s, e))
  {
    var s' := Apply(c, s, e);
    forall t | t in s'.active ensures PcOk(c, s', s'.active[t]) {
      assert PcOk(c, s, s.active[t]);
    }
  }

  /** A reconcile may go to any place whose claim holds. */
  lemma GotoKeeps(c: Bounds, s: System, t: Tid, pc: Pc)
    requires Inv(c, s) && PcOk(c, s, pc)
    ensures Inv(c, Goto(s, t, pc))
  {
  }

  lemma ExitKeeps(c: Bounds, s: System, t: Tid)
    requires Inv(c, s)
    ensures Inv(c, Exit(s, t))
  {
  }

  lemma PostKeeps(c: Bounds, s: System, t: Tid)
    requires Inv(c, s) && Exclusive(s) && Enabled(c, s, Post(t))
    ensures Inv(c, Apply(c, s, Post(t)))
  {
    assert PcOk(c, s, s.active[t]);
    assert forall u | u in s.active :: u == t;
  }

  /** A reconcile that asks the queue in time is told of every request that matters. */
  lemma QueueKeeps(c: Bounds, s: System, t: Tid)
    requires BoundsOk(c) && Inv(c, s) && Enabled(c, s, Queue(t))
    ensures Inv(c, Apply(c, s, Queue(t)))
  {
    assert PcOk(c, s, s.active[t]);
    QueueShowsNewest(c, s, |s.log|);
    var o := AfterQueue<()>(AskQueue(s));
    if o.None? {
      GotoKeeps(c, s, t, Asked);
    } else if GoesOnToCreate(o.value) {
      GotoKeeps(c, s, t, Creating);
    } else {
      ExitKeeps(c, s, t);
    }
  }

  lemma LookupKeeps(c: Bounds, s: System, e: Event)
    requires BoundsOk(c) && Inv(c, s) && Enabled(c, s, e) && (e.FirstLookup? || e.SecondLookup?)
    ensures Inv(c, Apply(c, s, e))
  {
    assert PcOk(c, s, s.active[e.t]);
    MissingMeansUnlisted(s);
    if !LookUp(s).Missing? {
      ExitKeeps(c, s, e.t);
    } else {
      GotoKeeps(c, s, e.t, if e.FirstLookup? then Looked(s.now) else Creating);
    }
  }

  lemma ReconcileKeeps(c: Bounds, s: System, e: Event)
    requires BoundsOk(c) && Inv(c, s) && Exclusive(s) && Enabled(c, s, e)
    requires !(e.Start? || e.List? || e.Finish? || e.Fail? || e.Delete? || e.Tick?)
    ensures Inv(c, Apply(c, s, e))
  {
    match e
    case Enter(t) => GotoKeeps(c, s, t, Entered);
    case Queue(t) => QueueKeeps(c, s, t);
    case Post(t) => PostKeeps(c, s, t);
    case Leave(t) => ExitKeeps(c, s, t);
    case _ => LookupKeeps(c, s, e);
  }

  lemma StepKeeps(c: Bounds, s: System, s': System)
    requires BoundsOk(c) && Inv(c, s) && Exclusive(s) && Step(c, s, s')
    ensures Inv(c, s')
  {
    var e :| Enabled(c, s, e) && Apply(c, s, e) == s';
    if e.Start? || e.List? || e.Finish? || e.Fail? || e.Delete? || e.Tick? {
      CloudKeeps(c, s, e);
    } else {
      ReconcileKeeps(c, s, e);
    }
  }

  // ---- all runs ----

  /** A run in which reconciles of this name exclude each other. */
  ghost predicate Run(c: Bounds, b: seq<System>) {
    && |b| > 0 && Init(b[0])
    && (forall i | 0 <= i < |b| :: Exclusive(b[i]))
    && (forall i | 0 <= i < |b| - 1 :: Step(c, b[i], b[i + 1]))
  }

  ghost predicate Reachable(c: Bounds, s: System) {
    exists b :: Run(c, b) && b[|b| - 1] == s
  }

  lemma {:induction false} RunKeepsInv(c: Bounds, b: seq<System>)
    requires BoundsOk(c) && Run(c, b)
    ensures Inv(c, b[|b| - 1])
  {
    if |b| > 1 {
      var front := b[..|b| - 1];
      assert forall i | 0 <= i < |front| - 1 :: Step(c, front[i], front[i + 1]);
      RunKeepsInv(c, front);
      StepKeeps(c, b[|b| - 2], b[|b| - 1]);
    }
  }

  function LiveOnes(s: System): set<nat> {
    set i: nat | i < |s.log| && Live(s.log[i])
  }

  lemma InvMeansOne(c: Bounds, s: System)
    requires Inv(c, s)
    ensures |LiveOnes(s)| <= 1 && !LookUp(s).LookupError?
  {
    if s.log == [] {
      assert LiveOnes(s) == {} && Listed(s) == {};
    } else {
      var last: nat := |s.log| - 1;
      AtMostSingleton(LiveOnes(s), last);
      AtMostSingleton(Listed(s), last);
    }
  }

  lemma AtMostSingleton(a: set<nat>, x: nat)
    requires a <= {x}
    ensures |a| <= 1
  {
    assert a == {} || a == {x};
  }

  /** Listed resources and pending creations together never exceed one, and no lookup sees two. */
  lemma AtMostOne(c: Bounds, s: System)
    requires BoundsOk(c) && Reachable(c, s)
    ensures |LiveOnes(s)| <= 1
    ensures !LookUp(s).LookupError?
  {
    var b :| Run(c, b) && b[|b| - 1] == s;
    RunKeepsInv(c, b);
    InvMeansOne(c, s);
  }

  /**
   When findResource returns neither a resource nor a pending request, none exists, and none
   comes into being until this reconcile posts one.
   */
  lemma NothingFoundMeansNothing(c: Bounds, s: System, t: Tid)
    requires BoundsOk(c) && Reachable(c, s) && At(s, t, Creating)
    ensures LiveOnes(s) == {}
  {
    var b :| Run(c, b) && b[|b| - 1] == s;
    RunKeepsInv(c, b);
    assert PcOk(c, s, s.active[t]);
  }

  // ---- what a reconcile finds out when nothing moves meanwhile ----

  /** Its next observation, if it is still looking. */
  function NextLook(s: System, t: Tid): Option<Event> {
    if t !in s.active then None
    else match s.active[t]
      case Entered => Some(FirstLookup(t))
      case Looked(_) => Some(Queue(t))
      case Asked => Some(SecondLookup(t))
      case Creating => None
  }

  function LooksLeft(s: System, t: Tid): nat {
    if t !in s.active then 0
    else match s.active[t] case Entered => 3 case Looked(_) => 2 case Asked => 1 case Creating => 0
  }

  lemma LookingAdvances(c: Bounds, s: System, t: Tid)
    requires NextLook(s, t).Some?
    ensures Enabled(c, s, NextLook(s, t).value)
    ensures LooksLeft(Apply(c, s, NextLook(s, t).value), t) < LooksLeft(s, t)
  {
  }

  /** The reconcile looks on, undisturbed, until it leaves or is about to create. */
  ghost function LookOn(c: Bounds, s: System, t: Tid): System
    decreases LooksLeft(s, t)
  {
    if NextLook(s, t).None? then s
    else
      LookingAdvances(c, s, t);
      LookOn(c, Apply(c, s, NextLook(s, t).value), t)
  }

  lemma LiveIff(c: Bounds, s: System)
    requires LogOk(c, s)
    ensures LiveOnes(s) == {} <==> (s.log == [] || !Live(s.log[|s.log| - 1]))
    ensures LookUp(s).Missing? <==> (s.log == [] || !s.log[|s.log| - 1].listed)
  {
    if s.log != [] {
      var last: nat := |s.log| - 1;
      assert last in LiveOnes(s) <==> Live(s.log[last]);
      assert last in Listed(s) <==> s.log[last].listed;
      assert LiveOnes(s) <= {last} && Listed(s) <= {last};
      AtMostSingleton(Listed(s), last);
      assert |Listed(s)| == 0 <==> Listed(s) == {};
    } else {
      assert LiveOnes(s) == {} && Listed(s) == {};
    }
  }

  /** The second lookup, after a done request: as nothing is pending, it decides. */
  lemma SecondLookEnds(c: Bounds, s: System, t: Tid)
    requires LogOk(c, s) && At(s, t, Asked) && (s.log != [] ==> !Pending(s.log[|s.log| - 1].status))
    requires !LookUp(s).LookupError?
    ensures LookOn(c, s, t) == if LiveOnes(s) == {} then Goto(s, t, Creating) else Exit(s, t)
  {
    LiveIff(c, s);
  }

  /** The queue, asked at once after a first lookup that found nothing. */
  lemma QueueEnds(c: Bounds, s: System, t: Tid)
    requires BoundsOk(c) && LogOk(c, s) && At(s, t, Looked(s.now)) && LookUp(s).Missing?
    ensures LookOn(c, s, t) == if LiveOnes(s) == {} then Goto(s, t, Creating) else Exit(s, t)
  {
    LiveIff(c, s);
    QueueShowsNewest(c, s, |s.log|);
    var s1 := Apply(c, s, Queue(t));
    if AskQueue(s) == Latest(Done) {
      assert s1 == Goto(s, t, Asked) && LiveOnes(s1) == LiveOnes(s) && Listed(s1) == Listed(s);
      SecondLookEnds(c, s1, t);
      assert Goto(s1, t, Creating) == Goto(s, t, Creating) && Exit(s1, t) == Exit(s, t);
    }
  }

  /**
   The other half: a reconcile that is not disturbed goes on to create exactly if no resource is
   listed and no creation is pending, whatever became of earlier creations, and else it leaves.
   */
  lemma CreatesIffNothingLives(c: Bounds, s: System, t: Tid)
    requires BoundsOk(c) && Reachable(c, s) && At(s, t, Entered)
    ensures LookOn(c, s, t) == if LiveOnes(s) == {} then Goto(s, t, Creating) else Exit(s, t)
  {
    var b :| Run(c, b) && b[|b| - 1] == s;
    RunKeepsInv(c, b);
    InvMeansOne(c, s);
    LiveIff(c, s);
    if LookUp(s).Missing? {
      var s1 := Apply(c, s, FirstLookup(t));
      assert s1 == Goto(s, t, Looked(s.now)) && LiveOnes(s1) == LiveOnes(s) && Listed(s1) == Listed(s);
      QueueEnds(c, s1, t);
      assert Goto(s1, t, Creating) == Goto(s, t, Creating) && Exit(s1, t) == Exit(s, t);
    }
  }

  /** Both of two reconciles side by side go on to create. */
  lemma BothGoOnToCreate(c: Bounds) returns (b: seq<System>)
    ensures |b| == 7 && Init(b[0]) && forall i | 0 <= i < |b| - 1 :: Step(c, b[i], b[i + 1])
    ensures b[6] == System(0, [], map[0 := Creating, 1 := Creating])
  {
    var e := [Enter(0), Enter(1), FirstLookup(0), FirstLookup(1), Queue(0), Queue(1)];
    var s := pcs => System(0, [], pcs);
    b := [s(map[]), s(map[0 := Entered]), s(map[0 := Entered, 1 := Entered]), s(map[0 := Looked(0), 1 := Entered]),
          s(map[0 := Looked(0), 1 := Looked(0)]), s(map[0 := Creating, 1 := Looked(0)]),
          s(map[0 := Creating, 1 := Creating])];
    forall i | 0 <= i < 6 ensures Step(c, b[i], b[i + 1]) {
      assert Enabled(c, b[i], e[i]) && Apply(c, b[i], e[i]).active == b[i + 1].active;
    }
  }

  /** Exclusion is needed: two reconciles side by side create the resource twice. */
  lemma TwoWithoutExclusion(c: Bounds) returns (b: seq<System>)
    requires c.pending >= 1
    ensures |b| > 0 && Init(b[0]) && forall i | 0 <= i < |b| - 1 :: Step(c, b[i], b[i + 1])
    ensures |LiveOnes(b[|b| - 1])| == 2
  {
    var front := BothGoOnToCreate(c);
    var s7 := Apply(c, front[6], Post(0));
    var s8 := Apply(c, s7, Tick);
    var s9 := Apply(c, s8, Post(1));
    assert Step(c, front[6], s7) && Step(c, s7, s8) && Step(c, s8, s9);
    b := front + [s7, s8, s9];
    assert LiveOnes(s9) == {0, 1};
  }
}
