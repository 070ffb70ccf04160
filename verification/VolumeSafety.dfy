/**
 Which volumes a machine deletion takes with it, in every run in which the cluster itself is not
 being deleted: deletion passes of one machine, split into the lookup of the server and the call
 made on what it showed, interleaved with the cloud and with volumes being attached and detached.

 A server may be listed before it shows its boot volume.
 */
module VolumeSafety {
  import opened Base

  type Volume = nat

  /** The machine's server with its boot volume, whether it shows it yet, and all attached volumes. */
  datatype Server = Server(boot: Option<Volume>, shows: bool, attached: set<Volume>)

  function ShownBoot(s: Server): Option<Volume> { if s.shows then s.boot else None }

  datatype Call = DeleteVolume(v: Volume) | DeleteServer(withVolumes: bool)

  /** deleteServer: the boot volume first, unless the whole cluster goes. */
  function CallFor(clusterDeleted: bool, seen: Server): Call {
    if !clusterDeleted && ShownBoot(seen).Some? then DeleteVolume(ShownBoot(seen).value)
    else DeleteServer(clusterDeleted)
  }

  datatype Disks = Disks(
    server: Option<Server>,
    existing: set<Volume>,
    deleted: set<Volume>,
    booted: set<Volume>,        // volumes that have been this machine's boot volume
    seen: Option<Server>,       // a pass has looked the server up and not yet made its call
    calls: seq<Call>)           // calls made and not yet carried out

  datatype Event =
    | Create(boot: Volume, shows: bool)  // the machine's one server comes into being
    | Show                      // it shows its boot volume from now on
    | NewVolume(v: Volume)
    | Attach(v: Volume)
    | Detach(v: Volume)
    | LookUp                    // a deletion pass gets the server
    | Act                       // and makes its call
    | Carry(i: nat)             // the cloud carries out a call
    | Drop(i: nat)              // or the call fails

  predicate Enabled(d: Disks, e: Event) {
    match e
    case Create(v, _) => d.booted == {} && v !in d.existing && v !in d.deleted
    case Show => d.server.Some?
    case NewVolume(v) => v !in d.existing && v !in d.deleted
    case Attach(v) => d.server.Some? && v in d.existing
    case Detach(v) => d.server.Some? && d.server.value.boot != Some(v)
    case LookUp => d.server.Some? && d.seen.None?
    case Act => d.seen.Some?
    case Carry(i) => i < |d.calls|
    case Drop(i) => i < |d.calls|
  }

  function CarryOut(d: Disks, c: Call): Disks {
    match c
    case DeleteVolume(v) =>
      d.(existing := d.existing - {v}, deleted := d.deleted + {v},
         server := if d.server.None? then None
                   else
                     var s := d.server.value;
                     Some(s.(boot := if s.boot == Some(v) then None else s.boot, attached := s.attached - {v})))
    case DeleteServer(withVolumes) =>
      if d.server.None? then d
      else if withVolumes then
        var gone := d.server.value.attached;
        d.(existing := d.existing - gone, deleted := d.deleted + gone, server := None)
      else d.(server := None)
  }

  function Apply(d: Disks, e: Event): Disks
    requires Enabled(d, e)
  {
    match e
    case Create(v, shows) =>
      d.(server := Some(Server(Some(v), shows, {v})), existing := d.existing + {v}, booted := d.booted + {v})
    case Show => d.(server := Some(d.server.value.(shows := true)))
    case NewVolume(v) => d.(existing := d.existing + {v})
    case Attach(v) => d.(server := Some(d.server.value.(attached := d.server.value.attached + {v})))
    case Detach(v) => d.(server := Some(d.server.value.(attached := d.server.value.attached - {v})))
    case LookUp => d.(seen := d.server)
    case Act => d.(seen := None, calls := d.calls + [CallFor(false, d.seen.value)])
    case Carry(i) => CarryOut(d.(calls := Without(d.calls, i)), d.calls[i])
    case Drop(i) => d.(calls := Without(d.calls, i))
  }

  predicate Init(d: Disks) {
    d.server.None? && d.seen.None? && d.calls == [] && d.deleted == {} && d.booted == {}
  }

  ghost predicate Run(b: seq<Disks>, events: seq<Event>) {
    && |b| == |events| + 1 && Init(b[0])
    && forall i | 0 <= i < |events| :: Enabled(b[i], events[i]) && b[i + 1] == Apply(b[i], events[i])
  }

  /**
   If the cluster goes, the server goes at once with all volumes attached to it, whether it shows its
   boot volume or not, and with no others.
   */
  lemma ClusterDeletionTakesAll(d: Disks, seen: Server)
    requires d.server.Some?
    ensures var d' := CarryOut(d, CallFor(true, seen));
      && d'.server.None?
      && forall v :: v in d'.existing <==> v in d.existing && v !in d.server.value.attached
  {
  }

  // ---- what every run keeps: only boot volumes are deleted ----

  predicate BootOnly(d: Disks, c: Call) {
    match c
    case DeleteVolume(v) => v in d.booted
    case DeleteServer(withVolumes) => !withVolumes
  }

  predicate BootIsOwn(d: Disks, s: Option<Server>) {
    s.Some? && s.value.boot.Some? ==> s.value.boot.value in d.booted
  }

  predicate Safe(d: Disks) {
    && d.deleted <= d.booted
    && BootIsOwn(d, d.server) && BootIsOwn(d, d.seen)
    && forall c | c in d.calls :: BootOnly(d, c)
  }

  lemma StepIsSafe(d: Disks, e: Event)
    requires Safe(d) && Enabled(d, e)
    ensures Safe(Apply(d, e))
    ensures d.existing <= Apply(d, e).existing + Apply(d, e).booted && d.booted <= Apply(d, e).booted
  {
    var d' := Apply(d, e);
    forall c | c in d'.calls ensures BootOnly(d', c) { assert c in d.calls ==> BootOnly(d, c); }
    if e.Carry? { assert BootOnly(d, d.calls[e.i]); }
  }

  lemma {:induction false} RunIsSafe(b: seq<Disks>, events: seq<Event>, n: nat)
    requires Run(b, events) && n < |b|
    ensures Safe(b[n])
  {
    if n > 0 {
      RunIsSafe(b, events, n - 1);
      StepIsSafe(b[n - 1], events[n - 1]);
    }
  }

  /** Only boot volumes of this machine are ever deleted, so all others that existed still exist. */
  lemma {:induction false} OnlyBootVolumesGo(b: seq<Disks>, events: seq<Event>, m: nat, n: nat)
    requires Run(b, events) && m <= n < |b|
    ensures b[n].deleted <= b[n].booted
    ensures b[m].existing - b[n].booted <= b[n].existing
  {
    RunIsSafe(b, events, n);
    if m < n {
      OnlyBootVolumesGo(b, events, m, n - 1);
      RunIsSafe(b, events, n - 1);
      StepIsSafe(b[n - 1], events[n - 1]);
    }
  }

  // ---- what runs keep in which no pass comes too early: no boot volume is left behind ----

  /** A pass does not look the server up before it shows its boot volume. */
  predicate Prompt(d: Disks, e: Event)
    requires Enabled(d, e)
  {
    e.LookUp? ==> d.server.value.shows
  }

  ghost predicate PromptRun(b: seq<Disks>, events: seq<Event>) {
    Run(b, events) && forall i | 0 <= i < |events| :: Prompt(b[i], events[i])
  }

  predicate NoBoot(d: Disks) { d.server.None? || d.server.value.boot.None? }

  predicate CallOk(d: Disks, c: Call) {
    c.DeleteServer? ==> !c.withVolumes && d.booted != {} && NoBoot(d)
  }

  predicate Inv(d: Disks) {
    && (d.booted == {} ==> d.calls == [] && d.seen.None?)
    && (d.server.Some? ==> d.booted != {})
    && (d.server.Some? && !d.server.value.shows ==> d.calls == [] && d.seen.None?)
    && (forall v | v in d.booted :: v in d.deleted || (d.server.Some? && d.server.value.boot == Some(v)))
    && (d.seen.Some? ==> CallOk(d, CallFor(false, d.seen.value)))
    && (forall c | c in d.calls :: CallOk(d, c))
  }

  lemma CarryKeeps(d: Disks, c: Call)
    requires Inv(d) && CallOk(d, c) && d.booted != {} && (d.server.Some? ==> d.server.value.shows)
    ensures Inv(CarryOut(d, c))
  {
    var d' := CarryOut(d, c);
    forall x | x in d'.calls ensures CallOk(d', x) { assert CallOk(d, x); }
  }

  lemma FewerCallsKeep(d: Disks, i: nat)
    requires Inv(d) && i < |d.calls|
    ensures Inv(d.(calls := Without(d.calls, i)))
  {
    var d' := d.(calls := Without(d.calls, i));
    forall c | c in d'.calls ensures CallOk(d', c) { assert c in d.calls && CallOk(d, c); }
  }

  lemma StepKeeps(d: Disks, e: Event)
    requires Inv(d) && Enabled(d, e) && Prompt(d, e)
    ensures Inv(Apply(d, e))
  {
    if e.Carry? {
      FewerCallsKeep(d, e.i);
      assert CallOk(d, d.calls[e.i]);
      CarryKeeps(d.(calls := Without(d.calls, e.i)), d.calls[e.i]);
    } else if e.Drop? {
      FewerCallsKeep(d, e.i);
    } else {
      var d' := Apply(d, e);
      forall c | c in d'.calls ensures CallOk(d', c) { assert c in d.calls ==> CallOk(d, c); }
    }
  }

  lemma {:induction false} RunKeepsInv(b: seq<Disks>, events: seq<Event>, n: nat)
    requires PromptRun(b, events) && n < |b|
    ensures Inv(b[n])
  {
    if n > 0 {
      RunKeepsInv(b, events, n - 1);
      StepKeeps(b[n - 1], events[n - 1]);
    }
  }

  /** The volume exists, the server is gone, and nothing will ever ask for the volume's deletion. */
  predicate Orphaned(d: Disks, v: Volume) {
    v in d.booted && v in d.existing && v !in d.deleted && d.server.None? && d.seen.None? &&
    forall c | c in d.calls :: c != DeleteVolume(v)
  }

  /**
   Besides, if no pass comes too early, a server deletion is called for only when the server has no
   boot volume any more, and once the server is gone no boot volume of it is left.
   */
  lemma VolumesAreSafe(b: seq<Disks>, events: seq<Event>, n: nat)
    requires PromptRun(b, events) && n < |b|
    ensures n < |events| && events[n].Act? && CallFor(false, b[n].seen.value).DeleteServer? ==> NoBoot(b[n])
    ensures b[n].server.None? ==> b[n].booted <= b[n].deleted
    ensures forall v :: !Orphaned(b[n], v)
  {
    RunKeepsInv(b, events, n);
  }

  // ---- and a pass that comes too early can leave one behind ----

  ghost predicate Continues(b: seq<Disks>, events: seq<Event>) {
    && |b| == |events| + 1
    && forall i | 0 <= i < |events| :: Enabled(b[i], events[i]) && b[i + 1] == Apply(b[i], events[i])
  }

  /**
   Being prompt is needed: after any prompt run, if a pass can look up the server before it shows its
   boot volume, the run can go on to orphan that volume, and it stays orphaned.
   */
  lemma EarlyLookOrphans(b: seq<Disks>, events: seq<Event>) returns (more: seq<Disks>, v: Volume)
    requires PromptRun(b, events) && Enabled(b[|b| - 1], LookUp) && !Prompt(b[|b| - 1], LookUp)
    ensures Continues(more, [LookUp, Act, Carry(0)]) && more[0] == b[|b| - 1] && Orphaned(more[3], v)
  {
    var d := b[|b| - 1];
    RunKeepsInv(b, events, |b| - 1);
    RunIsSafe(b, events, |b| - 1);
    BootStaysUntilShown(b, events, |b| - 1);
    v := d.server.value.boot.value;
    var d1 := Apply(d, LookUp);
    var d2 := Apply(d1, Act);
    assert d2.calls == [DeleteServer(false)];
    more := [d, d1, d2, Apply(d2, Carry(0))];
  }

  /** A server that does not show its boot volume yet has it. */
  lemma {:induction false} BootStaysUntilShown(b: seq<Disks>, events: seq<Event>, n: nat)
    requires PromptRun(b, events) && n < |b| && b[n].server.Some? && !b[n].server.value.shows
    ensures var boot := b[n].server.value.boot; boot.Some? && boot.value in b[n].existing && boot.value !in b[n].deleted
  {
    if n > 0 {
      RunKeepsInv(b, events, n - 1);
      var e := events[n - 1];
      if !e.Create? {
        assert b[n - 1].server.Some? && !b[n - 1].server.value.shows;
        BootStaysUntilShown(b, events, n - 1);
      }
    }
  }

  lemma OrphanStays(d: Disks, v: Volume, e: Event)
    requires Orphaned(d, v) && Enabled(d, e)
    ensures Orphaned(Apply(d, e), v)
  {
    var d' := Apply(d, e);
    if e.Carry? { assert d.calls[e.i] in d.calls; }
    assert forall c | c in d'.calls :: c in d.calls;
  }

  /** Such a state is reached: a creation is listed and deleted before it shows its volume. */
  lemma EarlyLookHappens(v: Volume) returns (b: seq<Disks>, events: seq<Event>)
    ensures PromptRun(b, events) && Enabled(b[|b| - 1], LookUp) && !Prompt(b[|b| - 1], LookUp)
  {
    var d := Disks(None, {}, {}, {}, None, []);
    events := [Create(v, false)];
    b := [d, Apply(d, events[0])];
  }
}
