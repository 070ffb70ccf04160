/**
 The life of the address claims of one machine: passes create them, the pool provider gives them
 addresses and finalizers of its own, other machines have claims beside them, and the sweeps of the
 machine's deletion, some of them interrupted, take the machine finalizer off again.
 */
module ClaimRuns {
  import opened Base
  import opened Ipam

  /** `made` are the claims that passes of this machine created; `swept` a sweep got to its end. */
  datatype State = State(claims: Claims, made: set<string>, deleting: bool, swept: bool)

  datatype Event =
    | Pass(after: Claims)                     // ReconcileIPAddresses, whether it fails or not
    | Provide(n: string, addressRef: string)  // the provider refers the claim to an address
    | Tag(n: string, finalizers: set<string>) // somebody changes finalizers of their own
    | Other(n: string, c: Claim)              // a claim that is not of this machine
    | Vanish(n: string)                       // Kubernetes removes a claim without finalizers
    | PartSweep(after: Claims)                // a sweep that failed halfway
    | FullSweep

  ghost predicate Enabled(spec: Spec, s: State, e: Event) {
    match e
    case Pass(after) =>
      !s.deleting && Grows(s.claims, after) && NewNamesUpTo(s.claims, after, spec, NicCount(spec))
    case Provide(n, _) => n in s.claims
    case Tag(n, fs) => n in s.claims && (FINALIZER in fs <==> FINALIZER in s.claims[n].finalizers)
    case Other(n, _) => !OwnName(spec, n)
    case Vanish(n) => n in s.claims && s.claims[n].finalizers == {}
    case PartSweep(after) => PartlyReleased(spec, s.claims, after)
    case FullSweep => true
  }

  ghost function Apply(spec: Spec, s: State, e: Event): State
    requires Enabled(spec, s, e)
  {
    match e
    case Pass(after) => s.(claims := after, made := s.made + (after.Keys - s.claims.Keys))
    case Provide(n, ref) => s.(claims := s.claims[n := s.claims[n].(addressRef := ref)])
    case Tag(n, fs) => s.(claims := s.claims[n := s.claims[n].(finalizers := fs)])
    case Other(n, c) => s.(claims := s.claims[n := c])
    case Vanish(n) => s.(claims := s.claims - {n})
    case PartSweep(after) => s.(claims := after, deleting := true)
    case FullSweep => s.(claims := Sweep(spec, s.claims), deleting := true, swept := true)
  }

  /**
   What the method leaves is what a pass of a run may leave.  When it succeeds every NIC and family
   with a pool has its claim, and it fails exactly if the claims it needs do.
   */
  method PassIsEvent(h: Helper, spec: Spec, ghost s: State) returns (failed: bool, requeue: bool, ghost s': State)
    requires s.claims == h.claims && !s.deleting
    modifies h
    ensures Enabled(spec, s, Pass(h.claims)) && s' == Apply(spec, s, Pass(h.claims)) && s'.claims == h.claims
    ensures failed <==> PassFails(s.claims, h.addresses, h.fails, spec)
    ensures !failed ==> forall i: nat, f | i < NicCount(spec) && PoolOf(spec, i, f).Some? ::
      var n := ClaimName(spec, i, f); n in s'.claims && (n in s.claims || n in s'.made)
  {
    failed, requeue := h.ReconcileIPAddresses(spec);
    s' := Apply(spec, s, Pass(h.claims));
    if !failed {
      forall i: nat, f | i < NicCount(spec) && PoolOf(spec, i, f).Some?
        ensures var n := ClaimName(spec, i, f); n in s'.claims && (n in s.claims || n in s'.made)
      {
        assert Handled(h.claims, h.addresses, h.fails, ClaimName(spec, i, f));
      }
    }
  }

  /** A sweep is one of the two events, by whether it fails, and it fails exactly if a claim does. */
  method SweepIsEvent(h: Helper, spec: Spec, ghost s: State) returns (failed: bool, ghost s': State)
    requires s.claims == h.claims
    modifies h
    ensures failed <==> SweepFails(spec, s.claims, h.fails, V4) || SweepFails(spec, s.claims, h.fails, V6)
    ensures var e := if failed then PartSweep(h.claims) else FullSweep;
      Enabled(spec, s, e) && s' == Apply(spec, s, e) && s'.claims == h.claims
  {
    failed := h.ReleaseClaims(spec);
    s' := Apply(spec, s, if failed then PartSweep(h.claims) else FullSweep);
  }

  predicate Init(s: State) { s.made == {} && !s.deleting && !s.swept }

  ghost predicate Run(spec: Spec, b: seq<State>, events: seq<Event>) {
    && |b| == |events| + 1 && Init(b[0])
    && forall i | 0 <= i < |events| :: Enabled(spec, b[i], events[i]) && b[i + 1] == Apply(spec, b[i], events[i])
  }

  predicate Guarded(claims: Claims, n: string) {
    n in claims && FINALIZER in claims[n].finalizers
  }

  ghost predicate Inv(spec: Spec, s: State) {
    && (forall n | n in s.made :: OwnName(spec, n))
    && (!s.deleting ==> forall n | n in s.made :: Guarded(s.claims, n))
    && (s.swept ==> s.deleting && forall n | OwnName(spec, n) :: FreeOf(s.claims, n))
  }

  lemma PassKeeps(spec: Spec, s: State, after: Claims)
    requires Inv(spec, s) && Enabled(spec, s, Pass(after))
    ensures Inv(spec, Apply(spec, s, Pass(after)))
  {
    forall n | n in after && n !in s.claims ensures OwnName(spec, n) {
      var j: nat, f :| j < NicCount(spec) && PoolOf(spec, j, f).Some? && ClaimName(spec, j, f) == n;
    }
  }

  lemma SweepKeeps(spec: Spec, s: State, e: Event)
    requires Inv(spec, s) && Enabled(spec, s, e) && (e.PartSweep? || e.FullSweep?)
    ensures Inv(spec, Apply(spec, s, e))
  {
    var s' := Apply(spec, s, e);
    if s'.swept {
      forall n | OwnName(spec, n) ensures FreeOf(s'.claims, n) { assert e.PartSweep? ==> FreeOf(s.claims, n); }
    }
  }

  lemma StepKeeps(spec: Spec, s: State, e: Event)
    requires Inv(spec, s) && Enabled(spec, s, e)
    ensures Inv(spec, Apply(spec, s, e))
  {
    if e.Pass? {
      PassKeeps(spec, s, e.after);
    } else if e.PartSweep? || e.FullSweep? {
      SweepKeeps(spec, s, e);
    } else {
      var s' := Apply(spec, s, e);
      forall n | OwnName(spec, n) && FreeOf(s.claims, n) ensures FreeOf(s'.claims, n) {}
      forall n | n in s.made && Guarded(s.claims, n) ensures Guarded(s'.claims, n) { assert OwnName(spec, n); }
    }
  }

  lemma {:induction false} RunKeepsInv(spec: Spec, b: seq<State>, events: seq<Event>, n: nat)
    requires Run(spec, b, events) && n < |b|
    ensures Inv(spec, b[n])
  {
    if n > 0 {
      RunKeepsInv(spec, b, events, n - 1);
      StepKeeps(spec, b[n - 1], events[n - 1]);
    }
  }

  lemma {:induction false} SweptStays(spec: Spec, b: seq<State>, events: seq<Event>, m: nat, n: nat)
    requires Run(spec, b, events) && m <= n < |b| && b[m].swept
    ensures b[n].swept
  {
    if m < n { SweptStays(spec, b, events, m, n - 1); }
  }

  /** Until the machine is deleted, every claim it made is there and cannot be removed. */
  lemma MadeClaimsAreGuarded(spec: Spec, b: seq<State>, events: seq<Event>, n: nat, name: string)
    requires Run(spec, b, events) && n < |b| && !b[n].deleting && name in b[n].made
    ensures Guarded(b[n].claims, name) && !Enabled(spec, b[n], Vanish(name))
  {
    RunKeepsInv(spec, b, events, n);
  }

  /**
   After a sweep that got to its end, and ever after, no claim of the machine carries its finalizer:
   none of those its passes made, whatever address they were given, and none it found.
   */
  lemma SweptMeansReleased(spec: Spec, b: seq<State>, events: seq<Event>, m: nat, n: nat, name: string)
    requires Run(spec, b, events) && m < n < |b| && events[m].FullSweep?
    requires name in b[n].made || OwnName(spec, name)
    ensures FreeOf(b[n].claims, name)
  {
    SweptStays(spec, b, events, m + 1, n);
    RunKeepsInv(spec, b, events, n);
  }

  /** A sweep, whether it gets to its end or not, takes no claim away and changes none of others. */
  lemma SweepsSpareOthers(spec: Spec, s: State, e: Event, name: string)
    requires Enabled(spec, s, e) && (e.PartSweep? || e.FullSweep?)
    ensures name in Apply(spec, s, e).claims <==> name in s.claims
    ensures name in s.claims ==> Apply(spec, s, e).claims[name].addressRef == s.claims[name].addressRef
    ensures name in s.claims ==> forall x | x != FINALIZER ::
      x in Apply(spec, s, e).claims[name].finalizers <==> x in s.claims[name].finalizers
    ensures name in s.claims && !OwnName(spec, name) ==> Apply(spec, s, e).claims[name] == s.claims[name]
  {
  }

  /** Claims of another machine are claims of others, unless one is called like a NIC of the other. */
  lemma OtherMachinesAreOthers(spec: Spec, other: Spec, j: nat, f: Family)
    requires j < NicCount(other)
    ensures OwnName(spec, ClaimName(other, j, f)) <==> exists i: nat :: i < NicCount(spec) && SameNic(spec, i, other, j)
  {
    if OwnName(spec, ClaimName(other, j, f)) {
      var i: nat, g :| i < NicCount(spec) && ClaimName(spec, i, g) == ClaimName(other, j, f);
      ClaimNamesEqualIff(spec, i, g, other, j, f);
    }
    if i: nat :| i < NicCount(spec) && SameNic(spec, i, other, j) {
      ClaimNamesEqualIff(spec, i, f, other, j, f);
    }
  }
}
