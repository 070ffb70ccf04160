/**
 Addresses from IP pools: claims per NIC and address family, their resolution before the server is
 built, and their release (internal/service/k8s/ipam.go and buildServerEntities of the cloud service).
 */
module Ipam {
  import opened Base

  const FINALIZER := "ionoscloudmachine.infrastructure.cluster.x-k8s.io"

  datatype Family = V4 | V6

  /** A pool reference; creating a claim needs its API group. */
  datatype Pool = Pool(hasGroup: bool)

  datatype Pools = Pools(v4: Option<Pool>, v6: Option<Pool>)

  datatype Network = Network(id: nat, pools: Pools)

  datatype Spec = Spec(machine: string, primary: Pools, additional: seq<Network>)

  function NicCount(spec: Spec): nat { 1 + |spec.additional| }

  function PoolOf(spec: Spec, i: nat, f: Family): Option<Pool>
    requires i < NicCount(spec)
  {
    var pools := if i == 0 then spec.primary else spec.additional[i - 1].pools;
    if f.V4? then pools.v4 else pools.v6
  }

  // ---- names ----

  function Digit(n: nat): char
    requires n < 10
  {
    "0123456789"[n]
  }

  function Decimal(n: nat): (r: string)
    ensures |r| >= if n < 10 then 1 else 2
  {
    if n < 10 then [Digit(n)] else Decimal(n / 10) + [Digit(n % 10)]
  }

  function NicName(spec: Spec, i: nat): string
    requires i < NicCount(spec)
  {
    "nic-" + spec.machine + if i == 0 then "" else "-" + Decimal(spec.additional[i - 1].id)
  }

  function Format(f: Family): string { if f.V4? then "ipv4" else "ipv6" }

  function ClaimName(spec: Spec, i: nat, f: Family): string
    requires i < NicCount(spec)
  {
    NicName(spec, i) + "-" + Format(f)
  }

  /** A claim name of this machine. */
  ghost predicate OwnName(spec: Spec, name: string) {
    exists i: nat, f :: i < NicCount(spec) && ClaimName(spec, i, f) == name
  }

  function DigitValue(c: char): nat { if '0' <= c <= '9' then (c as int - '0' as int) as nat else 0 }

  /** What a string of digits stands for. */
  function Value(s: string): nat {
    if s == "" then 0 else 10 * Value(s[..|s| - 1]) + DigitValue(s[|s| - 1])
  }

  /** Reading what was written gives the number back, and it is written without leading zeros. */
  lemma {:induction false} DecimalRoundTrip(n: nat)
    ensures Value(Decimal(n)) == n && (n > 0 ==> Decimal(n)[0] != '0')
    ensures forall i | 0 <= i < |Decimal(n)| :: '0' <= Decimal(n)[i] <= '9'
  {
    var s := Decimal(n);
    assert s[|s| - 1] == Digit(n % 10);
    if n < 10 {
      assert s[..0] == "";
    } else {
      DecimalRoundTrip(n / 10);
      assert s[..|s| - 1] == Decimal(n / 10);
      assert s[0] == Decimal(n / 10)[0];
    }
  }

  lemma DecimalInjective(a: nat, b: nat)
    requires Decimal(a) == Decimal(b)
    ensures a == b
  {
    DecimalRoundTrip(a);
    DecimalRoundTrip(b);
  }

  predicate DistinctNetworks(spec: Spec) {
    forall i, j | 0 <= i < j < |spec.additional| :: spec.additional[i].id != spec.additional[j].id
  }

  lemma NicNamesDistinct(spec: Spec, i: nat, j: nat)
    requires DistinctNetworks(spec) && i < NicCount(spec) && j < NicCount(spec) && NicName(spec, i) == NicName(spec, j)
    ensures i == j
  {
    var base := "nic-" + spec.machine;
    var x, y := NicName(spec, i)[|base|..], NicName(spec, j)[|base|..];
    assert x == if i == 0 then "" else "-" + Decimal(spec.additional[i - 1].id);
    assert y == if j == 0 then "" else "-" + Decimal(spec.additional[j - 1].id);
    if i > 0 && j > 0 {
      assert x[1..] == Decimal(spec.additional[i - 1].id) && y[1..] == Decimal(spec.additional[j - 1].id);
      DecimalInjective(spec.additional[i - 1].id, spec.additional[j - 1].id);
    }
  }

  /** With distinct networks, each NIC and family of a machine has a claim of its own. */
  lemma ClaimNamesDistinct(spec: Spec, i: nat, f: Family, j: nat, g: Family)
    requires DistinctNetworks(spec) && i < NicCount(spec) && j < NicCount(spec)
    requires ClaimName(spec, i, f) == ClaimName(spec, j, g)
    ensures i == j && f == g
  {
    var x, y := ClaimName(spec, i, f), ClaimName(spec, j, g);
    assert x[|x| - 1] == Format(f)[3] && y[|y| - 1] == Format(g)[3];
    assert x[..|x| - 5] == NicName(spec, i) && y[..|y| - 5] == NicName(spec, j);
    NicNamesDistinct(spec, i, j);
  }

  // ---- names across machines ----

  lemma {:induction false} DecimalHasNoDash(n: nat)
    ensures '-' !in Decimal(n)
  {
    if n >= 10 { DecimalHasNoDash(n / 10); }
  }

  /** The last dash splits a string in one way only. */
  lemma LastDashSplits(a: string, x: string, b: string, y: string)
    requires '-' !in x && '-' !in y && a + "-" + x == b + "-" + y
    ensures a == b && x == y
  {
    var s := a + "-" + x;
    assert s[|a|] == '-' && s[|b|] == '-';
    assert forall i | |a| < i < |s| :: s[i] == x[i - |a| - 1];
    assert forall i | |b| < i < |s| :: s[i] == y[i - |b| - 1];
    assert |a| == |b|;
    assert a == s[..|a|] && b == s[..|b|] && x == s[|a| + 1..] && y == s[|b| + 1..];
  }

  /** One machine is called like an additional NIC of the other. */
  predicate NamedAfterNic(s: Spec, i: nat, t: Spec, j: nat)
    requires i < NicCount(s)
  {
    i > 0 && j == 0 && t.machine == s.machine + "-" + Decimal(s.additional[i - 1].id)
  }

  /** When NIC `i` of one machine and NIC `j` of another have one name. */
  predicate SameNic(s: Spec, i: nat, t: Spec, j: nat)
    requires i < NicCount(s) && j < NicCount(t)
  {
    || (i == 0 && j == 0 && s.machine == t.machine)
    || (i > 0 && j > 0 && s.machine == t.machine && s.additional[i - 1].id == t.additional[j - 1].id)
    || NamedAfterNic(s, i, t, j)
    || NamedAfterNic(t, j, s, i)
  }

  lemma NicNameTail(spec: Spec, i: nat)
    requires i < NicCount(spec)
    ensures NicName(spec, i)[4..] ==
      if i == 0 then spec.machine else spec.machine + "-" + Decimal(spec.additional[i - 1].id)
  {
  }

  lemma NicNamesEqualIff(s: Spec, i: nat, t: Spec, j: nat)
    requires i < NicCount(s) && j < NicCount(t)
    ensures NicName(s, i) == NicName(t, j) <==> SameNic(s, i, t, j)
  {
    var x, y := NicName(s, i)[4..], NicName(t, j)[4..];
    NicNameTail(s, i);
    NicNameTail(t, j);
    assert NicName(s, i) == "nic-" + x && NicName(t, j) == "nic-" + y;
    if i > 0 && j > 0 {
      var m, n := s.additional[i - 1].id, t.additional[j - 1].id;
      DecimalHasNoDash(m);
      DecimalHasNoDash(n);
      if x == y {
        LastDashSplits(s.machine, Decimal(m), t.machine, Decimal(n));
        DecimalInjective(m, n);
      }
    }
  }

  lemma ClaimNameParts(s: Spec, i: nat, f: Family)
    requires i < NicCount(s)
    ensures var x := ClaimName(s, i, f); |x| >= 5 && x[..|x| - 5] == NicName(s, i) && x[|x| - 5..] == "-" + Format(f)
  {
  }

  /**
   Exactly when two machines share a claim: for the same family, if they are the same machine and
   NIC, or one of them is called like an additional NIC of the other.
   */
  lemma ClaimNamesEqualIff(s: Spec, i: nat, f: Family, t: Spec, j: nat, g: Family)
    requires i < NicCount(s) && j < NicCount(t)
    ensures ClaimName(s, i, f) == ClaimName(t, j, g) <==> f == g && SameNic(s, i, t, j)
  {
    ClaimNameParts(s, i, f);
    ClaimNameParts(t, j, g);
    NicNamesEqualIff(s, i, t, j);
    assert f != g ==> Format(f)[3] != Format(g)[3];
    assert f != g ==> ("-" + Format(f))[4] != ("-" + Format(g))[4];
  }

  /** It does happen: "m" with network 7 and "m-7". */
  lemma ClaimNamesCollide(f: Family) returns (s: Spec, t: Spec)
    ensures s.machine != t.machine && NicCount(s) == 2 && ClaimName(s, 1, f) == ClaimName(t, 0, f)
  {
    s := Spec("m", Pools(None, None), [Network(7, Pools(None, None))]);
    t := Spec("m-7", Pools(None, None), []);
    ClaimNamesEqualIff(s, 1, f, t, 0, f);
  }

  // ---- claims and addresses ----

  datatype Claim = Claim(addressRef: string, finalizers: set<string>)

  type Claims = map<string, Claim>

  /** The address a claim has been given, empty as long as there is none. */
  function Resolve(claims: Claims, addresses: map<string, string>, name: string): string {
    if name in claims && claims[name].addressRef != "" && claims[name].addressRef in addresses
    then addresses[claims[name].addressRef] else ""
  }

  datatype NicInfo = NicInfo(primary: bool, v4: seq<string>, v6: seq<string>)

  /** The addresses of NIC `i`: none without a pool or as long as the claim is unresolved. */
  function AddressesOf(claims: Claims, addresses: map<string, string>, spec: Spec, i: nat, f: Family): seq<string>
    requires i < NicCount(spec)
  {
    if PoolOf(spec, i, f).None? then []
    else
      var ip := Resolve(claims, addresses, ClaimName(spec, i, f));
      if ip == "" then [] else [ip]
  }

  function InfoOf(claims: Claims, addresses: map<string, string>, spec: Spec, i: nat): NicInfo
    requires i < NicCount(spec)
  {
    NicInfo(i == 0, AddressesOf(claims, addresses, spec, i, V4), AddressesOf(claims, addresses, spec, i, V6))
  }

  predicate Unresolved(claims: Claims, addresses: map<string, string>, spec: Spec, i: nat, f: Family)
    requires i < NicCount(spec)
  {
    PoolOf(spec, i, f).Some? && Resolve(claims, addresses, ClaimName(spec, i, f)) == ""
  }

  predicate NicWaits(claims: Claims, addresses: map<string, string>, spec: Spec, i: nat)
    requires i < NicCount(spec)
  {
    Unresolved(claims, addresses, spec, i, V4) || Unresolved(claims, addresses, spec, i, V6)
  }

  /** An address of one of the first `n` NICs is still waited for. */
  predicate WaitingUpTo(claims: Claims, addresses: map<string, string>, spec: Spec, n: nat)
    requires n <= NicCount(spec)
  {
    exists i: nat :: i < n && NicWaits(claims, addresses, spec, i)
  }

  predicate Waiting(claims: Claims, addresses: map<string, string>, spec: Spec) {
    WaitingUpTo(claims, addresses, spec, NicCount(spec))
  }

  lemma WaitingGrows(claims: Claims, addresses: map<string, string>, spec: Spec, i: nat)
    requires i < NicCount(spec)
    ensures WaitingUpTo(claims, addresses, spec, i + 1) <==>
      WaitingUpTo(claims, addresses, spec, i) || NicWaits(claims, addresses, spec, i)
  {
    if WaitingUpTo(claims, addresses, spec, i) {
      var j: nat :| j < i && NicWaits(claims, addresses, spec, j);
      assert j < i + 1 && NicWaits(claims, addresses, spec, j);
    }
  }

  /** Without waiting, each NIC and family has exactly one address if it has a pool, and else none. */
  lemma ResolvedExactly(claims: Claims, addresses: map<string, string>, spec: Spec, i: nat, f: Family)
    requires !Waiting(claims, addresses, spec) && i < NicCount(spec)
    ensures |AddressesOf(claims, addresses, spec, i, f)| == if PoolOf(spec, i, f).Some? then 1 else 0
    ensures PoolOf(spec, i, f).Some? ==>
      AddressesOf(claims, addresses, spec, i, f) == [Resolve(claims, addresses, ClaimName(spec, i, f))]
  {
    assert !NicWaits(claims, addresses, spec, i);
  }

  /** Which calls to the Kubernetes API fail. */
  datatype Failures = Failures(get: set<string>, create: set<string>, address: set<string>, update: set<string>)

  datatype Result = Err | Ok(ip: string)

  /** The claims only grow, by claims without an address that carry the machine finalizer. */
  ghost predicate Grows(before: Claims, after: Claims) {
    && (forall n | n in before :: n in after && after[n] == before[n])
    && (forall n | n in after && n !in before :: after[n] == Claim("", {FINALIZER}))
  }

  lemma GrowthResolvesNothing(before: Claims, after: Claims, addresses: map<string, string>, name: string)
    requires Grows(before, after)
    ensures Resolve(after, addresses, name) == Resolve(before, addresses, name)
  {
  }

  /** Claims created in this pass change nothing for any NIC. */
  lemma GrowthIsInvisible(before: Claims, after: Claims, addresses: map<string, string>, spec: Spec, i: nat)
    requires Grows(before, after) && i < NicCount(spec)
    ensures InfoOf(after, addresses, spec, i) == InfoOf(before, addresses, spec, i)
    ensures NicWaits(after, addresses, spec, i) == NicWaits(before, addresses, spec, i)
  {
    GrowthResolvesNothing(before, after, addresses, ClaimName(spec, i, V4));
    GrowthResolvesNothing(before, after, addresses, ClaimName(spec, i, V6));
  }

  // ---- what fails ----

  /** The claim cannot be read, or not be created, or its address not be read. */
  predicate AddressFails(claims: Claims, addresses: map<string, string>, fails: Failures, name: string, pool: Pool) {
    || name in fails.get
    || (name !in claims && (!pool.hasGroup || name in fails.create))
    || (name in claims && claims[name].addressRef != "" &&
        (claims[name].addressRef in fails.address || claims[name].addressRef !in addresses))
  }

  predicate FamilyFails(claims: Claims, addresses: map<string, string>, fails: Failures, spec: Spec, i: nat, f: Family)
    requires i < NicCount(spec)
  {
    PoolOf(spec, i, f).Some? && AddressFails(claims, addresses, fails, ClaimName(spec, i, f), PoolOf(spec, i, f).value)
  }

  predicate NicFails(claims: Claims, addresses: map<string, string>, fails: Failures, spec: Spec, i: nat)
    requires i < NicCount(spec)
  {
    FamilyFails(claims, addresses, fails, spec, i, V4) || FamilyFails(claims, addresses, fails, spec, i, V6)
  }

  /** No NIC before `i` asks for the same claim; a second one finds what the first one made. */
  predicate FirstOfName(spec: Spec, i: nat, f: Family)
    requires i < NicCount(spec)
  {
    forall j: nat | j < i && PoolOf(spec, j, f).Some? :: ClaimName(spec, j, f) != ClaimName(spec, i, f)
  }

  predicate FailsAt(claims: Claims, addresses: map<string, string>, fails: Failures, spec: Spec, i: nat, f: Family)
    requires i < NicCount(spec)
  {
    FirstOfName(spec, i, f) && FamilyFails(claims, addresses, fails, spec, i, f)
  }

  /** A pass fails because of one of the claims it needs, in the state they were in before it. */
  predicate PassFails(claims: Claims, addresses: map<string, string>, fails: Failures, spec: Spec) {
    exists i: nat, f :: i < NicCount(spec) && FailsAt(claims, addresses, fails, spec, i, f)
  }

  /** What a NIC that has been dealt with leaves: a claim that can be read, and its address if it has one. */
  predicate Handled(claims: Claims, addresses: map<string, string>, fails: Failures, name: string) {
    && name in claims && name !in fails.get
    && (claims[name].addressRef != "" ==>
          claims[name].addressRef !in fails.address && claims[name].addressRef in addresses)
  }

  ghost predicate HandledUpTo(claims: Claims, addresses: map<string, string>, fails: Failures, spec: Spec, n: nat)
    requires n <= NicCount(spec)
  {
    forall j: nat, f | j < n && PoolOf(spec, j, f).Some? :: Handled(claims, addresses, fails, ClaimName(spec, j, f))
  }

  /** A claim name of one of the first `n` NICs. */
  ghost predicate NameUpTo(spec: Spec, n: nat, name: string)
    requires n <= NicCount(spec)
  {
    exists j: nat, f :: j < n && PoolOf(spec, j, f).Some? && ClaimName(spec, j, f) == name
  }

  /** Whether NIC `i` fails can be told from the claims before the pass. */
  lemma FailureWasForeseeable(before: Claims, now: Claims, addresses: map<string, string>, fails: Failures,
                              spec: Spec, i: nat, f: Family)
    requires i < NicCount(spec) && Grows(before, now) && HandledUpTo(now, addresses, fails, spec, i)
    requires forall n | n in now && n !in before :: NameUpTo(spec, i, n)
    ensures FamilyFails(now, addresses, fails, spec, i, f) <==> FailsAt(before, addresses, fails, spec, i, f)
  {
    var name := ClaimName(spec, i, f);
    if FirstOfName(spec, i, f) {
      if name in now && name !in before {
        var j: nat, g :| j < i && PoolOf(spec, j, g).Some? && ClaimName(spec, j, g) == name;
        ClaimNamesEqualIff(spec, j, g, spec, i, f);
      }
    } else {
      var j: nat :| j < i && PoolOf(spec, j, f).Some? && ClaimName(spec, j, f) == name;
      assert Handled(now, addresses, fails, name);
    }
  }

  /** The first NIC that asks for the claim of NIC `i`. */
  lemma {:induction false} FirstAsker(spec: Spec, i: nat, f: Family) returns (j: nat)
    requires i < NicCount(spec) && PoolOf(spec, i, f).Some?
    ensures j <= i && PoolOf(spec, j, f).Some? && FirstOfName(spec, j, f)
    ensures ClaimName(spec, j, f) == ClaimName(spec, i, f)
  {
    j := i;
    if !FirstOfName(spec, i, f) {
      var k: nat :| k < i && PoolOf(spec, k, f).Some? && ClaimName(spec, k, f) == ClaimName(spec, i, f);
      j := FirstAsker(spec, k, f);
    }
  }

  /** Each NIC and family has exactly one address if it has a pool, and else none. */
  predicate AllResolved(claims: Claims, addresses: map<string, string>, spec: Spec) {
    forall i: nat, f | i < NicCount(spec) ::
      |AddressesOf(claims, addresses, spec, i, f)| == if PoolOf(spec, i, f).Some? then 1 else 0
  }

  lemma WaitingIff(claims: Claims, addresses: map<string, string>, spec: Spec)
    ensures !Waiting(claims, addresses, spec) <==> AllResolved(claims, addresses, spec)
  {
    if AllResolved(claims, addresses, spec) {
      forall i: nat | i < NicCount(spec) ensures !NicWaits(claims, addresses, spec, i) {
        assert |AddressesOf(claims, addresses, spec, i, V4)| == if PoolOf(spec, i, V4).Some? then 1 else 0;
        assert |AddressesOf(claims, addresses, spec, i, V6)| == if PoolOf(spec, i, V6).Some? then 1 else 0;
      }
    } else {
      var i: nat, f :| i < NicCount(spec) &&
        |AddressesOf(claims, addresses, spec, i, f)| != if PoolOf(spec, i, f).Some? then 1 else 0;
      assert NicWaits(claims, addresses, spec, i);
    }
  }

  /**
   A pass neither fails nor waits exactly if all pool addresses are resolved and every claim and
   address of the machine can be read.
   */
  lemma PassesIff(claims: Claims, addresses: map<string, string>, fails: Failures, spec: Spec)
    ensures (!PassFails(claims, addresses, fails, spec) && !Waiting(claims, addresses, spec)) <==>
      (AllResolved(claims, addresses, spec) && HandledUpTo(claims, addresses, fails, spec, NicCount(spec)))
  {
    WaitingIff(claims, addresses, spec);
    if HandledUpTo(claims, addresses, fails, spec, NicCount(spec)) {
      assert !PassFails(claims, addresses, fails, spec);
    }
    if !PassFails(claims, addresses, fails, spec) && !Waiting(claims, addresses, spec) {
      forall i: nat, f | i < NicCount(spec) && PoolOf(spec, i, f).Some?
        ensures Handled(claims, addresses, fails, ClaimName(spec, i, f))
      {
        ResolvedExactly(claims, addresses, spec, i, f);
        var j := FirstAsker(spec, i, f);
        assert !FailsAt(claims, addresses, fails, spec, j, f);
      }
    }
  }

  // ---- a pass over all NICs ----

  /** What is known when the first `n` NICs have been dealt with without a failure. */
  ghost predicate Progress(before: Claims, now: Claims, addresses: map<string, string>, fails: Failures,
                           spec: Spec, nics: seq<NicInfo>, requeue: bool)
  {
    && |nics| <= NicCount(spec) && Grows(before, now)
    && HandledUpTo(now, addresses, fails, spec, |nics|)
    && NewNamesUpTo(before, now, spec, |nics|)
    && Records(before, addresses, spec, nics, requeue)
    && NoFailureUpTo(before, addresses, fails, spec, |nics|)
  }

  predicate Records(claims: Claims, addresses: map<string, string>, spec: Spec, nics: seq<NicInfo>, requeue: bool)
    requires |nics| <= NicCount(spec)
  {
    && (forall j | 0 <= j < |nics| :: nics[j] == InfoOf(claims, addresses, spec, j))
    && requeue == WaitingUpTo(claims, addresses, spec, |nics|)
  }

  ghost predicate NewNamesUpTo(before: Claims, now: Claims, spec: Spec, n: nat)
    requires n <= NicCount(spec)
  {
    forall m | m in now && m !in before :: NameUpTo(spec, n, m)
  }

  ghost predicate NoFailureUpTo(claims: Claims, addresses: map<string, string>, fails: Failures, spec: Spec, n: nat)
    requires n <= NicCount(spec)
  {
    forall j: nat, f | j < n :: !FailsAt(claims, addresses, fails, spec, j, f)
  }

  /** A NIC that fails makes the pass one that was bound to fail. */
  lemma ProgressStops(before: Claims, now: Claims, addresses: map<string, string>, fails: Failures,
                      spec: Spec, nics: seq<NicInfo>, requeue: bool)
    requires Progress(before, now, addresses, fails, spec, nics, requeue)
    requires |nics| < NicCount(spec) && NicFails(now, addresses, fails, spec, |nics|)
    ensures PassFails(before, addresses, fails, spec)
  {
    FailureWasForeseeable(before, now, addresses, fails, spec, |nics|, V4);
    FailureWasForeseeable(before, now, addresses, fails, spec, |nics|, V6);
  }

  lemma NamesGrow(before: Claims, now: Claims, next: Claims, spec: Spec, n: nat)
    requires n < NicCount(spec) && NewNamesUpTo(before, now, spec, n) && NewNamesUpTo(now, next, spec, n + 1)
    ensures NewNamesUpTo(before, next, spec, n + 1)
  {
    forall m | m in next && m !in before ensures NameUpTo(spec, n + 1, m) {
      if m in now {
        var j: nat, f :| j < n && PoolOf(spec, j, f).Some? && ClaimName(spec, j, f) == m;
        assert j < n + 1 && PoolOf(spec, j, f).Some? && ClaimName(spec, j, f) == m;
      }
    }
  }

  lemma FailedNamesStay(before: Claims, now: Claims, next: Claims, spec: Spec, n: nat)
    requires n < NicCount(spec) && Grows(before, now) && Grows(now, next)
    requires NewNamesUpTo(before, now, spec, n) && NewNamesUpTo(now, next, spec, n + 1)
    ensures Grows(before, next) && NewNamesUpTo(before, next, spec, NicCount(spec))
  {
    NamesGrow(before, now, next, spec, n);
    forall m | m in next && m !in before ensures NameUpTo(spec, NicCount(spec), m) {
      var j: nat, f :| j < n + 1 && PoolOf(spec, j, f).Some? && ClaimName(spec, j, f) == m;
      assert j < NicCount(spec) && PoolOf(spec, j, f).Some? && ClaimName(spec, j, f) == m;
    }
  }

  lemma HandledGrows(now: Claims, next: Claims, addresses: map<string, string>, fails: Failures, spec: Spec, n: nat)
    requires n < NicCount(spec) && Grows(now, next) && HandledUpTo(now, addresses, fails, spec, n)
    requires forall f | PoolOf(spec, n, f).Some? :: Handled(next, addresses, fails, ClaimName(spec, n, f))
    ensures HandledUpTo(next, addresses, fails, spec, n + 1)
  {
    forall j: nat, f | j < n + 1 && PoolOf(spec, j, f).Some?
      ensures Handled(next, addresses, fails, ClaimName(spec, j, f))
    {
      if j < n { assert Handled(now, addresses, fails, ClaimName(spec, j, f)); }
    }
  }

  lemma NoFailureGrows(before: Claims, now: Claims, addresses: map<string, string>, fails: Failures, spec: Spec, n: nat)
    requires n < NicCount(spec) && Grows(before, now) && HandledUpTo(now, addresses, fails, spec, n)
    requires NewNamesUpTo(before, now, spec, n) && NoFailureUpTo(before, addresses, fails, spec, n)
    requires !NicFails(now, addresses, fails, spec, n)
    ensures NoFailureUpTo(before, addresses, fails, spec, n + 1)
  {
    forall j: nat, f | j < n + 1 ensures !FailsAt(before, addresses, fails, spec, j, f) {
      if j == n { FailureWasForeseeable(before, now, addresses, fails, spec, n, f); }
    }
  }

  lemma RecordsGrow(before: Claims, now: Claims, addresses: map<string, string>, spec: Spec,
                    nics: seq<NicInfo>, requeue: bool)
    requires Grows(before, now) && |nics| < NicCount(spec) && Records(before, addresses, spec, nics, requeue)
    ensures Records(before, addresses, spec, nics + [InfoOf(now, addresses, spec, |nics|)],
                    requeue || NicWaits(now, addresses, spec, |nics|))
  {
    GrowthIsInvisible(before, now, addresses, spec, |nics|);
    WaitingGrows(before, addresses, spec, |nics|);
  }

  lemma ProgressGoesOn(before: Claims, now: Claims, next: Claims, addresses: map<string, string>, fails: Failures,
                       spec: Spec, nics: seq<NicInfo>, requeue: bool)
    requires Progress(before, now, addresses, fails, spec, nics, requeue) && Grows(now, next)
    requires |nics| < NicCount(spec) && !NicFails(now, addresses, fails, spec, |nics|)
    requires forall f | PoolOf(spec, |nics|, f).Some? :: Handled(next, addresses, fails, ClaimName(spec, |nics|, f))
    requires NewNamesUpTo(now, next, spec, |nics| + 1)
    ensures Progress(before, next, addresses, fails, spec, nics + [InfoOf(now, addresses, spec, |nics|)],
                     requeue || NicWaits(now, addresses, spec, |nics|))
  {
    var n := |nics|;
    RecordsGrow(before, now, addresses, spec, nics, requeue);
    NamesGrow(before, now, next, spec, n);
    HandledGrows(now, next, addresses, fails, spec, n);
    NoFailureGrows(before, now, addresses, fails, spec, n);
  }

  class Helper {
    var claims: Claims
    var info: Option<seq<NicInfo>>        // status.machineNetworkInfo of the machine
    const addresses: map<string, string>
    const fails: Failures

    constructor (claims: Claims, addresses: map<string, string>, fails: Failures)
      ensures this.claims == claims && this.addresses == addresses && this.fails == fails && info == None
    {
      this.claims, this.addresses, this.fails, info := claims, addresses, fails, None;
    }

    /** handleIPAddressForNIC and CreateIPAddressClaim. */
    method HandleAddress(name: string, pool: Pool) returns (r: Result)
      modifies this`claims
      ensures Grows(old(claims), claims)
      ensures r.Err? <==> AddressFails(old(claims), addresses, fails, name, pool)
      ensures r.Ok? ==> r.ip == Resolve(old(claims), addresses, name) && Handled(claims, addresses, fails, name)
      ensures claims.Keys <= old(claims).Keys + {name}
    {
      if name in fails.get { return Err; }
      if name !in claims {
        if !pool.hasGroup || name in fails.create { return Err; }
        claims := claims[name := Claim("", {FINALIZER})];
        return Ok("");
      }
      var ref := claims[name].addressRef;
      if ref == "" { return Ok(""); }
      if ref in fails.address || ref !in addresses { return Err; }
      return Ok(addresses[ref]);
    }

    /** The NIC at index `i`: handlePrimaryNIC, and the body of the loop in handleAdditionalNICs. */
    method HandleNIC(spec: Spec, i: nat) returns (failed: bool, wait: bool, nic: NicInfo)
      requires i < NicCount(spec)
      modifies this`claims
      ensures Grows(old(claims), claims)
      ensures failed <==> NicFails(old(claims), addresses, fails, spec, i)
      ensures !failed ==> nic == InfoOf(old(claims), addresses, spec, i)
      ensures !failed ==> wait == NicWaits(old(claims), addresses, spec, i)
      ensures !failed ==> forall f | PoolOf(spec, i, f).Some? ::
        Handled(claims, addresses, fails, ClaimName(spec, i, f))
      ensures forall n | n in claims && n !in old(claims) :: NameUpTo(spec, i + 1, n)
    {
      failed, wait, nic := false, false, NicInfo(i == 0, [], []);
      if PoolOf(spec, i, V4).Some? {
        var r := HandleAddress(ClaimName(spec, i, V4), PoolOf(spec, i, V4).value);
        if r.Err? { return true, false, nic; }
        if r.ip == "" { wait := true; } else { nic := nic.(v4 := [r.ip]); }
      }
      ghost var middle := claims;
      ClaimNamesEqualIff(spec, i, V4, spec, i, V6);
      if PoolOf(spec, i, V6).Some? {
        var r := HandleAddress(ClaimName(spec, i, V6), PoolOf(spec, i, V6).value);
        if r.Err? { return true, false, nic; }
        if r.ip == "" { wait := true; } else { nic := nic.(v6 := [r.ip]); }
        GrowthResolvesNothing(old(claims), middle, addresses, ClaimName(spec, i, V6));
      }
    }

    /**
     It fails exactly if a claim of the machine fails.  Otherwise the status holds one record per NIC,
     aligned by index, and the pass is held up exactly while an address is missing.
     */
    method ReconcileIPAddresses(spec: Spec) returns (failed: bool, requeue: bool)
      modifies this
      ensures failed <==> PassFails(old(claims), addresses, fails, spec)
      ensures Grows(old(claims), claims) && NewNamesUpTo(old(claims), claims, spec, NicCount(spec))
      ensures failed ==> info == old(info)
      ensures !failed ==> info.Some? && |info.value| == 1 + |spec.additional|
      ensures !failed ==> forall i | 0 <= i < |info.value| :: info.value[i].primary <==> i == 0
      ensures !failed ==> forall i | 0 <= i < NicCount(spec) :: info.value[i] == InfoOf(old(claims), addresses, spec, i)
      ensures !failed ==> requeue == Waiting(old(claims), addresses, spec)
      ensures !failed ==> HandledUpTo(claims, addresses, fails, spec, NicCount(spec))
    {
      var nics: seq<NicInfo> := [];
      requeue := false;
      var i := 0;
      while i < NicCount(spec)
        invariant 0 <= i <= NicCount(spec) && |nics| == i && info == old(info)
        invariant Progress(old(claims), claims, addresses, fails, spec, nics, requeue)
      {
        ghost var now := claims;
        var bad, wait, nic := HandleNIC(spec, i);
        if bad {
          ProgressStops(old(claims), now, addresses, fails, spec, nics, requeue);
          FailedNamesStay(old(claims), now, claims, spec, i);
          return true, true;
        }
        ProgressGoesOn(old(claims), now, claims, addresses, fails, spec, nics, requeue);
        nics := nics + [nic];
        requeue := requeue || wait;
        i := i + 1;
      }
      info := Some(nics);
      failed := false;
    }

    /** ReconcileIPAddressClaimsDeletion: all claims of the machine lose its finalizer. */
    method ReleaseClaims(spec: Spec) returns (failed: bool)
      modifies this`claims
      ensures PartlyReleased(spec, old(claims), claims)
      ensures failed <==> SweepFails(spec, old(claims), fails, V4) || SweepFails(spec, old(claims), fails, V6)
      ensures !failed ==> claims == Sweep(spec, old(claims))
    {
      failed := ReleaseFamily(spec, V4);
      if failed { return; }
      ghost var middle := claims;
      failed := ReleaseFamily(spec, V6);
      OtherFamilyIsUntouched(spec, old(claims), middle, fails);
      PartlyReleasedTwice(spec, old(claims), middle, claims);
      if !failed { SweptAll(spec, old(claims), claims); }
    }

    method ReleaseClaim(name: string) returns (failed: bool)
      modifies this`claims
      ensures failed <==> ReleaseFails(old(claims), fails, name)
      ensures claims == if failed then old(claims) else Lifted(old(claims), name)
    {
      if name in fails.get { return true; }
      if name in claims {
        if FINALIZER in claims[name].finalizers {
          if name in fails.update { return true; }
          claims := claims[name := Released(claims[name])];
        } else {
          assert Released(claims[name]) == claims[name];
          assert claims == claims[name := claims[name]];
        }
      }
      return false;
    }

    /** The claims of one family. */
    method ReleaseFamily(spec: Spec, f: Family) returns (failed: bool)
      modifies this`claims
      ensures PartlyReleased(spec, old(claims), claims) && OnlyFamily(spec, f, old(claims), claims)
      ensures failed <==> SweepFails(spec, old(claims), fails, f)
      ensures !failed ==> forall i | 0 <= i < NicCount(spec) :: FreeOf(claims, ClaimName(spec, i, f))
    {
      var i := 0;
      while i < NicCount(spec)
        invariant 0 <= i <= NicCount(spec) && SweepProgress(spec, f, old(claims), claims, fails, i)
      {
        ghost var now := claims;
        failed := ReleaseClaim(ClaimName(spec, i, f));
        if failed {
          SweepStops(spec, f, old(claims), now, fails, i);
          return;
        }
        SweepGoesOn(spec, f, old(claims), now, fails, i);
        i := i + 1;
      }
      return false;
    }
  }

  // ---- releasing the claims ----

  function Released(c: Claim): Claim { c.(finalizers := c.finalizers - {FINALIZER}) }

  predicate FreeOf(claims: Claims, name: string) {
    name in claims ==> FINALIZER !in claims[name].finalizers
  }

  /** What an interrupted sweep may leave. */
  ghost predicate PartlyReleased(spec: Spec, before: Claims, after: Claims) {
    && after.Keys == before.Keys
    && forall n | n in before :: after[n] == before[n] || (OwnName(spec, n) && after[n] == Released(before[n]))
  }

  ghost function Sweep(spec: Spec, claims: Claims): Claims {
    map n | n in claims :: if OwnName(spec, n) then Released(claims[n]) else claims[n]
  }

  /** The claim cannot be read, or it has the finalizer and cannot be written. */
  predicate ReleaseFails(claims: Claims, fails: Failures, name: string) {
    name in fails.get || (!FreeOf(claims, name) && name in fails.update)
  }

  ghost predicate SweepFails(spec: Spec, claims: Claims, fails: Failures, f: Family) {
    exists i: nat :: i < NicCount(spec) && ReleaseFails(claims, fails, ClaimName(spec, i, f))
  }

  /** Claims of the other family are as they were. */
  ghost predicate OnlyFamily(spec: Spec, f: Family, before: Claims, after: Claims)
    requires after.Keys == before.Keys
  {
    forall n | n in after && after[n] != before[n] :: exists i: nat :: i < NicCount(spec) && ClaimName(spec, i, f) == n
  }

  /** The claims after one of them has lost the finalizer, if it is there. */
  function Lifted(claims: Claims, name: string): Claims {
    if name in claims then claims[name := Released(claims[name])] else claims
  }

  /** What is known when the first `n` NICs have been swept without a failure. */
  ghost predicate SweepProgress(spec: Spec, f: Family, before: Claims, now: Claims, fails: Failures, n: nat)
    requires n <= NicCount(spec)
  {
    && PartlyReleased(spec, before, now) && OnlyFamily(spec, f, before, now)
    && (forall m | m in now && now[m] != before[m] :: m !in fails.update)
    && (forall j | 0 <= j < n ::
          !ReleaseFails(before, fails, ClaimName(spec, j, f)) && FreeOf(now, ClaimName(spec, j, f)))
  }

  lemma SweepStops(spec: Spec, f: Family, before: Claims, now: Claims, fails: Failures, n: nat)
    requires n < NicCount(spec) && SweepProgress(spec, f, before, now, fails, n)
    requires ReleaseFails(now, fails, ClaimName(spec, n, f))
    ensures SweepFails(spec, before, fails, f)
  {
    assert ReleaseFails(before, fails, ClaimName(spec, n, f));
  }

  lemma LiftKeeps(spec: Spec, f: Family, before: Claims, now: Claims, n: nat)
    requires n < NicCount(spec) && PartlyReleased(spec, before, now) && OnlyFamily(spec, f, before, now)
    ensures var next := Lifted(now, ClaimName(spec, n, f));
      PartlyReleased(spec, before, next) && OnlyFamily(spec, f, before, next)
  {
    var name := ClaimName(spec, n, f);
    assert OwnName(spec, name);
    assert name in now ==> Released(Released(before[name])) == Released(before[name]);
  }

  lemma SweepGoesOn(spec: Spec, f: Family, before: Claims, now: Claims, fails: Failures, n: nat)
    requires n < NicCount(spec) && SweepProgress(spec, f, before, now, fails, n)
    requires !ReleaseFails(now, fails, ClaimName(spec, n, f))
    ensures SweepProgress(spec, f, before, Lifted(now, ClaimName(spec, n, f)), fails, n + 1)
  {
    var name := ClaimName(spec, n, f);
    var next := Lifted(now, name);
    LiftKeeps(spec, f, before, now, n);
    assert !ReleaseFails(before, fails, name);
    assert name in now && FreeOf(now, name) ==> next[name] == now[name];
    forall j: nat | j < n + 1
      ensures !ReleaseFails(before, fails, ClaimName(spec, j, f)) && FreeOf(next, ClaimName(spec, j, f))
    {
      assert j < n ==> FreeOf(now, ClaimName(spec, j, f));
    }
  }

  lemma OtherFamilyIsUntouched(spec: Spec, before: Claims, middle: Claims, fails: Failures)
    requires middle.Keys == before.Keys && OnlyFamily(spec, V4, before, middle)
    ensures SweepFails(spec, middle, fails, V6) <==> SweepFails(spec, before, fails, V6)
  {
    forall i: nat | i < NicCount(spec)
      ensures var n := ClaimName(spec, i, V6); ReleaseFails(middle, fails, n) <==> ReleaseFails(before, fails, n)
    {
      var n := ClaimName(spec, i, V6);
      if n in middle && middle[n] != before[n] {
        var j: nat :| j < NicCount(spec) && ClaimName(spec, j, V4) == n;
        ClaimNamesEqualIff(spec, j, V4, spec, i, V6);
      }
    }
  }

  lemma PartlyReleasedTwice(spec: Spec, before: Claims, middle: Claims, after: Claims)
    requires PartlyReleased(spec, before, middle) && PartlyReleased(spec, middle, after)
    ensures PartlyReleased(spec, before, after)
  {
  }

  lemma SweptAll(spec: Spec, before: Claims, after: Claims)
    requires PartlyReleased(spec, before, after)
    requires forall i, f | 0 <= i < NicCount(spec) :: FreeOf(after, ClaimName(spec, i, f))
    ensures after == Sweep(spec, before)
  {
    forall n | n in before ensures after[n] == Sweep(spec, before)[n] {
      if OwnName(spec, n) { assert FreeOf(after, n); }
    }
  }

  // ---- the pools, by the fields of the spec ----

  function PrimaryClaim(spec: Spec, format: string): string { "nic-" + spec.machine + "-" + format }

  function AdditionalClaim(spec: Spec, k: nat, format: string): string
    requires k < |spec.additional|
  {
    "nic-" + spec.machine + "-" + Decimal(spec.additional[k].id) + "-" + format
  }

  lemma PrimaryByField(spec: Spec)
    ensures PoolOf(spec, 0, V4) == spec.primary.v4 && PoolOf(spec, 0, V6) == spec.primary.v6
    ensures ClaimName(spec, 0, V4) == PrimaryClaim(spec, "ipv4") && ClaimName(spec, 0, V6) == PrimaryClaim(spec, "ipv6")
  {
    assert NicName(spec, 0) == "nic-" + spec.machine;
  }

  lemma AdditionalByField(spec: Spec, k: nat)
    requires k < |spec.additional|
    ensures PoolOf(spec, k + 1, V4) == spec.additional[k].pools.v4
    ensures PoolOf(spec, k + 1, V6) == spec.additional[k].pools.v6
    ensures ClaimName(spec, k + 1, V4) == AdditionalClaim(spec, k, "ipv4")
    ensures ClaimName(spec, k + 1, V6) == AdditionalClaim(spec, k, "ipv6")
  {
  }

  /** `P` holds of the claim of every pool the spec refers to. */
  ghost predicate EveryPool(spec: Spec, p: string -> bool) {
    && (spec.primary.v4.Some? ==> p(PrimaryClaim(spec, "ipv4")))
    && (spec.primary.v6.Some? ==> p(PrimaryClaim(spec, "ipv6")))
    && (forall k: nat | k < |spec.additional| ::
          && (spec.additional[k].pools.v4.Some? ==> p(AdditionalClaim(spec, k, "ipv4")))
          && (spec.additional[k].pools.v6.Some? ==> p(AdditionalClaim(spec, k, "ipv6"))))
  }

  ghost predicate EveryNic(spec: Spec, p: string -> bool) {
    forall i: nat, f | i < NicCount(spec) && PoolOf(spec, i, f).Some? :: p(ClaimName(spec, i, f))
  }

  lemma FieldsCoverNics(spec: Spec, p: string -> bool)
    requires EveryPool(spec, p)
    ensures EveryNic(spec, p)
  {
    forall i: nat, f | i < NicCount(spec) && PoolOf(spec, i, f).Some? ensures p(ClaimName(spec, i, f)) {
      if i == 0 { PrimaryByField(spec); } else { AdditionalByField(spec, i - 1); }
    }
  }

  lemma NicsCoverFields(spec: Spec, p: string -> bool)
    requires EveryNic(spec, p)
    ensures EveryPool(spec, p)
  {
    PrimaryByField(spec);
    assert PoolOf(spec, 0, V4).Some? ==> p(ClaimName(spec, 0, V4));
    assert PoolOf(spec, 0, V6).Some? ==> p(ClaimName(spec, 0, V6));
    forall k: nat | k < |spec.additional|
      ensures spec.additional[k].pools.v4.Some? ==> p(AdditionalClaim(spec, k, "ipv4"))
      ensures spec.additional[k].pools.v6.Some? ==> p(AdditionalClaim(spec, k, "ipv6"))
    {
      AdditionalByField(spec, k);
      assert PoolOf(spec, k + 1, V4).Some? ==> p(ClaimName(spec, k + 1, V4));
      assert PoolOf(spec, k + 1, V6).Some? ==> p(ClaimName(spec, k + 1, V6));
    }
  }

  /** The claim refers to an address that is there. */
  predicate Answered(claims: Claims, addresses: map<string, string>, name: string) {
    && name in claims && claims[name].addressRef != "" && claims[name].addressRef in addresses
    && addresses[claims[name].addressRef] != ""
  }

  /** A pass waits exactly if a pool of the spec, of the primary or of an additional NIC, has not answered. */
  lemma WaitsForPools(claims: Claims, addresses: map<string, string>, spec: Spec)
    ensures Waiting(claims, addresses, spec) <==> !EveryPool(spec, n => Answered(claims, addresses, n))
  {
    var p := n => Answered(claims, addresses, n);
    if !Waiting(claims, addresses, spec) {
      forall i: nat, f | i < NicCount(spec) && PoolOf(spec, i, f).Some? ensures p(ClaimName(spec, i, f)) {
        assert !NicWaits(claims, addresses, spec, i);
      }
      NicsCoverFields(spec, p);
    } else {
      var i: nat :| i < NicCount(spec) && NicWaits(claims, addresses, spec, i);
      var f := if Unresolved(claims, addresses, spec, i, V4) then V4 else V6;
      assert PoolOf(spec, i, f).Some? && !p(ClaimName(spec, i, f));
      if EveryPool(spec, p) { FieldsCoverNics(spec, p); }
    }
  }

  /** After a pass that did not fail every pool of the spec has its claim. */
  lemma PoolsHaveClaims(claims: Claims, addresses: map<string, string>, fails: Failures, spec: Spec)
    requires HandledUpTo(claims, addresses, fails, spec, NicCount(spec))
    ensures EveryPool(spec, n => n in claims)
  {
    NicsCoverFields(spec, n => n in claims);
  }

  /** With a pool the one address its claim refers to, without one none. */
  predicate Gets(ips: seq<string>, pool: Option<Pool>, claims: Claims, addresses: map<string, string>, name: string) {
    if pool.None? then ips == []
    else Answered(claims, addresses, name) && ips == [addresses[claims[name].addressRef]]
  }

  lemma RecordGets(claims: Claims, addresses: map<string, string>, spec: Spec, i: nat)
    requires i < NicCount(spec) && !Waiting(claims, addresses, spec)
    ensures var r := InfoOf(claims, addresses, spec, i);
      && Gets(r.v4, PoolOf(spec, i, V4), claims, addresses, ClaimName(spec, i, V4))
      && Gets(r.v6, PoolOf(spec, i, V6), claims, addresses, ClaimName(spec, i, V6))
  {
    assert !NicWaits(claims, addresses, spec, i);
  }

  /** What the server gets, by the fields of the spec. */
  ghost predicate ServerGets(spec: Spec, claims: Claims, addresses: map<string, string>, nics: seq<ServerNic>) {
    && |nics| == 1 + |spec.additional|
    && (forall i | 0 <= i < |nics| :: nics[i].ips.Some? && nics[i].ipv6Ips.Some?)
    && Gets(nics[0].ips.value, spec.primary.v4, claims, addresses, PrimaryClaim(spec, "ipv4"))
    && Gets(nics[0].ipv6Ips.value, spec.primary.v6, claims, addresses, PrimaryClaim(spec, "ipv6"))
    && (forall k: nat | k < |spec.additional| ::
          var net := spec.additional[k];
          && nics[k + 1].lan == net.id
          && Gets(nics[k + 1].ips.value, net.pools.v4, claims, addresses, AdditionalClaim(spec, k, "ipv4"))
          && Gets(nics[k + 1].ipv6Ips.value, net.pools.v6, claims, addresses, AdditionalClaim(spec, k, "ipv6")))
  }

  lemma BuiltGets(spec: Spec, claims: Claims, addresses: map<string, string>, nics: seq<ServerNic>)
    requires !Waiting(claims, addresses, spec) && |nics| == NicCount(spec)
    requires forall k | 0 < k < |nics| :: nics[k].lan == spec.additional[k - 1].id
    requires forall i | 0 <= i < |nics| :: var r := InfoOf(claims, addresses, spec, i);
      nics[i].ips == Some(r.v4) && nics[i].ipv6Ips == Some(r.v6)
    ensures ServerGets(spec, claims, addresses, nics)
  {
    RecordGets(claims, addresses, spec, 0);
    PrimaryByField(spec);
    forall k: nat | k < |spec.additional|
      ensures var net := spec.additional[k];
        && nics[k + 1].lan == net.id
        && Gets(nics[k + 1].ips.value, net.pools.v4, claims, addresses, AdditionalClaim(spec, k, "ipv4"))
        && Gets(nics[k + 1].ipv6Ips.value, net.pools.v6, claims, addresses, AdditionalClaim(spec, k, "ipv6"))
    {
      RecordGets(claims, addresses, spec, k + 1);
      AdditionalByField(spec, k);
    }
  }

  // ---- building the server ----
  // ---- building the server ----

  datatype ServerNic = ServerNic(lan: nat, ips: Option<seq<string>>, ipv6Ips: Option<seq<string>>)

  /** buildServerEntities indexes the records by NIC, so there has to be one for each. */
  method BuildServerNics(spec: Spec, lan: nat, info: Option<seq<NicInfo>>) returns (nics: seq<ServerNic>)
    requires info.Some? ==> |info.value| == NicCount(spec)
    ensures |nics| == NicCount(spec) && nics[0].lan == lan
    ensures forall i | 0 < i < NicCount(spec) :: nics[i].lan == spec.additional[i - 1].id
    ensures forall i | 0 <= i < NicCount(spec) ::
      if info.None? then nics[i].ips.None? && nics[i].ipv6Ips.None?
      else nics[i].ips == Some(info.value[i].v4) && nics[i].ipv6Ips == Some(info.value[i].v6)
  {
    var primary := ServerNic(lan, None, None);
    if info.Some? {
      primary := primary.(ips := Some(info.value[0].v4), ipv6Ips := Some(info.value[0].v6));
    }
    nics := [primary];
    var i := 0;
    while i < |spec.additional|
      invariant 0 <= i <= |spec.additional| && |nics| == i + 1 && nics[0] == primary
      invariant forall j | 0 < j <= i :: nics[j].lan == spec.additional[j - 1].id
      invariant forall j | 0 < j <= i ::
        if info.None? then nics[j].ips.None? && nics[j].ipv6Ips.None?
        else nics[j].ips == Some(info.value[j].v4) && nics[j].ipv6Ips == Some(info.value[j].v6)
    {
      var nic := ServerNic(spec.additional[i].id, None, None);
      if info.Some? {
        nic := nic.(ips := Some(info.value[i + 1].v4), ipv6Ips := Some(info.value[i + 1].v6));
      }
      nics := nics + [nic];
      i := i + 1;
    }
  }

  /**
   The two steps of one pass in a row: unless the pass fails or a pool of the spec has not answered,
   the server gets exactly the pool addresses, each at its NIC; and unless it fails every pool has its
   claim afterwards.
   */
  method ResolveAndBuild(h: Helper, spec: Spec, lan: nat) returns (held: bool, nics: seq<ServerNic>)
    modifies h
    ensures var claims, addresses := old(h.claims), h.addresses;
      held <==>
        PassFails(claims, addresses, h.fails, spec) || !EveryPool(spec, n => Answered(claims, addresses, n))
    ensures !held ==> nics != [] && nics[0].lan == lan && ServerGets(spec, old(h.claims), h.addresses, nics)
    ensures var after := h.claims;
      !PassFails(old(h.claims), h.addresses, h.fails, spec) ==> EveryPool(spec, n => n in after)
  {
    ghost var claims := h.claims;
    WaitsForPools(claims, h.addresses, spec);
    var failed, requeue := h.ReconcileIPAddresses(spec);
    held := failed || requeue;
    nics := [];
    if !failed { PoolsHaveClaims(h.claims, h.addresses, h.fails, spec); }
    if !held {
      nics := BuildServerNics(spec, lan, h.info);
      BuiltGets(spec, claims, h.addresses, nics);
    }
  }
}
