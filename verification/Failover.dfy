/** The IP failover group of a LAN and the edits the controller makes to it (internal/service/cloud/network.go). */
module Failover {
  import opened Base

  /** What absent strings are read as. */
  const UNKNOWN := "UNKNOWN"

  datatype Entry = Entry(ip: Option<string>, nic: Option<string>)

  function Ip(e: Entry): string { if e.ip.Some? then e.ip.value else UNKNOWN }

  function Nic(e: Entry): string { if e.nic.Some? then e.nic.value else UNKNOWN }

  datatype Op =
    | Add(nic: string, ip: string)          // reconcileIPFailoverGroup
    | Swap(nic: string, newNic: string)     // swapNICInFailoverGroup
    | Remove(nic: string)                   // removeNICFromFailoverGroup

  // ---- what each edit does to the list ----

  /** reconcileIPFailoverGroup stops looking at an entry with the NIC or with the IP. */
  predicate Stops(e: Entry, nic: string, ip: string) { Ip(e) == ip || Nic(e) == nic }

  /** The first entry at which Add stops, or the length of the list. */
  function AddStop(l: seq<Entry>, nic: string, ip: string): (i: nat)
    ensures i <= |l|
    ensures i < |l| ==> Stops(l[i], nic, ip)
    ensures forall j | 0 <= j < i :: !Stops(l[j], nic, ip)
  {
    if l == [] then 0 else if Stops(l[0], nic, ip) then 0 else 1 + AddStop(l[1..], nic, ip)
  }

  /** The first entry of a NIC, or the length of the list. */
  function NicIndex(l: seq<Entry>, nic: string): (i: nat)
    ensures i <= |l|
    ensures i < |l| ==> Nic(l[i]) == nic
    ensures forall j | 0 <= j < i :: Nic(l[j]) != nic
  {
    if l == [] then 0 else if Nic(l[0]) == nic then 0 else 1 + NicIndex(l[1..], nic)
  }

  /** Whether the code patches the LAN. */
  predicate Patches(op: Op, l: seq<Entry>) {
    match op
    case Add(nic, ip) => var i := AddStop(l, nic, ip); i < |l| ==> Ip(l[i]) != ip
    case Swap(nic, _) => NicIndex(l, nic) < |l|
    case Remove(nic) => NicIndex(l, nic) < |l|
  }

  function Effect(op: Op, l: seq<Entry>): seq<Entry> {
    if !Patches(op, l) then l else
    match op
    case Add(nic, ip) =>
      var i := AddStop(l, nic, ip);
      if i == |l| then l + [Entry(Some(ip), Some(nic))] else l[i := l[i].(ip := Some(ip))]
    case Swap(nic, newNic) => var i := NicIndex(l, nic); l[i := l[i].(nic := Some(newNic))]
    case Remove(nic) => var i := NicIndex(l, nic); l[..i] + l[i + 1..]
  }

  /** The list the code edits before it sends it as a patch. */
  class FailoverConfig {
    var entries: seq<Entry>

    constructor (l: seq<Entry>)
      ensures entries == l
    {
      entries := l;
    }

    method AddNIC(nic: string, ip: string) returns (patch: bool)
      modifies this
      ensures entries == Effect(Add(nic, ip), old(entries))
      ensures patch == Patches(Add(nic, ip), old(entries))
    {
      var index := 0;
      while index < |entries|
        invariant 0 <= index <= |entries| && entries == old(entries)
        invariant forall j | 0 <= j < index :: !Stops(entries[j], nic, ip)
      {
        var entry := entries[index];
        if Ip(entry) == ip && Nic(entry) != nic { return false; }
        if Nic(entry) == nic {
          if Ip(entry) == ip { return false; }
          entries := entries[index := entry.(ip := Some(ip))];
          return true;
        }
        index := index + 1;
      }
      entries := entries + [Entry(Some(ip), Some(nic))];
      return true;
    }

    method SwapNIC(nic: string, newNic: string) returns (patch: bool)
      modifies this
      ensures entries == Effect(Swap(nic, newNic), old(entries))
      ensures patch == Patches(Swap(nic, newNic), old(entries))
    {
      var index := IndexOf(nic);
      patch := index < |entries|;
      if patch {
        entries := entries[index := entries[index].(nic := Some(newNic))];
      }
    }

    method RemoveNIC(nic: string) returns (patch: bool)
      modifies this
      ensures entries == Effect(Remove(nic), old(entries))
      ensures patch == Patches(Remove(nic), old(entries))
    {
      var index := IndexOf(nic);
      patch := index < |entries|;
      if patch {
        entries := entries[..index] + entries[index + 1..];
      }
    }

    method IndexOf(nic: string) returns (index: nat)
      ensures index == NicIndex(entries, nic)
    {
      index := 0;
      while index < |entries|
        invariant index <= |entries|
        invariant forall j | 0 <= j < index :: Nic(entries[j]) != nic
      {
        if Nic(entries[index]) == nic { return; }
        index := index + 1;
      }
    }
  }

  // ---- a well-kept group ----

  predicate DistinctIps(l: seq<Entry>) {
    forall i, j | 0 <= i < j < |l| :: Ip(l[i]) != Ip(l[j])
  }

  /** The IP each managed NIC is meant to have. */
  type Desired = map<string, string>

  predicate Good(d: Desired, l: seq<Entry>) {
    DistinctIps(l) && forall i | 0 <= i < |l| && Nic(l[i]) in d :: Ip(l[i]) == d[Nic(l[i])]
  }

  /** Edits the controller makes: a NIC with its own IP, a swap within one failover group. */
  predicate Allowed(d: Desired, op: Op) {
    match op
    case Add(nic, ip) => nic in d && d[nic] == ip
    case Swap(nic, newNic) => nic in d && newNic in d && d[nic] == d[newNic]
    case Remove(nic) => nic in d
  }

  function Foreign(d: Desired, l: seq<Entry>): seq<Entry> {
    if l == [] then []
    else (if Nic(l[0]) in d then [] else [l[0]]) + Foreign(d, l[1..])
  }

  /** A managed NIC is in at most one entry. */
  lemma ManagedOnce(d: Desired, l: seq<Entry>, i: nat, j: nat)
    requires Good(d, l) && i < |l| && j < |l| && i != j && Nic(l[i]) in d
    ensures Nic(l[j]) != Nic(l[i])
  {
    assert Ip(l[i]) != Ip(l[j]);
  }

  lemma SwapKeepsGood(d: Desired, l: seq<Entry>, nic: string, newNic: string)
    requires Good(d, l) && nic in d && newNic in d && d[nic] == d[newNic] && NicIndex(l, nic) < |l|
    ensures Good(d, Effect(Swap(nic, newNic), l))
  {
    var l' := Effect(Swap(nic, newNic), l);
    assert forall j | 0 <= j < |l| :: Ip(l'[j]) == Ip(l[j]);
  }

  /** Where entry `j` was before entry `i` was dropped. */
  function Back(i: nat, j: nat): nat { if j < i then j else j + 1 }

  lemma Dropped(l: seq<Entry>, i: nat, j: nat)
    requires i < |l| && j < |l| - 1
    ensures (l[..i] + l[i + 1..])[j] == l[Back(i, j)]
  {
  }

  lemma DropKeepsGood(d: Desired, l: seq<Entry>, i: nat)
    requires Good(d, l) && i < |l|
    ensures Good(d, l[..i] + l[i + 1..])
  {
    var l' := l[..i] + l[i + 1..];
    forall j, k | 0 <= j < k < |l'| ensures Ip(l'[j]) != Ip(l'[k]) {
      Dropped(l, i, j);
      Dropped(l, i, k);
      assert Back(i, j) < Back(i, k);
    }
    forall j | 0 <= j < |l'| && Nic(l'[j]) in d ensures Ip(l'[j]) == d[Nic(l'[j])] {
      Dropped(l, i, j);
    }
  }

  lemma GoodKept(d: Desired, op: Op, l: seq<Entry>)
    requires Good(d, l) && Allowed(d, op)
    ensures Good(d, Effect(op, l))
  {
    if Patches(op, l) {
      if op.Add? { AddAppends(d, l, op.nic, op.ip); }
      if op.Swap? { SwapKeepsGood(d, l, op.nic, op.newNic); }
      if op.Remove? { DropKeepsGood(d, l, NicIndex(l, op.nic)); }
    }
  }

  lemma {:induction false} ForeignConcat(d: Desired, a: seq<Entry>, b: seq<Entry>)
    ensures Foreign(d, a + b) == Foreign(d, a) + Foreign(d, b)
  {
    if a == [] {
      assert a + b == b;
    } else {
      ForeignConcat(d, a[1..], b);
      assert (a + b)[1..] == a[1..] + b;
    }
  }

  /** Replacing or dropping a managed entry is invisible among the foreign ones. */
  lemma ForeignSkips(d: Desired, l: seq<Entry>, i: nat, mid: seq<Entry>)
    requires i < |l| && Nic(l[i]) in d && forall e | e in mid :: Nic(e) in d
    requires |mid| <= 1
    ensures Foreign(d, l[..i] + mid + l[i + 1..]) == Foreign(d, l)
  {
    assert l == l[..i] + [l[i]] + l[i + 1..];
    ForeignConcat(d, l[..i] + [l[i]], l[i + 1..]);
    ForeignConcat(d, l[..i], [l[i]]);
    ForeignConcat(d, l[..i] + mid, l[i + 1..]);
    ForeignConcat(d, l[..i], mid);
  }

  /** A managed NIC that is patched in is not listed yet. */
  lemma AddAppends(d: Desired, l: seq<Entry>, nic: string, ip: string)
    requires Good(d, l) && Allowed(d, Add(nic, ip)) && Patches(Add(nic, ip), l)
    ensures Effect(Add(nic, ip), l) == l + [Entry(Some(ip), Some(nic))]
  {
    assert AddStop(l, nic, ip) == |l|;
  }

  lemma ForeignKept(d: Desired, op: Op, l: seq<Entry>)
    requires Good(d, l) && Allowed(d, op)
    ensures Foreign(d, Effect(op, l)) == Foreign(d, l)
  {
    if Patches(op, l) {
      match op
      case Add(nic, ip) =>
        AddAppends(d, l, nic, ip);
        ForeignConcat(d, l, [Entry(Some(ip), Some(nic))]);
      case Swap(nic, newNic) =>
        SwapKeepsForeign(d, l, nic, newNic);
      case Remove(nic) =>
        var i := NicIndex(l, nic);
        ForeignSkips(d, l, i, []);
        assert Effect(op, l) == l[..i] + [] + l[i + 1..];
    }
  }

  lemma UpdateSplices<T>(l: seq<T>, i: nat, e: T)
    requires i < |l|
    ensures l[i := e] == l[..i] + [e] + l[i + 1..]
  {
  }

  lemma SwapKeepsForeign(d: Desired, l: seq<Entry>, nic: string, newNic: string)
    requires nic in d && newNic in d && NicIndex(l, nic) < |l|
    ensures Foreign(d, Effect(Swap(nic, newNic), l)) == Foreign(d, l)
  {
    var i := NicIndex(l, nic);
    var e := l[i].(nic := Some(newNic));
    UpdateSplices(l, i, e);
    ForeignSkips(d, l, i, [e]);
  }

  /** The edits one after the other. */
  function Serial(l: seq<Entry>, ops: seq<Op>): seq<Entry> {
    if ops == [] then l else Effect(ops[|ops| - 1], Serial(l, ops[..|ops| - 1]))
  }

  /**
   Every sequence of edits keeps IPs pairwise distinct and each managed NIC in at most one entry,
   with its own IP, and leaves foreign entries unchanged and in order.
   */
  lemma {:induction false} EditsKeepGood(d: Desired, l: seq<Entry>, ops: seq<Op>)
    requires Good(d, l) && forall op | op in ops :: Allowed(d, op)
    ensures Good(d, Serial(l, ops))
    ensures Foreign(d, Serial(l, ops)) == Foreign(d, l)
  {
    if ops != [] {
      EditsKeepGood(d, l, ops[..|ops| - 1]);
      GoodKept(d, ops[|ops| - 1], Serial(l, ops[..|ops| - 1]));
      ForeignKept(d, ops[|ops| - 1], Serial(l, ops[..|ops| - 1]));
    }
  }

  /** The patched list no longer has the NIC that was swapped out or removed. */
  lemma NicIsGone(d: Desired, op: Op, l: seq<Entry>, j: nat)
    requires Good(d, l) && Allowed(d, op) && !op.Add? && (op.Swap? ==> op.nic != op.newNic)
    requires j < |Effect(op, l)|
    ensures Nic(Effect(op, l)[j]) != op.nic
  {
    var i := NicIndex(l, op.nic);
    if i < |l| {
      var k := if op.Remove? && i <= j then j + 1 else j;
      if k != i { ManagedOnce(d, l, i, k); }
    }
  }

  /** An edit that has taken effect has nothing left to do: the next reconcile does not patch. */
  lemma EditSettles(d: Desired, op: Op, l: seq<Entry>)
    requires Good(d, l) && Allowed(d, op) && (op.Swap? ==> op.nic != op.newNic)
    ensures !Patches(op, Effect(op, l))
  {
    var l' := Effect(op, l);
    if op.Add? {
      var i := AddStop(l, op.nic, op.ip);
      assert forall j | 0 <= j < i :: l'[j] == l[j];
      assert Ip(l'[i]) == op.ip;
    } else {
      forall j: nat | j < |l'| ensures Nic(l'[j]) != op.nic { NicIsGone(d, op, l, j); }
    }
  }

  /** Add leaves the IP in the list: the required failover IP is configured, for this NIC or another. */
  lemma AddConfiguresIp(l: seq<Entry>, nic: string, ip: string)
    ensures exists e :: e in Effect(Add(nic, ip), l) && Ip(e) == ip
  {
    var l' := Effect(Add(nic, ip), l);
    var i := AddStop(l, nic, ip);
    assert l'[i] in l';
    assert Ip(l'[i]) == ip;
  }

  // ---- what an edit changes in any list, well-kept or not ----

  /** The first entry that has the NIC or the IP. */
  ghost predicate StopsFirstAt(l: seq<Entry>, nic: string, ip: string, i: int) {
    0 <= i < |l| && (Nic(l[i]) == nic || Ip(l[i]) == ip) &&
    forall j | 0 <= j < i :: Nic(l[j]) != nic && Ip(l[j]) != ip
  }

  /** The first entry that has the NIC. */
  ghost predicate FirstOfNic(l: seq<Entry>, nic: string, i: int) {
    0 <= i < |l| && Nic(l[i]) == nic && forall j | 0 <= j < i :: Nic(l[j]) != nic
  }

  ghost predicate SameBut(l: seq<Entry>, l': seq<Entry>, i: int) {
    |l| <= |l'| && forall j | 0 <= j < |l| && j != i :: l'[j] == l[j]
  }

  /**
   Add never takes the NIC of an entry away.  It leaves the list alone if the IP comes first, gives
   the NIC's own entry the IP if the NIC comes first, and else appends one entry for the two.
   */
  lemma AddTouchesOne(l: seq<Entry>, nic: string, ip: string, i: int)
    ensures var l' := Effect(Add(nic, ip), l);
      && |l| <= |l'| && (forall j | 0 <= j < |l| :: l'[j].nic == l[j].nic)
      && (StopsFirstAt(l, nic, ip, i) ==> |l'| == |l| && SameBut(l, l', i))
      && (StopsFirstAt(l, nic, ip, i) && Ip(l[i]) == ip ==> l' == l)
      && (StopsFirstAt(l, nic, ip, i) && Ip(l[i]) != ip ==> Nic(l'[i]) == nic && l'[i].ip == Some(ip))
      && ((forall j | 0 <= j < |l| :: Nic(l[j]) != nic && Ip(l[j]) != ip) ==>
            |l'| == |l| + 1 && SameBut(l, l', |l|) && l'[|l|] == Entry(Some(ip), Some(nic)))
  {
    if StopsFirstAt(l, nic, ip, i) { assert AddStop(l, nic, ip) == i; }
  }

  /** Swap keeps every IP, and every NIC but the first one that is looked for. */
  lemma SwapTouchesOne(l: seq<Entry>, nic: string, newNic: string, i: int)
    ensures var l' := Effect(Swap(nic, newNic), l);
      && |l'| == |l|
      && (forall j | 0 <= j < |l| :: l'[j].ip == l[j].ip)
      && (FirstOfNic(l, nic, i) ==> SameBut(l, l', i) && l'[i].nic == Some(newNic))
      && ((forall j | 0 <= j < |l| :: Nic(l[j]) != nic) ==> l' == l)
  {
    if FirstOfNic(l, nic, i) { assert NicIndex(l, nic) == i; }
  }

  /** Putting the removed entry back where it was gives the list before. */
  lemma RemoveTakesOne(l: seq<Entry>, nic: string, i: int)
    ensures var l' := Effect(Remove(nic), l);
      && (FirstOfNic(l, nic, i) ==> |l'| == |l| - 1 && l == l'[..i] + [l[i]] + l'[i..])
      && ((forall j | 0 <= j < |l| :: Nic(l[j]) != nic) ==> l' == l)
  {
    if FirstOfNic(l, nic, i) {
      assert NicIndex(l, nic) == i;
      var l' := Effect(Remove(nic), l);
      assert l'[..i] == l[..i] && l'[i..] == l[i + 1..];
    }
  }

  // ---- where the edits would break the group ----

  /** A swap keeps a managed group well-kept exactly if both NICs are meant to have the same IP. */
  lemma SwapKeepsGoodIff(d: Desired, l: seq<Entry>, nic: string, newNic: string)
    requires Good(d, l) && nic in d && newNic in d && NicIndex(l, nic) < |l|
    ensures Good(d, Effect(Swap(nic, newNic), l)) <==> d[nic] == d[newNic]
  {
    var i := NicIndex(l, nic);
    var l' := Effect(Swap(nic, newNic), l);
    assert Nic(l'[i]) == newNic && Ip(l'[i]) == d[nic];
    if d[nic] == d[newNic] { SwapKeepsGood(d, l, nic, newNic); }
  }

  /** The IP of the first entry of the NIC is corrected although a later entry has that IP. */
  predicate CorrectsIntoDuplicate(l: seq<Entry>, nic: string, ip: string) {
    var i := AddStop(l, nic, ip);
    i < |l| && Ip(l[i]) != ip && exists j | i < j < |l| :: Ip(l[j]) == ip
  }

  /** For any NIC and IP, Add keeps IPs distinct exactly if it does not correct into a duplicate. */
  lemma AddKeepsDistinctIff(l: seq<Entry>, nic: string, ip: string)
    requires DistinctIps(l)
    ensures DistinctIps(Effect(Add(nic, ip), l)) <==> !CorrectsIntoDuplicate(l, nic, ip)
  {
    var i := AddStop(l, nic, ip);
    var l' := Effect(Add(nic, ip), l);
    if CorrectsIntoDuplicate(l, nic, ip) {
      var j :| i < j < |l| && Ip(l[j]) == ip;
      assert Ip(l'[i]) == Ip(l'[j]);
    } else {
      assert forall j | 0 <= j < |l| && j != i :: Ip(l[j]) != ip || l' == l;
    }
  }

  /** That does happen: a NIC still listed under an old IP, another one under the new IP. */
  lemma AddCanDuplicate()
    ensures exists l, nic, ip :: DistinctIps(l) && !DistinctIps(Effect(Add(nic, ip), l))
  {
    var l := [Entry(Some("10.0.0.1"), Some("a")), Entry(Some("10.0.0.2"), Some("b"))];
    var l' := Effect(Add("a", "10.0.0.2"), l);
    assert AddStop(l, "a", "10.0.0.2") == 0;
    assert Ip(l'[0]) == Ip(l'[1]);
  }
}
