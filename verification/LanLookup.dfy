/** Finding the LAN of a machine, and when it is deleted (getLAN and ReconcileLANDeletion in network.go). */
module LanLookup {
  import opened Base
  import opened Requests

  datatype Lan = Lan(id: string, name: Option<string>, nics: nat)

  datatype Search = SeveralLans | IdNotFound | NoLan | FoundLan(lan: Lan)

  predicate Named(l: Lan, name: string) { l.name == Some(name) }

  function ByName(name: string): Lan -> bool { l => Named(l, name) }

  function CountNamed(lans: seq<Lan>, name: string): nat { Count(lans, ByName(name)) }

  /** The LAN given in the spec is the first with its ID, and at most one named one precedes it. */
  ghost predicate GivenAt(lans: seq<Lan>, networkID: Option<string>, name: string, i: int) {
    && 0 <= i < |lans| && networkID == Some(lans[i].id) && CountNamed(lans[..i], name) <= 1
    && forall j | 0 <= j < i :: networkID != Some(lans[j].id)
  }

  ghost predicate Given(lans: seq<Lan>, networkID: Option<string>, name: string) {
    exists i :: GivenAt(lans, networkID, name, i)
  }

  /** The LAN `l` is the one the spec gives by ID, or without an ID the only one of the name. */
  ghost predicate Finds(lans: seq<Lan>, networkID: Option<string>, name: string, l: Lan) {
    if networkID.Some? then exists i :: GivenAt(lans, networkID, name, i) && lans[i] == l
    else CountNamed(lans, name) == 1 && l in lans && Named(l, name)
  }

  lemma FindsOne(lans: seq<Lan>, networkID: Option<string>, name: string, l: Lan, m: Lan)
    requires Finds(lans, networkID, name, l) && Finds(lans, networkID, name, m)
    ensures l == m
  {
    if networkID.None? {
      var i: nat :| i < |lans| && lans[i] == l;
      var j: nat :| j < |lans| && lans[j] == m;
      OnlyOneCounted(lans, ByName(name), i, j);
    }
  }

  method GetLAN(lans: seq<Lan>, networkID: Option<string>, name: string) returns (r: Search)
    ensures forall l :: r == FoundLan(l) <==> Finds(lans, networkID, name, l)
    ensures r.SeveralLans? <==> CountNamed(lans, name) > 1 && !Given(lans, networkID, name)
    ensures r.IdNotFound? <==> networkID.Some? && CountNamed(lans, name) <= 1 && !Given(lans, networkID, name)
    ensures r.NoLan? <==> networkID.None? && CountNamed(lans, name) == 0
  {
    var count := 0;
    var found := None;
    var i := 0;
    while i < |lans|
      invariant 0 <= i <= |lans| && count == CountNamed(lans[..i], name) <= 1
      invariant found.Some? <==> count == 1
      invariant found.Some? ==> found.value in lans && Named(found.value, name)
      invariant forall j | 0 <= j < i :: networkID != Some(lans[j].id)
    {
      var l := lans[i];
      if networkID.Some? && l.id == networkID.value {
        assert GivenAt(lans, networkID, name, i);
        assert Finds(lans, networkID, name, l);
        forall m | Finds(lans, networkID, name, m) ensures m == l { FindsOne(lans, networkID, name, l, m); }
        return FoundLan(l);
      }
      assert lans[..i + 1][..i] == lans[..i];
      if l.name.Some? && l.name.value == name {
        found := Some(l);
        count := count + 1;
      }
      if count > 1 {
        forall j | 0 <= j < |lans| ensures !GivenAt(lans, networkID, name, j) {
          if j > i {
            assert lans[..j][..i + 1] == lans[..i + 1];
            CountOfPrefix(lans[..j], ByName(name), i + 1);
          }
        }
        CountOfPrefix(lans, ByName(name), i + 1);
        return SeveralLans;
      }
      i := i + 1;
    }
    assert lans[..i] == lans;
    if networkID.Some? { return IdNotFound; }
    if found.None? { return NoLan; }
    forall m | Finds(lans, networkID, name, m) ensures m == found.value {
      FindsOne(lans, networkID, name, found.value, m);
    }
    return FoundLan(found.value);
  }

  datatype Action = Fails | Requeue | ClearsRequest | Skips | Deletes(lan: Lan)

  /** ReconcileLANDeletion over what it observes. */
  function LanDeletion(find: Outcome<Lan>, deletion: QueueAnswer): Action {
    if find.Error? then Fails
    else if find.PendingOrOld? && Pending(find.status) then Requeue
    else if !find.Resource? then ClearsRequest
    else if deletion.QueueError? then Fails
    else if deletion.Latest? && Pending(deletion.status) then Requeue
    else if find.resource.nics > 0 then Skips
    else Deletes(find.resource)
  }

  /** No deletion of the LAN is under way and the queue could be asked. */
  predicate Free(deletion: QueueAnswer) {
    deletion.NoRequest? || (deletion.Latest? && !Pending(deletion.status))
  }

  /** The LAN that both lookups of a pass come to; the second takes place only after a done creation. */
  ghost predicate Sees(lans: seq<Lan>, latest: QueueAnswer, later: seq<Lan>,
                       networkID: Option<string>, name: string, l: Lan)
  {
    || Finds(lans, networkID, name, l)
    || (Nowhere(lans, networkID, name) && latest == Latest(Done) && Finds(later, networkID, name, l))
  }

  /** The ID of the spec is not listed, or without one the name is not unique. */
  ghost predicate Unclear(lans: seq<Lan>, networkID: Option<string>, name: string) {
    !Given(lans, networkID, name) && (networkID.Some? || CountNamed(lans, name) > 1)
  }

  predicate Nowhere(lans: seq<Lan>, networkID: Option<string>, name: string) {
    networkID.None? && CountNamed(lans, name) == 0
  }

  /** What the step needs to ask for the deletion of `l`. */
  ghost predicate Condemned(lans: seq<Lan>, latest: QueueAnswer, later: seq<Lan>, networkID: Option<string>,
                            name: string, deletion: QueueAnswer, l: Lan)
  {
    Sees(lans, latest, later, networkID, name, l) && l.nics == 0 && Free(deletion)
  }

  /**
   The whole step, from the listing to the call; `later` is the list of the second lookup.  It asks
   for the deletion of a LAN exactly if that is the LAN it sees, no NIC is in it, and no deletion of
   it is under way.  Whether the controller made the LAN does not matter.
   */
  method ReconcileLANDeletion(lans: seq<Lan>, latest: QueueAnswer, later: seq<Lan>, networkID: Option<string>,
                              name: string, deletion: QueueAnswer) returns (a: Action)
    ensures forall l :: a == Deletes(l) <==> Condemned(lans, latest, later, networkID, name, deletion, l)
    ensures a.Skips? <==>
      (Free(deletion) && exists l :: Sees(lans, latest, later, networkID, name, l) && l.nics > 0)
    ensures a.Requeue? <==>
      (|| (Nowhere(lans, networkID, name) && latest.Latest? && Pending(latest.status))
       || (deletion.Latest? && Pending(deletion.status) && exists l :: Sees(lans, latest, later, networkID, name, l)))
    ensures a.ClearsRequest? <==>
      (Nowhere(lans, networkID, name) &&
       (latest in {NoRequest, Latest(Failed)} || (latest == Latest(Done) && Nowhere(later, networkID, name))))
    ensures a.Fails? <==>
      (|| Unclear(lans, networkID, name)
       || (Nowhere(lans, networkID, name) &&
           (latest.QueueError? || (latest == Latest(Done) && Unclear(later, networkID, name))))
       || (deletion.QueueError? && exists l :: Sees(lans, latest, later, networkID, name, l)))
  {
    var first := GetLAN(lans, networkID, name);
    if first.SeveralLans? || first.IdNotFound? { return Fails; }
    if first.FoundLan? {
      assert Sees(lans, latest, later, networkID, name, first.lan);
      return LanDeletion(Resource(first.lan), deletion);
    }
    var afterQueue := AfterQueue<Lan>(latest);
    if afterQueue.Some? { return LanDeletion(afterQueue.value, deletion); }
    var second := GetLAN(later, networkID, name);
    if second.SeveralLans? || second.IdNotFound? { return Fails; }
    assert second.FoundLan? ==> Sees(lans, latest, later, networkID, name, second.lan);
    a := LanDeletion(AfterSecondLookup(if second.FoundLan? then Present(second.lan) else Missing), deletion);
  }

  /**
   A LAN of the user, of whatever name and among whatever other LANs, goes with the last machine that
   was given its ID, unless two LANs with the cluster's name are listed before it.
   */
  lemma LanOfUserIsCondemned(lans: seq<Lan>, i: nat, latest: QueueAnswer, later: seq<Lan>, name: string)
    requires i < |lans| && lans[i].nics == 0 && !Named(lans[i], name) && CountNamed(lans[..i], name) <= 1
    requires forall j | 0 <= j < i :: lans[j].id != lans[i].id
    ensures Condemned(lans, latest, later, Some(lans[i].id), name, NoRequest, lans[i])
  {
    assert GivenAt(lans, Some(lans[i].id), name, i);
  }
}
