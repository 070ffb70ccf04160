/** Looking up and deleting IP blocks (internal/service/cloud/ipblock.go). */
module IpBlocks {
  import opened Base
  import opened Requests
  import F = Failover

  datatype Block = Block(id: string, name: string, location: string, ips: seq<string>)

  // ---- getControlPlaneEndpointIPBlock, the search by listing ----

  /** What the search is after: the generated name, the location, and the endpoint IP if one is set. */
  datatype Wanted = Wanted(name: string, location: string, endpoint: string)

  predicate Named(w: Wanted, b: Block) { b.location == w.location && b.name == w.name }

  /** A block the user brought along for the endpoint. */
  predicate UserSet(w: Wanted, b: Block) {
    b.location == w.location && b.name != w.name && w.endpoint != "" && w.endpoint in b.ips
  }

  datatype Search = Several | UserIpNotFound | FoundBlock(block: Block) | NoBlock

  function ByName(w: Wanted): Block -> bool { b => Named(w, b) }

  function CountNamed(w: Wanted, blocks: seq<Block>): nat { Count(blocks, ByName(w)) }

  /** The first user-set block decides unless two named ones come before it. */
  ghost predicate UserSetFirst(w: Wanted, blocks: seq<Block>, i: int) {
    0 <= i < |blocks| && UserSet(w, blocks[i]) && CountNamed(w, blocks[..i]) <= 1 &&
    forall j | 0 <= j < i :: !UserSet(w, blocks[j])
  }

  ghost predicate UserBlockFirst(w: Wanted, blocks: seq<Block>) {
    exists i :: UserSetFirst(w, blocks, i)
  }

  /** The block is the only one with the generated name, and no user-set block comes in between. */
  ghost predicate OnlyNamed(w: Wanted, blocks: seq<Block>, b: Block) {
    CountNamed(w, blocks) == 1 && b in blocks && Named(w, b) && !UserBlockFirst(w, blocks)
  }

  lemma OnlyNamedIsOne(w: Wanted, blocks: seq<Block>, a: Block, b: Block)
    requires CountNamed(w, blocks) == 1 && a in blocks && Named(w, a) && b in blocks && Named(w, b)
    ensures a == b
  {
    var i: nat :| i < |blocks| && blocks[i] == a;
    var j: nat :| j < |blocks| && blocks[j] == b;
    OnlyOneCounted(blocks, ByName(w), i, j);
  }

  /** Every result with its exact condition; the block found is the first user-set or the only named one. */
  method SearchEndpointBlock(w: Wanted, blocks: seq<Block>) returns (r: Search)
    ensures forall i :: UserSetFirst(w, blocks, i) ==> r == FoundBlock(blocks[i])
    ensures forall b :: OnlyNamed(w, blocks, b) ==> r == FoundBlock(b)
    ensures r.FoundBlock? ==> UserBlockFirst(w, blocks) || OnlyNamed(w, blocks, r.block)
    ensures r.Several? <==> CountNamed(w, blocks) > 1 && !UserBlockFirst(w, blocks)
    ensures r.UserIpNotFound? <==> CountNamed(w, blocks) == 0 && w.endpoint != "" && !UserBlockFirst(w, blocks)
    ensures r.NoBlock? <==> CountNamed(w, blocks) == 0 && w.endpoint == ""
  {
    var count := 0;
    var found := None;
    var i := 0;
    while i < |blocks|
      invariant 0 <= i <= |blocks| && count == CountNamed(w, blocks[..i]) <= 1
      invariant found.Some? <==> count == 1
      invariant found.Some? ==> found.value in blocks && Named(w, found.value)
      invariant forall j | 0 <= j < i :: !UserSet(w, blocks[j])
    {
      var b := blocks[i];
      assert blocks[..i + 1][..i] == blocks[..i];
      if b.location == w.location {
        if b.name == w.name {
          count := count + 1;
          found := Some(b);
        } else if w.endpoint != "" && w.endpoint in b.ips {
          assert UserSetFirst(w, blocks, i);
          return FoundBlock(b);
        }
        if count > 1 {
          forall j | 0 <= j < |blocks| ensures !UserSetFirst(w, blocks, j) {
            if j > i {
              assert blocks[..j][..i + 1] == blocks[..i + 1];
              CountOfPrefix(blocks[..j], ByName(w), i + 1);
            }
          }
          CountOfPrefix(blocks, ByName(w), i + 1);
          return Several;
        }
      }
      i := i + 1;
    }
    assert blocks[..i] == blocks;
    if count == 0 && w.endpoint != "" { return UserIpNotFound; }
    if found.None? { return NoBlock; }
    forall b | OnlyNamed(w, blocks, b) ensures b == found.value { OnlyNamedIsOne(w, blocks, b, found.value); }
    return FoundBlock(found.value);
  }

  predicate FirstNamed(w: Wanted, blocks: seq<Block>, i: int) {
    0 <= i < |blocks| && Named(w, blocks[i]) && forall j | 0 <= j < i :: !Named(w, blocks[j])
  }

  /** getFailoverIPBlock: the first block with the generated name in the location. */
  method SearchFailoverBlock(w: Wanted, blocks: seq<Block>) returns (r: Option<Block>)
    ensures r.None? <==> forall i | 0 <= i < |blocks| :: !Named(w, blocks[i])
    ensures forall i :: FirstNamed(w, blocks, i) ==> r == Some(blocks[i])
    ensures r.Some? ==> exists i :: FirstNamed(w, blocks, i) && blocks[i] == r.value
  {
    var i := 0;
    while i < |blocks|
      invariant 0 <= i <= |blocks| && forall j | 0 <= j < i :: !Named(w, blocks[j])
    {
      if blocks[i].location == w.location && blocks[i].name == w.name {
        assert FirstNamed(w, blocks, i);
        return Some(blocks[i]);
      }
      i := i + 1;
    }
    return None;
  }

  // ---- the two deletion reconcilers, over what they observe ----

  datatype Action = Fails | Finished | Requeue | Panics | Deletes(block: Block)

  /** What findResource gives ReconcileControlPlaneEndpointDeletion. */
  datatype EndpointFind = FindFails | FindUserIpNotFound | Find(outcome: Outcome<Block>)

  function EndpointDeletion(w: Wanted, find: EndpointFind, deletion: QueueAnswer): Action {
    match find
    case FindFails => Fails
    case FindUserIpNotFound => Finished
    case Find(o) =>
      if o.Error? then Fails
      else if o.Nothing? then Finished
      else if o.Resource? && o.resource.name != w.name then Finished
      else if o.PendingOrOld? then (if Pending(o.status) then Requeue else Panics)
      else
        match deletion
        case QueueError => Fails
        case NoRequest => Deletes(o.resource)
        case Latest(status) => if Pending(status) then Requeue else Deletes(o.resource)
  }

  /** findResource over two searches of the list and the latest creation request. */
  function FindIn(first: Search, latest: QueueAnswer, second: Search): EndpointFind {
    if first.Several? then FindFails
    else if first.UserIpNotFound? then FindUserIpNotFound
    else if first.FoundBlock? then Find(Resource(first.block))
    else
      var afterQueue := AfterQueue<Block>(latest);
      if afterQueue.Some? then Find(afterQueue.value)
      else if second.Several? then FindFails
      else if second.UserIpNotFound? then FindUserIpNotFound
      else Find(AfterSecondLookup(if second.FoundBlock? then Present(second.block) else Missing))
  }

  /** The queue could be asked and no deletion of the block is under way. */
  predicate Free(deletion: QueueAnswer) {
    deletion.NoRequest? || (deletion.Latest? && !Pending(deletion.status))
  }

  /** The controller's own block that both lookups of a pass come to. */
  ghost predicate SeesOwn(w: Wanted, blocks: seq<Block>, latest: QueueAnswer, later: seq<Block>, b: Block) {
    || OnlyNamed(w, blocks, b)
    || (Nowhere(w, blocks) && latest == Latest(Done) && OnlyNamed(w, later, b))
  }

  predicate Nowhere(w: Wanted, blocks: seq<Block>) {
    w.endpoint == "" && CountNamed(w, blocks) == 0
  }

  /** Without an endpoint IP no block counts as the user's. */
  lemma NoEndpointNoUserBlock(w: Wanted, blocks: seq<Block>)
    ensures w.endpoint == "" ==> !UserBlockFirst(w, blocks)
  {
  }

  /** What the step for the endpoint needs to ask for the deletion of `b`, and what makes it panic. */
  ghost predicate Condemned(w: Wanted, blocks: seq<Block>, latest: QueueAnswer, later: seq<Block>,
                            deletion: QueueAnswer, b: Block)
  {
    SeesOwn(w, blocks, latest, later, b) && Free(deletion)
  }

  predicate Panicky(w: Wanted, blocks: seq<Block>, latest: QueueAnswer, later: seq<Block>) {
    Nowhere(w, blocks) && (latest == Latest(Failed) || (latest == Latest(Done) && Nowhere(w, later)))
  }

  /**
   The whole step for the endpoint block, from the list of blocks to the call; `later` is the list
   of the second lookup.  It asks for a deletion exactly if it sees a block of its own and none is
   under way, so never for a block of the user.  It dereferences the nil block exactly if the
   cluster has no endpoint, no block is listed, and the queue still shows a finished creation.
   */
  method ReconcileEndpointDeletion(w: Wanted, blocks: seq<Block>, latest: QueueAnswer, later: seq<Block>,
                                   deletion: QueueAnswer) returns (a: Action)
    ensures forall b :: a == Deletes(b) <==> Condemned(w, blocks, latest, later, deletion, b)
    ensures a.Panics? <==> Panicky(w, blocks, latest, later)
    ensures a.Finished? <==>
      (|| UserBlockFirst(w, blocks) || (w.endpoint != "" && CountNamed(w, blocks) == 0)
       || (Nowhere(w, blocks) && latest.NoRequest?))
    ensures a.Fails? <==>
      (|| (CountNamed(w, blocks) > 1 && !UserBlockFirst(w, blocks))
       || (Nowhere(w, blocks) && (latest.QueueError? || (latest == Latest(Done) && CountNamed(w, later) > 1)))
       || (deletion.QueueError? && exists b :: SeesOwn(w, blocks, latest, later, b)))
    ensures a.Requeue? <==>
      (|| (Nowhere(w, blocks) && latest.Latest? && Pending(latest.status))
       || (deletion.Latest? && Pending(deletion.status) && exists b :: SeesOwn(w, blocks, latest, later, b)))
  {
    NoEndpointNoUserBlock(w, blocks);
    NoEndpointNoUserBlock(w, later);
    var first := SearchEndpointBlock(w, blocks);
    var second := SearchEndpointBlock(w, later);
    assert forall i :: UserSetFirst(w, blocks, i) ==> blocks[i].name != w.name;
    assert first.FoundBlock? && Named(w, first.block) ==> OnlyNamed(w, blocks, first.block);
    assert second.FoundBlock? ==> Nowhere(w, blocks) ==> OnlyNamed(w, later, second.block);
    a := EndpointDeletion(w, FindIn(first, latest, second), deletion);
    assert a.Deletes? || (deletion.QueueError? && a.Fails?) ||
           (deletion.Latest? && Pending(deletion.status) && a.Requeue?) ==>
      first.Several? || (Nowhere(w, blocks) && (latest.QueueError? || second.Several?)) ||
      (first.FoundBlock? && SeesOwn(w, blocks, latest, later, first.block)) ||
      (second.FoundBlock? && SeesOwn(w, blocks, latest, later, second.block)) ||
      (Nowhere(w, blocks) && latest.Latest? && Pending(latest.status));
  }

  /**
   The panic comes in the ordinary course of things: as long as the endpoint was never written to
   the cluster, the controller's own block is deleted in one pass, from among any other blocks, and
   the pass after its deletion panics.
   */
  lemma DeletionThenPanic(w: Wanted, blocks: seq<Block>, i: nat)
    requires w.endpoint == "" && i < |blocks| && Named(w, blocks[i]) && CountNamed(w, blocks) == 1
    ensures Condemned(w, blocks, NoRequest, blocks, NoRequest, blocks[i])
    ensures Panicky(w, Without(blocks, i), Latest(Done), Without(blocks, i))
  {
    NoEndpointNoUserBlock(w, blocks);
    assert OnlyNamed(w, blocks, blocks[i]);
    var rest := Without(blocks, i);
    forall j | 0 <= j < |rest| ensures !Named(w, rest[j]) {
      var k := if j < i then j else j + 1;
      assert rest[j] == blocks[k];
      if Named(w, blocks[k]) { OnlyOneCounted(blocks, ByName(w), k, i); }
    }
    CountedNever(rest, ByName(w));
  }

  /** The failover list of the LAN as read in the pass. */
  datatype LanRead = LanFails | NoLan | LanList(entries: seq<F.Entry>)

  /** shouldSkipIPBlockDeletion. */
  method StillUsed(lan: LanRead, ips: set<string>) returns (used: bool)
    ensures used <==> Uses(lan, ips)
  {
    if !lan.LanList? { return false; }
    var i := 0;
    while i < |lan.entries|
      invariant 0 <= i <= |lan.entries| && forall j | 0 <= j < i :: F.Ip(lan.entries[j]) !in ips
    {
      if F.Ip(lan.entries[i]) in ips { return true; }
      i := i + 1;
    }
    return false;
  }

  predicate Uses(lan: LanRead, ips: set<string>) {
    lan.LanList? && exists i | 0 <= i < |lan.entries| :: F.Ip(lan.entries[i]) in ips
  }

  function IpSet(b: Block): set<string> { set ip | ip in b.ips }

  function FailoverBlockDeletion(auto: bool, find: Outcome<Block>, deletion: QueueAnswer, lan: LanRead): Action {
    if !auto then Finished
    else if find.Error? then Fails
    else if !find.Resource? then (if find.PendingOrOld? && Pending(find.status) then Requeue else Finished)
    else if deletion.QueueError? then Fails
    else if deletion.Latest? && Pending(deletion.status) then Requeue
    else if deletion.Latest? && deletion.status.Done? then Finished
    else if lan.LanFails? then Fails
    else if Uses(lan, IpSet(find.resource)) then Finished
    else Deletes(find.resource)
  }

  /**
   A failover block is deleted exactly if the spec says AUTO, the block was found, no deletion of
   it is pending or done, and the LAN list read in this pass has none of its IPs.
   */
  lemma FailoverBlockDeletesIff(auto: bool, find: Outcome<Block>, deletion: QueueAnswer, lan: LanRead, b: Block)
    ensures FailoverBlockDeletion(auto, find, deletion, lan) == Deletes(b) <==>
      (auto && find == Resource(b) && deletion in {NoRequest, Latest(Failed)} && !lan.LanFails? &&
       (lan.LanList? ==> forall i | 0 <= i < |lan.entries| :: F.Ip(lan.entries[i]) !in b.ips))
  {
    if lan.LanList? && find.Resource? {
      assert forall ip :: ip in IpSet(find.resource) <==> ip in find.resource.ips;
    }
  }

  ghost predicate FirstFound(w: Wanted, blocks: seq<Block>, b: Block) {
    exists i :: FirstNamed(w, blocks, i) && blocks[i] == b
  }

  predicate NoneNamed(w: Wanted, blocks: seq<Block>) {
    forall i | 0 <= i < |blocks| :: !Named(w, blocks[i])
  }

  /** The failover block that both lookups of a pass come to. */
  ghost predicate SeesFailover(w: Wanted, blocks: seq<Block>, latest: QueueAnswer, later: seq<Block>, b: Block) {
    FirstFound(w, blocks, b) || (NoneNamed(w, blocks) && latest == Latest(Done) && FirstFound(w, later, b))
  }

  /**
   The whole step for a failover block, from the list of blocks to the call: it asks for a deletion
   exactly if the spec says AUTO, it sees the block, no deletion of it is under way or done, and
   the LAN list read in this pass has none of its IPs.
   */
  method ReconcileFailoverBlockDeletion(auto: bool, w: Wanted, blocks: seq<Block>, latest: QueueAnswer,
                                        later: seq<Block>, deletion: QueueAnswer, lan: LanRead)
    returns (a: Action)
    ensures forall b :: a == Deletes(b) <==>
      (&& auto && SeesFailover(w, blocks, latest, later, b) && deletion in {NoRequest, Latest(Failed)}
       && !lan.LanFails?
       && (lan.LanList? ==> forall i | 0 <= i < |lan.entries| :: F.Ip(lan.entries[i]) !in b.ips))
    ensures a.Requeue? <==>
      (&& auto
       && (|| (NoneNamed(w, blocks) && latest.Latest? && Pending(latest.status))
           || (deletion.Latest? && Pending(deletion.status) && exists b :: SeesFailover(w, blocks, latest, later, b))))
    ensures a.Fails? <==>
      (&& auto
       && (|| (NoneNamed(w, blocks) && latest.QueueError?)
           || (&& (exists b :: SeesFailover(w, blocks, latest, later, b))
               && (deletion.QueueError? || (deletion in {NoRequest, Latest(Failed)} && lan.LanFails?)))))
    ensures !a.Panics?
  {
    var first := SearchFailoverBlock(w, blocks);
    var find: Outcome<Block>;
    if first.Some? {
      find := Resource(first.value);
    } else {
      var afterQueue := AfterQueue<Block>(latest);
      if afterQueue.Some? {
        find := afterQueue.value;
      } else {
        var second := SearchFailoverBlock(w, later);
        find := AfterSecondLookup(if second.Some? then Present(second.value) else Missing);
      }
    }
    a := FailoverBlockDeletion(auto, find, deletion, lan);
    forall b ensures find == Resource(b) <==> SeesFailover(w, blocks, latest, later, b) {}
    forall b { FailoverBlockDeletesIff(auto, find, deletion, lan, b); }
  }
}
