/**
 The observations of module CreateOnce are what the code's own searches give: the queue question is
 getMatchingRequest over the list of requests, and the lookups are getServer and
 getControlPlaneEndpointIPBlock over the listed resources.
 */
module ObservedCreations {
  import opened Base
  import opened Requests
  import C = CreateOnce
  import SL = ServerLookup
  import IB = IpBlocks

  // ---- the queue question ----

  /** What getMatchingRequest is asked for. */
  datatype Question<!T(!new)> = Question(
    resourceType: string, url: string, unmarshal: string -> Option<T>, matchers: seq<(T, Request) -> bool>)

  ghost predicate Matches<T(!new)>(q: Question<T>, r: Request) {
    Addressed(r, q.resourceType, q.url) && AllMatch(r, q.unmarshal, q.matchers)
  }

  /** The request stands for this creation. */
  predicate StandsFor(r: Request, e: C.Creation) { r.created == e.at && r.status == e.status }

  ghost predicate Listing<T(!new)>(q: Question<T>, s: C.System, requests: seq<Request>, j: int, i: int) {
    0 <= j < |requests| && 0 <= i < |s.log| && C.Visible(s, s.log[i]) && Matches(q, requests[j]) &&
    StandsFor(requests[j], s.log[i])
  }

  /**
   The list is newest first; among requests about other things it shows exactly the visible creations
   of the name; and what it shows of this type and place can be read.
   */
  ghost predicate Shows<T(!new)>(q: Question<T>, s: C.System, requests: seq<Request>) {
    && NewestFirst(requests)
    && (forall j | 0 <= j < |requests| && Addressed(requests[j], q.resourceType, q.url) ::
          !Unreadable(requests[j], q.unmarshal, q.matchers))
    && (forall j | 0 <= j < |requests| && Matches(q, requests[j]) :: exists i :: Listing(q, s, requests, j, i))
    && (forall i | 0 <= i < |s.log| && C.Visible(s, s.log[i]) :: exists j :: Listing(q, s, requests, j, i))
  }

  lemma NewestIsLast(c: C.Bounds, s: C.System, i: int)
    requires C.LogOk(c, s) && 0 <= i < |s.log| && C.Visible(s, s.log[i])
    ensures C.Visible(s, s.log[|s.log| - 1]) && s.log[i].at <= s.log[|s.log| - 1].at
    ensures s.log[i].at == s.log[|s.log| - 1].at ==> i == |s.log| - 1
  {
  }

  /**
   getMatchingRequest over such a list gives the answer that creating at most once relies on, in every
   state CreateOnce.RunKeepsInv or LockedCreate.RunKeepsInv speaks of.
   */
  method AskQueue<T(!new)>(ghost c: C.Bounds, ghost s: C.System, q: Question<T>, requests: seq<Request>)
    returns (r: Answer)
    requires C.LogOk(c, s) && q.resourceType != "" && Shows(q, s, requests)
    ensures r.Found?
    ensures C.AskQueue(s) == if r.info.None? then NoRequest else Latest(r.info.value.status)
  {
    r := GetMatchingRequest(requests, q.resourceType, q.url, q.unmarshal, q.matchers);
    C.QueueShowsNewest(c, s, |s.log|);
    NothingIsMalformed(s, q, requests, r);
    if r == Found(None) {
      NoMatchNoneVisible(s, q, requests);
    } else {
      ghost var at :| Answers(requests, at, q.resourceType, q.url, q.unmarshal, q.matchers, r.info.value);
      AnswerIsNewest(q, requests, at, r.info.value);
      NewestMatchIsLast(c, s, q, requests, at);
    }
  }

  lemma NothingIsMalformed<T(!new)>(s: C.System, q: Question<T>, requests: seq<Request>, r: Answer)
    requires Shows(q, s, requests)
    requires r.Malformed? ==> exists at ::
      StopsFirst(requests, at, q.resourceType, q.url, q.unmarshal, q.matchers) &&
      Unreadable(requests[at], q.unmarshal, q.matchers)
    ensures !r.Malformed?
  {
  }

  lemma NoMatchNoneVisible<T(!new)>(s: C.System, q: Question<T>, requests: seq<Request>)
    requires Shows(q, s, requests)
    requires forall j | 0 <= j < |requests| :: !Stops(requests[j], q.resourceType, q.url, q.unmarshal, q.matchers)
    ensures forall i | 0 <= i < |s.log| :: !C.Visible(s, s.log[i])
  {
    forall i | 0 <= i < |s.log| ensures !C.Visible(s, s.log[i]) {
      forall j ensures !Listing(q, s, requests, j, i) {
        assert 0 <= j < |requests| ==> !Stops(requests[j], q.resourceType, q.url, q.unmarshal, q.matchers);
      }
    }
  }

  ghost predicate NewestMatch<T(!new)>(q: Question<T>, requests: seq<Request>, at: int) {
    && 0 <= at < |requests| && Matches(q, requests[at])
    && forall j | 0 <= j < |requests| && Matches(q, requests[j]) :: requests[j].created <= requests[at].created
  }

  lemma AnswerIsNewest<T(!new)>(q: Question<T>, requests: seq<Request>, at: int, info: Info)
    requires NewestFirst(requests)
    requires Answers(requests, at, q.resourceType, q.url, q.unmarshal, q.matchers, info)
    ensures NewestMatch(q, requests, at) && info.status == requests[at].status
  {
    forall j | 0 <= j < |requests| && Matches(q, requests[j]) ensures requests[j].created <= requests[at].created {
      assert Stops(requests[j], q.resourceType, q.url, q.unmarshal, q.matchers);
    }
  }

  lemma MatchIsListed<T(!new)>(s: C.System, q: Question<T>, requests: seq<Request>, j: int) returns (i: int)
    requires Shows(q, s, requests) && 0 <= j < |requests| && Matches(q, requests[j])
    ensures Listing(q, s, requests, j, i)
  {
    i :| Listing(q, s, requests, j, i);
  }

  lemma VisibleIsListed<T(!new)>(s: C.System, q: Question<T>, requests: seq<Request>, i: int) returns (j: int)
    requires Shows(q, s, requests) && 0 <= i < |s.log| && C.Visible(s, s.log[i])
    ensures Listing(q, s, requests, j, i)
  {
    j :| Listing(q, s, requests, j, i);
  }

  /** The creation behind the newest match is no older than the newest creation, so it is that one. */
  lemma NewestStandsForLast<T(!new)>(c: C.Bounds, s: C.System, q: Question<T>, requests: seq<Request>,
                                     at: int, i: int, j: int)
    requires C.LogOk(c, s) && NewestMatch(q, requests, at)
    requires Listing(q, s, requests, at, i) && Listing(q, s, requests, j, |s.log| - 1)
    ensures i == |s.log| - 1
  {
    NewestIsLast(c, s, i);
  }

  lemma NewestMatchIsLast<T(!new)>(c: C.Bounds, s: C.System, q: Question<T>, requests: seq<Request>, at: int)
    requires C.LogOk(c, s) && Shows(q, s, requests) && NewestMatch(q, requests, at)
    ensures s.log != [] && C.Visible(s, s.log[|s.log| - 1]) && s.log[|s.log| - 1].status == requests[at].status
  {
    var i := MatchIsListed(s, q, requests, at);
    NewestIsLast(c, s, i);
    var j := VisibleIsListed(s, q, requests, |s.log| - 1);
    NewestStandsForLast(c, s, q, requests, at, i, j);
  }

  // ---- the lookups ----

  lemma AtMostOneListed(c: C.Bounds, s: C.System)
    requires C.BoundsOk(c) && C.Reachable(c, s)
    ensures |C.Listed(s)| <= 1
  {
    C.AtMostOne(c, s);
  }

  /**
   getServer over any list that shows the listed servers of the machine: it finds none exactly if the
   lookup of CreateOnce does, and what it finds by name is the only one there is.
   */
  method LookUpServer(ghost c: C.Bounds, ghost s: C.System, m: SL.MachineObject, servers: seq<SL.Server>)
    returns (r: Option<SL.Server>)
    requires C.BoundsOk(c) && C.Reachable(c, s) && SL.CountNamed(servers, m.name) == |C.Listed(s)|
    requires m.serverID != "" ==>
      forall i | 0 <= i < |servers| && servers[i].id == m.serverID :: SL.Named(servers[i], m.name)
    modifies m
    ensures r.None? <==> C.LookUp(s).Missing?
    ensures r.Some? <==> C.LookUp(s).Present?
    ensures forall i | 0 <= i < |servers| && SL.Named(servers[i], m.name) :: r == Some(servers[i])
  {
    AtMostOneListed(c, s);
    r := m.GetServer(servers);
    if r.None? {
      CountedNever(servers, SL.ByName(m.name));
    } else {
      ServerIsOnly(servers, m.name, r.value);
    }
  }

  lemma ServerIsOnly(servers: seq<SL.Server>, name: string, x: SL.Server)
    requires x in servers && SL.Named(x, name) && SL.CountNamed(servers, name) <= 1
    ensures SL.CountNamed(servers, name) == 1
    ensures forall i | 0 <= i < |servers| && SL.Named(servers[i], name) :: servers[i] == x
  {
    var k: nat :| k < |servers| && servers[k] == x;
    CountedOnce(servers, SL.ByName(name), k);
    forall i | 0 <= i < |servers| && SL.Named(servers[i], name) ensures servers[i] == x {
      OnlyOneCounted(servers, SL.ByName(name), i, k);
    }
  }

  /**
   getControlPlaneEndpointIPBlock for a cluster without an endpoint, the only one that reserves a
   block: it never ends in the error for several blocks, and finds what CreateOnce looks up.
   */
  method LookUpEndpointBlock(ghost c: C.Bounds, ghost s: C.System, wanted: IB.Wanted, blocks: seq<IB.Block>)
    returns (r: IB.Search)
    requires C.BoundsOk(c) && C.Reachable(c, s) && IB.CountNamed(wanted, blocks) == |C.Listed(s)|
    requires wanted.endpoint == ""
    ensures r.NoBlock? <==> C.LookUp(s).Missing?
    ensures r.FoundBlock? <==> C.LookUp(s).Present?
    ensures !r.Several? && !r.UserIpNotFound?
  {
    AtMostOneListed(c, s);
    r := IB.SearchEndpointBlock(wanted, blocks);
  }
}
