/** Finding a request in the queue and a resource with the help of the queue (internal/service/cloud/request.go). */
module Requests {
  import opened Base

  datatype Status = Queued | Running | Done | Failed

  predicate Pending(s: Status) { s.Queued? || s.Running? }

  // ---- getMatchingRequest ----

  /** An entry of the request list: creation date, target types, URL, body, status and location. */
  datatype Request = Request(
    created: nat, targets: seq<string>, url: string, body: string, status: Status, href: string)

  datatype Info = Info(status: Status, location: string)

  datatype Answer = Unsupported | Malformed | Found(info: Option<Info>)

  /** Everything before the first question mark. */
  function StripQuery(url: string): string {
    if url == "" || url[0] == '?' then "" else [url[0]] + StripQuery(url[1..])
  }

  function TrimSlash(url: string): string {
    if url != "" && url[|url| - 1] == '/' then url[..|url| - 1] else url
  }

  /** The longest part of a URL that has no query, and what follows it is one. */
  lemma {:induction false} StripQuerySplits(url: string)
    ensures StripQuery(url) <= url && '?' !in StripQuery(url)
    ensures |StripQuery(url)| < |url| ==> url[|StripQuery(url)|] == '?'
  {
    if url != "" && url[0] != '?' {
      StripQuerySplits(url[1..]);
      assert url == [url[0]] + url[1..];
    }
  }

  /** A request for a URL with or without a trailing slash and with any query or none is one for that URL. */
  lemma NormalIgnores(url: string, query: string)
    requires '?' !in url && (url != "" ==> url[|url| - 1] != '/') && (query != "" ==> query[0] == '?')
    ensures Normal(url + query) == url && Normal(url + "/" + query) == url
  {
    StripQueryStops(url, query);
    var slashed := url + "/";
    StripQueryStops(slashed, query);
    assert slashed[..|url|] == url;
  }

  lemma {:induction false} StripQueryStops(url: string, query: string)
    requires '?' !in url && (query != "" ==> query[0] == '?')
    ensures StripQuery(url + query) == url
  {
    if url == "" {
      assert url + query == query;
    } else {
      assert url[0] in url;
      StripQueryStops(url[1..], query);
      assert (url + query)[1..] == url[1..] + query;
    }
  }

  predicate HasSuffix(s: string, suffix: string) {
    |suffix| <= |s| && s[|s| - |suffix|..] == suffix
  }

  lemma HasSuffixIff(s: string, suffix: string)
    ensures HasSuffix(s, suffix) <==> exists front: string :: s == front + suffix
  {
    if HasSuffix(s, suffix) { assert s == s[..|s| - |suffix|] + suffix; }
    if front: string :| s == front + suffix { assert s[|front|..] == suffix; }
  }

  function Normal(url: string): string { TrimSlash(StripQuery(url)) }

  /** The request is about a resource of this type at this very URL. */
  predicate Addressed(req: Request, resourceType: string, url: string) {
    resourceType in req.targets && HasSuffix(Normal(req.url), Normal(url))
  }

  /** A body the code has to read and cannot. */
  predicate Unreadable<T>(req: Request, unmarshal: string -> Option<T>, matchers: seq<(T, Request) -> bool>) {
    matchers != [] && unmarshal(req.body).None?
  }

  predicate AllMatch<T(!new)>(req: Request, unmarshal: string -> Option<T>, matchers: seq<(T, Request) -> bool>) {
    matchers == [] ||
    (unmarshal(req.body).Some? && forall i | 0 <= i < |matchers| :: matchers[i](unmarshal(req.body).value, req))
  }

  /** The loop stops at this request, with an answer or with an error. */
  predicate Stops<T(!new)>(req: Request, resourceType: string, url: string,
                           unmarshal: string -> Option<T>, matchers: seq<(T, Request) -> bool>) {
    Addressed(req, resourceType, url) && (Unreadable(req, unmarshal, matchers) || AllMatch(req, unmarshal, matchers))
  }

  /** `at` is where the loop stops. */
  ghost predicate StopsFirst<T(!new)>(requests: seq<Request>, at: int, resourceType: string, url: string,
                                      unmarshal: string -> Option<T>, matchers: seq<(T, Request) -> bool>) {
    0 <= at < |requests| && Stops(requests[at], resourceType, url, unmarshal, matchers) &&
    forall j | 0 <= j < at :: !Stops(requests[j], resourceType, url, unmarshal, matchers)
  }

  /** The order in which the client hands out requests. */
  predicate NewestFirst(requests: seq<Request>) {
    forall i, j | 0 <= i < j < |requests| :: requests[j].created <= requests[i].created
  }

  method MatchAll<T(!new)>(resource: T, req: Request, matchers: seq<(T, Request) -> bool>) returns (all: bool)
    ensures all <==> forall n | 0 <= n < |matchers| :: matchers[n](resource, req)
  {
    var m := 0;
    while m < |matchers|
      invariant 0 <= m <= |matchers|
      invariant forall n | 0 <= n < m :: matchers[n](resource, req)
    {
      if !matchers[m](resource, req) { return false; }
      m := m + 1;
    }
    return true;
  }

  /** The request at `at` is the answer: the loop stops at it, and nothing it would stop at is newer. */
  ghost predicate Answers<T(!new)>(requests: seq<Request>, at: int, resourceType: string, url: string,
                                   unmarshal: string -> Option<T>, matchers: seq<(T, Request) -> bool>, info: Info) {
    && StopsFirst(requests, at, resourceType, url, unmarshal, matchers)
    && AllMatch(requests[at], unmarshal, matchers)
    && info == Info(requests[at].status, requests[at].href)
    && (NewestFirst(requests) ==>
          forall j | 0 <= j < |requests| && Stops(requests[j], resourceType, url, unmarshal, matchers) ::
            requests[j].created <= requests[at].created)
  }

  /**
   The answer is the first request of the list that is addressed and matches, unless an addressed
   request before it is unreadable.  With the list newest first, nothing that matches is newer.
   */
  method GetMatchingRequest<T(!new)>(requests: seq<Request>, resourceType: string, url: string,
                                     unmarshal: string -> Option<T>, matchers: seq<(T, Request) -> bool>)
    returns (r: Answer)
    ensures r.Unsupported? <==> resourceType == ""
    ensures r == Found(None) <==>
      (resourceType != "" &&
       forall j | 0 <= j < |requests| :: !Stops(requests[j], resourceType, url, unmarshal, matchers))
    ensures r.Malformed? <==>
      (resourceType != "" && exists at ::
        StopsFirst(requests, at, resourceType, url, unmarshal, matchers) &&
        Unreadable(requests[at], unmarshal, matchers))
    ensures r.Found? && r.info.Some? ==> exists at ::
      Answers(requests, at, resourceType, url, unmarshal, matchers, r.info.value)
  {
    if resourceType == "" { return Unsupported; }
    var i := 0;
    while i < |requests|
      invariant 0 <= i <= |requests|
      invariant forall j | 0 <= j < i :: !Stops(requests[j], resourceType, url, unmarshal, matchers)
    {
      var req := requests[i];
      if resourceType in req.targets && HasSuffix(Normal(req.url), Normal(url)) {
        var all := true;
        if |matchers| > 0 {
          var resource := unmarshal(req.body);
          if resource.None? {
            assert StopsFirst(requests, i, resourceType, url, unmarshal, matchers);
            return Malformed;
          }
          all := MatchAll(resource.value, req, matchers);
        }
        if all {
          assert Answers(requests, i, resourceType, url, unmarshal, matchers, Info(req.status, req.href));
          return Found(Some(Info(req.status, req.href)));
        }
      }
      i := i + 1;
    }
    return Found(None);
  }

  // ---- findResource ----

  /** What one look for the resource gives; a NotFound error counts as nothing. */
  datatype Lookup<+T> = LookupError | Missing | Present(resource: T)

  datatype QueueAnswer = QueueError | NoRequest | Latest(status: Status)

  datatype Outcome<+T> = Error | Resource(resource: T) | PendingOrOld(status: Status) | Nothing

  /** None: the queue has to be asked. */
  function AfterFirstLookup<T>(first: Lookup<T>): Option<Outcome<T>> {
    match first
    case LookupError => Some(Error)
    case Present(x) => Some(Resource(x))
    case Missing => None
  }

  /** None: the resource has to be looked for once more. */
  function AfterQueue<T>(queue: QueueAnswer): Option<Outcome<T>> {
    match queue
    case QueueError => Some(Error)
    case NoRequest => Some(Nothing)
    case Latest(status) => if status.Done? then None else Some(PendingOrOld(status))
  }

  function AfterSecondLookup<T>(second: Lookup<T>): Outcome<T> {
    match second
    case LookupError => Error
    case Present(x) => Resource(x)
    case Missing => PendingOrOld(Done)
  }

  /** Whether the reconcilers go on to create: neither a resource nor a pending request was found. */
  predicate GoesOnToCreate<T>(o: Outcome<T>) {
    o.Nothing? || (o.PendingOrOld? && !Pending(o.status))
  }
}
