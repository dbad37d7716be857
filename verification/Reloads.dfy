/** Which consumer a request belongs to, and what each request counts as after a reconnection. */
module Reloads {
  import opened Sequences
  import opened Wrappers

  // ---------------------------------------------------------------- endpoints

  predicate EndsPath(c: char) {
    c == '?' || c == '#'
  }

  function PathnameOf(path: string): string {
    if path == "" || EndsPath(path[0]) then "" else [path[0]] + PathnameOf(path[1..])
  }

  function DropSlashes(s: string): string {
    if s != "" && s[|s| - 1] == '/' then DropSlashes(s[..|s| - 1]) else s
  }

  function Base(endpoint: string): string {
    DropSlashes(PathnameOf(endpoint))
  }

  predicate Covers(endpoint: string, pathname: string) {
    pathname == Base(endpoint) || Base(endpoint) + "/" <= pathname
  }

  /** Up to the first question mark or hash. */
  lemma {:induction false} PathnameExactly(path: string)
    ensures PathnameOf(path) <= path && '?' !in PathnameOf(path) && '#' !in PathnameOf(path)
    ensures |PathnameOf(path)| < |path| ==> path[|PathnameOf(path)|] == '?' || path[|PathnameOf(path)|] == '#'
  {
    if path != "" && !EndsPath(path[0]) {
      PathnameExactly(path[1..]);
      assert path[1..][|PathnameOf(path[1..])|..] == path[1 + |PathnameOf(path[1..])|..];
    }
  }

  /** Without the slashes at its end, all of them. */
  lemma {:induction false} SlashesExactly(s: string)
    ensures DropSlashes(s) <= s && forall i :: |DropSlashes(s)| <= i < |s| ==> s[i] == '/'
    ensures DropSlashes(s) != "" ==> DropSlashes(s)[|DropSlashes(s)| - 1] != '/'
  {
    if s != "" && s[|s| - 1] == '/' {
      SlashesExactly(s[..|s| - 1]);
    }
  }

  /** An endpoint covers the path that it names and everything a slash further down, and nothing that merely starts
      with the same characters. */
  lemma CoversExactly(endpoint: string, pathname: string)
    ensures var base := DropSlashes(PathnameOf(endpoint));
      Covers(endpoint, pathname) <==>
        |base| <= |pathname| && pathname[..|base|] == base && (|base| < |pathname| ==> pathname[|base|] == '/')
  {
    var base := DropSlashes(PathnameOf(endpoint));
    if |base| < |pathname| {
      assert pathname[..|base| + 1] == pathname[..|base|] + [pathname[|base|]];
    }
  }

  function Match(pathname: string, endpoints: seq<string>): Option<string> {
    if endpoints == [] then None
    else
      var best, last := Match(pathname, endpoints[..|endpoints| - 1]), endpoints[|endpoints| - 1];
      if Covers(last, pathname) && (best.None? || |Base(best.value)| < |Base(last)|) then Some(last) else best
  }

  method MatchEndpoint(pathname: string, endpoints: seq<string>) returns (best: Option<string>)
    ensures best == Match(pathname, endpoints)
  {
    best := None;
    var bestLength := -1;
    for i := 0 to |endpoints|
      invariant best == Match(pathname, endpoints[..i])
      invariant bestLength == if best.None? then -1 else |Base(best.value)|
    {
      assert endpoints[..i + 1][..i] == endpoints[..i];
      var base := Base(endpoints[i]);
      if |base| <= bestLength {
        continue;
      }
      if pathname == base || base + "/" <= pathname {
        best := Some(endpoints[i]);
        bestLength := |base|;
      }
    }
    assert endpoints[..|endpoints|] == endpoints;
  }

  /** `at` is the place of the first endpoint with the longest base that covers the path. */
  predicate LongestAt(pathname: string, endpoints: seq<string>, at: nat) {
    && at < |endpoints|
    && Covers(endpoints[at], pathname)
    && (forall j :: 0 <= j < |endpoints| && Covers(endpoints[j], pathname) ==>
          |Base(endpoints[j])| <= |Base(endpoints[at])|)
    && (forall j :: 0 <= j < at && Covers(endpoints[j], pathname) ==>
          |Base(endpoints[j])| < |Base(endpoints[at])|)
  }

  /** The longest so far, and an endpoint after it that is longer or not. */
  lemma LongestOneMore(pathname: string, rest: seq<string>, last: string, k: nat)
    requires LongestAt(pathname, rest, k)
    ensures Covers(last, pathname) && |Base(rest[k])| < |Base(last)| ==> LongestAt(pathname, rest + [last], |rest|)
    ensures !(Covers(last, pathname) && |Base(rest[k])| < |Base(last)|) ==> LongestAt(pathname, rest + [last], k)
  {
  }

  lemma FirstToCover(pathname: string, rest: seq<string>, last: string)
    requires forall e :: e in rest ==> !Covers(e, pathname)
    ensures Covers(last, pathname) ==> LongestAt(pathname, rest + [last], |rest|)
  {
    forall j | 0 <= j < |rest| ensures !Covers((rest + [last])[j], pathname) {
      assert (rest + [last])[j] == rest[j] && rest[j] in rest;
    }
  }

  /** What a match says about the endpoints. */
  ghost predicate Matches(pathname: string, endpoints: seq<string>, best: Option<string>) {
    match best
    case None => forall e :: e in endpoints ==> !Covers(e, pathname)
    case Some(e) => exists k: nat :: LongestAt(pathname, endpoints, k) && e == endpoints[k]
  }

  lemma MatchesOneMore(pathname: string, rest: seq<string>, last: string, best: Option<string>, next: Option<string>)
    requires Matches(pathname, rest, best)
    requires next ==
      if Covers(last, pathname) && (best.None? || |Base(best.value)| < |Base(last)|) then Some(last) else best
    ensures Matches(pathname, rest + [last], next)
  {
    if best.None? {
      FirstToCover(pathname, rest, last);
    } else {
      var k: nat :| LongestAt(pathname, rest, k) && best.value == rest[k];
      LongestOneMore(pathname, rest, last, k);
    }
  }

  lemma {:induction false} MatchMatches(pathname: string, endpoints: seq<string>)
    ensures Matches(pathname, endpoints, Match(pathname, endpoints))
  {
    if |endpoints| > 0 {
      var n := |endpoints| - 1;
      MatchMatches(pathname, endpoints[..n]);
      var best, next := Match(pathname, endpoints[..n]), Match(pathname, endpoints);
      MatchesOneMore(pathname, endpoints[..n], endpoints[n], best, next);
      assert endpoints == endpoints[..n] + [endpoints[n]];
    }
  }

  /** A request goes to the first endpoint with the longest covering prefix, and to none exactly when no
      endpoint covers it. */
  lemma MatchIsLongest(pathname: string, endpoints: seq<string>)
    ensures Match(pathname, endpoints).None? <==> forall e :: e in endpoints ==> !Covers(e, pathname)
    ensures Match(pathname, endpoints).Some? ==>
      exists k: nat :: LongestAt(pathname, endpoints, k) && Match(pathname, endpoints) == Some(endpoints[k])
  {
    MatchMatches(pathname, endpoints);
    if Match(pathname, endpoints).Some? {
      var k: nat :| LongestAt(pathname, endpoints, k) && Match(pathname, endpoints) == Some(endpoints[k]);
    }
  }

  /** Two covering endpoints with bases of one length have the same base: the choice depends on the order
      of the endpoints only between spellings of one path. */
  lemma CoveringBasesAgree(pathname: string, e: string, f: string)
    requires Covers(e, pathname) && Covers(f, pathname) && |Base(e)| == |Base(f)|
    ensures Base(e) == Base(f)
  {
    assert Base(e) == pathname[..|Base(e)|];
    assert Base(f) == pathname[..|Base(f)|];
  }

  // ---------------------------------------------------------------- classification

  datatype Request = Request(path: string, at: int)

  datatype Input = Input(
    requests: seq<Request>, endpoints: seq<string>, connectedAt: int, windowMs: int, pollingIntervalMs: int,
    documentNavigations: Option<seq<int>>)

  datatype EndpointReloads = EndpointReloads(attributable: bool, inWindow: nat, polling: nat)

  datatype Classification = Classification(
    attributable: nat, duplicates: nat, polling: nat, beforeConnected: nat, unclassified: nat,
    documentReloads: nat, byEndpoint: map<string, EndpointReloads>)

  datatype Kind = Foreign | BeforeConnected | InWindow | Polling | Unclassified

  predicate IsInWindow(at: int, connectedAt: int, windowMs: int) {
    connectedAt <= at <= connectedAt + windowMs
  }

  function Owner(input: Input, r: Request): Option<string> {
    Match(PathnameOf(r.path), input.endpoints)
  }

  function KindOf(input: Input, r: Request): Kind {
    if Owner(input, r).None? then Foreign
    else if r.at < input.connectedAt then BeforeConnected
    else if r.at <= input.connectedAt + input.windowMs then InWindow
    else if r.at - input.connectedAt >= input.pollingIntervalMs then Polling
    else Unclassified
  }

  /** What a request counts as, from the endpoints that cover it and the time since the connection. */
  lemma KindExactly(input: Input, r: Request)
    ensures var covered, since :=
        exists e :: e in input.endpoints && Covers(e, PathnameOf(r.path)), r.at - input.connectedAt;
      var kind := KindOf(input, r);
      && (kind.Foreign? <==> !covered)
      && (kind.BeforeConnected? <==> covered && since < 0)
      && (kind.InWindow? <==> covered && 0 <= since <= input.windowMs)
      && (kind.Polling? <==> covered && since >= 0 && since > input.windowMs && since >= input.pollingIntervalMs)
      && (kind.Unclassified? <==> covered && since >= 0 && input.windowMs < since < input.pollingIntervalMs)
  {
    MatchIsLongest(PathnameOf(r.path), input.endpoints);
  }

  function Of(input: Input, kind: Kind): Request -> bool {
    (r: Request) => KindOf(input, r) == kind
  }

  function OwnedBy(input: Input, endpoint: string): Request -> bool {
    (r: Request) => Owner(input, r) == Some(endpoint)
  }

  function OwnedAs(input: Input, endpoint: string, kind: Kind): Request -> bool {
    (r: Request) => KindOf(input, r) == kind && Owner(input, r) == Some(endpoint)
  }

  function Windowed(connectedAt: int, windowMs: int): Request -> bool {
    (r: Request) => IsInWindow(r.at, connectedAt, windowMs)
  }

  /** More than one of these requests in the window. */
  ghost predicate Duplicated(requests: seq<Request>, connectedAt: int, windowMs: int) {
    exists i: nat, j: nat ::
      i < j && Holds(Windowed(connectedAt, windowMs), requests, i) && Holds(Windowed(connectedAt, windowMs), requests, j)
  }

  method IsDuplicateReload(requests: seq<Request>, connectedAt: int, windowMs: int) returns (r: bool)
    ensures r <==> Duplicated(requests, connectedAt, windowMs)
  {
    var inWindow := 0;
    ghost var p := Windowed(connectedAt, windowMs);
    for i := 0 to |requests|
      invariant inWindow == Count(p, requests[..i]) <= 1
    {
      assert requests[..i + 1][..i] == requests[..i];
      if IsInWindow(requests[i].at, connectedAt, windowMs) {
        inWindow := inWindow + 1;
        if inWindow > 1 {
          CountPair(p, requests[..i + 1]);
          ghost var a: nat, b: nat :| a < b && Holds(p, requests[..i + 1], a) && Holds(p, requests[..i + 1], b);
          assert Holds(p, requests, a) && Holds(p, requests, b);
          return true;
        }
      }
    }
    assert requests[..|requests|] == requests;
    CountPair(p, requests);
    return false;
  }

  // ---------------------------------------------------------------- sums over the endpoints

  /** How many of the requests are of a kind and belong to an endpoint. */
  function Share(input: Input, kind: Kind, requests: seq<Request>, e: string): nat {
    Count(OwnedAs(input, e, kind), requests)
  }

  function Shares(input: Input, kind: Kind, requests: seq<Request>): string -> nat {
    (e: string) => Share(input, kind, requests, e)
  }

  function Total(order: seq<string>, f: string -> nat): nat {
    if order == [] then 0 else Total(order[..|order| - 1], f) + f(order[|order| - 1])
  }

  lemma {:induction false} TotalBump(order: seq<string>, f: string -> nat, g: string -> nat, e: string)
    requires NoRepeats(order)
    requires forall x :: g(x) == f(x) + if x == e then 1 else 0
    ensures Total(order, g) == Total(order, f) + if e in order then 1 else 0
  {
    if order != [] {
      var n := |order| - 1;
      TotalBump(order[..n], f, g, e);
      assert order == order[..n] + [order[n]];
      assert e == order[n] ==> e !in order[..n];
    }
  }

  lemma {:induction false} TotalOfNothing(order: seq<string>, f: string -> nat)
    requires forall x :: f(x) == 0
    ensures Total(order, f) == 0
  {
    if order != [] {
      TotalOfNothing(order[..|order| - 1], f);
    }
  }

  lemma MatchIsListed(pathname: string, endpoints: seq<string>)
    ensures Match(pathname, endpoints).Some? ==> Match(pathname, endpoints).value in endpoints
  {
    MatchIsLongest(pathname, endpoints);
  }

  /** Every request of a kind belongs to exactly one endpoint: the shares add up. */
  lemma {:induction false} SharesAddUp(input: Input, kind: Kind, requests: seq<Request>, order: seq<string>)
    requires kind != Foreign && NoRepeats(order) && forall e :: e in input.endpoints ==> e in order
    ensures Total(order, Shares(input, kind, requests)) == Count(Of(input, kind), requests)
  {
    if requests == [] {
      TotalOfNothing(order, Shares(input, kind, requests));
    } else {
      var rest, r := requests[..|requests| - 1], requests[|requests| - 1];
      SharesAddUp(input, kind, rest, order);
      if KindOf(input, r) == kind {
        MatchIsListed(PathnameOf(r.path), input.endpoints);
        TotalBump(order, Shares(input, kind, rest), Shares(input, kind, requests), Owner(input, r).value);
      } else {
        TotalsAgree(order, Shares(input, kind, rest), Shares(input, kind, requests));
      }
    }
  }

  lemma {:induction false} TotalsAgree(order: seq<string>, f: string -> nat, g: string -> nat)
    requires forall k :: 0 <= k < |order| ==> g(order[k]) == f(order[k])
    ensures Total(order, g) == Total(order, f)
  {
    if order != [] {
      TotalsAgree(order[..|order| - 1], f, g);
    }
  }

  /** Counting the window over an endpoint's own requests is counting its share. */
  lemma {:induction false} ShareIsCounted(input: Input, e: string, requests: seq<Request>)
    ensures Count(Windowed(input.connectedAt, input.windowMs), Filter(OwnedBy(input, e), requests))
         == Count(OwnedAs(input, e, InWindow), requests)
  {
    if requests != [] {
      var rest, r := requests[..|requests| - 1], requests[|requests| - 1];
      ShareIsCounted(input, e, rest);
      var window := Windowed(input.connectedAt, input.windowMs);
      CountAppend(window, Filter(OwnedBy(input, e), rest), [r]);
      assert Count(window, [r]) == if window(r) then 1 else 0 by {
        assert [r][..0] == [];
      }
      assert OwnedAs(input, e, InWindow)(r) <==> OwnedBy(input, e)(r) && window(r);
      assert Filter(OwnedBy(input, e), requests)
          == if OwnedBy(input, e)(r) then Filter(OwnedBy(input, e), rest) + [r] else Filter(OwnedBy(input, e), rest);
    }
  }

  /** Every request is of one kind. */
  lemma {:induction false} KindsPartition(input: Input, requests: seq<Request>)
    ensures |requests| == Count(Of(input, Foreign), requests) + Count(Of(input, BeforeConnected), requests)
                        + Count(Of(input, InWindow), requests) + Count(Of(input, Polling), requests)
                        + Count(Of(input, Unclassified), requests)
  {
    if requests != [] {
      KindsPartition(input, requests[..|requests| - 1]);
    }
  }

  // ---------------------------------------------------------------- the classification

  function Consumers(input: Input): set<string> {
    set e | e in input.endpoints && Share(input, InWindow, input.requests, e) > 0
  }

  ghost predicate SomeDuplicate(input: Input) {
    exists e :: e in input.endpoints &&
      Duplicated(Filter(OwnedBy(input, e), input.requests), input.connectedAt, input.windowMs)
  }

  datatype Bucket = Bucket(inWindow: nat, polling: nat)

  type Buckets = map<string, Bucket>

  datatype Tally = Tally(counts: Buckets, polling: nat, beforeConnected: nat, unclassified: nat)

  predicate Filled(input: Input, counts: Buckets, requests: seq<Request>) {
    forall e :: e in counts ==>
      counts[e].inWindow == Share(input, InWindow, requests, e)
      && counts[e].polling == Share(input, Polling, requests, e)
  }

  predicate Tallied(input: Input, t: Tally, requests: seq<Request>) {
    && t.counts.Keys == (set e | e in input.endpoints)
    && Filled(input, t.counts, requests)
    && t.polling == Count(Of(input, Polling), requests)
    && t.beforeConnected == Count(Of(input, BeforeConnected), requests)
    && t.unclassified == Count(Of(input, Unclassified), requests)
  }

  function Bumped(counts: Buckets, e: string, kind: Kind): Buckets
    requires e in counts
  {
    match kind
    case InWindow => counts[e := counts[e].(inWindow := counts[e].inWindow + 1)]
    case Polling => counts[e := counts[e].(polling := counts[e].polling + 1)]
    case _ => counts
  }

  lemma ShareGrows(input: Input, kind: Kind, i: nat, e: string)
    requires i < |input.requests|
    ensures var r := input.requests[i];
      Share(input, kind, input.requests[..i + 1], e)
      == Share(input, kind, input.requests[..i], e) + if KindOf(input, r) == kind && Owner(input, r) == Some(e) then 1 else 0
  {
    assert input.requests[..i + 1][..i] == input.requests[..i];
  }

  lemma CountGrows(input: Input, kind: Kind, i: nat)
    requires i < |input.requests|
    ensures Count(Of(input, kind), input.requests[..i + 1])
         == Count(Of(input, kind), input.requests[..i]) + if KindOf(input, input.requests[i]) == kind then 1 else 0
  {
    assert input.requests[..i + 1][..i] == input.requests[..i];
  }

  lemma FilledGrows(input: Input, counts: Buckets, i: nat)
    requires i < |input.requests| && Filled(input, counts, input.requests[..i])
    requires Owner(input, input.requests[i]).Some? ==> Owner(input, input.requests[i]).value in counts
    ensures var r := input.requests[i];
      Filled(input, if KindOf(input, r) == Foreign then counts else Bumped(counts, Owner(input, r).value, KindOf(input, r)),
        input.requests[..i + 1])
  {
    forall e | e in counts
      ensures Share(input, InWindow, input.requests[..i + 1], e) == counts[e].inWindow
        + if KindOf(input, input.requests[i]) == InWindow && Owner(input, input.requests[i]) == Some(e) then 1 else 0
      ensures Share(input, Polling, input.requests[..i + 1], e) == counts[e].polling
        + if KindOf(input, input.requests[i]) == Polling && Owner(input, input.requests[i]) == Some(e) then 1 else 0
    {
      ShareGrows(input, InWindow, i, e);
      ShareGrows(input, Polling, i, e);
    }
  }

  method OpenBuckets(endpoints: seq<string>) returns (order: seq<string>, counts: Buckets)
    ensures NoRepeats(order) && forall e :: e in order <==> e in endpoints
    ensures counts.Keys == (set e | e in endpoints) && forall e :: e in counts ==> counts[e] == Bucket(0, 0)
  {
    order, counts := [], map[];
    for i := 0 to |endpoints|
      invariant NoRepeats(order) && forall e :: e in order <==> e in endpoints[..i]
      invariant forall e :: e in counts <==> e in endpoints[..i]
      invariant forall e :: e in counts ==> counts[e] == Bucket(0, 0)
    {
      if endpoints[i] !in counts {
        order := order + [endpoints[i]];
      }
      counts := counts[endpoints[i] := Bucket(0, 0)];
    }
  }

  /** One turn of the loop over the requests. */
  method Place(input: Input, t: Tally, i: nat) returns (u: Tally)
    requires i < |input.requests| && Tallied(input, t, input.requests[..i])
    ensures Tallied(input, u, input.requests[..i + 1])
  {
    var request := input.requests[i];
    MatchIsListed(PathnameOf(request.path), input.endpoints);
    FilledGrows(input, t.counts, i);
    CountGrows(input, Polling, i);
    CountGrows(input, BeforeConnected, i);
    CountGrows(input, Unclassified, i);
    var endpoint := MatchEndpoint(PathnameOf(request.path), input.endpoints);
    if endpoint.None? {
      return t;
    }
    var bucket := t.counts[endpoint.value];
    if request.at < input.connectedAt {
      return t.(beforeConnected := t.beforeConnected + 1);
    }
    if IsInWindow(request.at, input.connectedAt, input.windowMs) {
      return t.(counts := t.counts[endpoint.value := bucket.(inWindow := bucket.inWindow + 1)]);
    }
    if request.at - input.connectedAt >= input.pollingIntervalMs {
      return t.(counts := t.counts[endpoint.value := bucket.(polling := bucket.polling + 1)],
                polling := t.polling + 1);
    }
    return t.(unclassified := t.unclassified + 1);
  }

  // ---------------------------------------------------------------- the totals

  function Excess(counts: Buckets): string -> nat {
    (e: string) => if e in counts && counts[e].inWindow > 1 then counts[e].inWindow - 1 else 0
  }

  function Present(counts: Buckets): string -> nat {
    (e: string) => if e in counts && counts[e].inWindow > 0 then 1 else 0
  }

  function Windows(counts: Buckets): string -> nat {
    (e: string) => if e in counts then counts[e].inWindow else 0
  }

  lemma {:induction false} PresentAndExcess(order: seq<string>, counts: Buckets)
    ensures Total(order, Present(counts)) + Total(order, Excess(counts)) == Total(order, Windows(counts))
    ensures Total(order, Excess(counts)) > 0 <==> exists e :: e in order && e in counts && counts[e].inWindow > 1
  {
    if order != [] {
      var n := |order| - 1;
      PresentAndExcess(order[..n], counts);
      assert order == order[..n] + [order[n]];
    }
  }

  /** The endpoints of `order` with requests in the window. */
  function Attributed(order: seq<string>, counts: Buckets): set<string> {
    set e | e in order && e in counts && counts[e].inWindow > 0
  }

  lemma AttributedOneMore(rest: seq<string>, last: string, counts: Buckets)
    requires last !in rest
    ensures |Attributed(rest + [last], counts)| == |Attributed(rest, counts)| + Present(counts)(last)
  {
    var before, after := Attributed(rest, counts), Attributed(rest + [last], counts);
    if Present(counts)(last) == 1 {
      assert after == before + {last} && last !in before;
    } else {
      assert after == before;
    }
  }

  lemma {:induction false} PresentIsASize(order: seq<string>, counts: Buckets)
    requires NoRepeats(order)
    ensures Total(order, Present(counts)) == |Attributed(order, counts)|
  {
    if |order| > 0 {
      var n := |order| - 1;
      PresentIsASize(order[..n], counts);
      AttributedOneMore(order[..n], order[n], counts);
      assert order == order[..n] + [order[n]];
    }
  }

  method SumDuplicates(order: seq<string>, counts: Buckets) returns (duplicates: nat)
    requires forall e :: e in order ==> e in counts
    ensures duplicates == Total(order, Excess(counts))
  {
    duplicates := 0;
    for i := 0 to |order|
      invariant duplicates == Total(order[..i], Excess(counts))
    {
      assert order[..i + 1][..i] == order[..i];
      if counts[order[i]].inWindow > 1 {
        duplicates := duplicates + counts[order[i]].inWindow - 1;
      }
    }
    assert order[..|order|] == order;
  }

  function Report(b: Bucket): EndpointReloads {
    EndpointReloads(b.inWindow > 0, b.inWindow, b.polling)
  }

  method BuildByEndpoint(order: seq<string>, counts: Buckets)
    returns (byEndpoint: map<string, EndpointReloads>, attributable: nat)
    requires forall e :: e in order ==> e in counts
    ensures attributable == Total(order, Present(counts))
    ensures byEndpoint.Keys == (set e | e in order)
    ensures forall e :: e in byEndpoint ==> byEndpoint[e] == Report(counts[e])
  {
    byEndpoint, attributable := map[], 0;
    for i := 0 to |order|
      invariant attributable == Total(order[..i], Present(counts))
      invariant forall e :: e in byEndpoint <==> e in order[..i]
      invariant forall e :: e in byEndpoint ==> byEndpoint[e] == Report(counts[e])
    {
      assert order[..i + 1][..i] == order[..i];
      var e := order[i];
      byEndpoint := byEndpoint[e := Report(counts[e])];
      if counts[e].inWindow > 0 {
        attributable := attributable + 1;
      }
    }
    assert order[..|order|] == order;
  }

  lemma DuplicatesOfAShare(input: Input, e: string)
    ensures Share(input, InWindow, input.requests, e) > 1 <==>
      Duplicated(Filter(OwnedBy(input, e), input.requests), input.connectedAt, input.windowMs)
  {
    ShareIsCounted(input, e, input.requests);
    CountPair(Windowed(input.connectedAt, input.windowMs), Filter(OwnedBy(input, e), input.requests));
  }

  lemma TotalsMean(input: Input, order: seq<string>, counts: Buckets)
    requires NoRepeats(order) && (forall e :: e in order <==> e in input.endpoints)
    requires counts.Keys == (set e | e in input.endpoints) && Filled(input, counts, input.requests)
    ensures Total(order, Present(counts)) == |Consumers(input)|
    ensures Total(order, Present(counts)) + Total(order, Excess(counts)) == Count(Of(input, InWindow), input.requests)
    ensures Total(order, Excess(counts)) > 0 <==> SomeDuplicate(input)
  {
    PresentAndExcess(order, counts);
    PresentIsASize(order, counts);
    assert Consumers(input) == Attributed(order, counts);
    TotalsAgree(order, Windows(counts), Shares(input, InWindow, input.requests));
    SharesAddUp(input, InWindow, input.requests, order);
    forall e ensures Share(input, InWindow, input.requests, e) > 1 <==>
      Duplicated(Filter(OwnedBy(input, e), input.requests), input.connectedAt, input.windowMs)
    {
      DuplicatesOfAShare(input, e);
    }
  }

  method ClassifyReloads(input: Input) returns (c: Classification)
    ensures c.beforeConnected == Count(Of(input, BeforeConnected), input.requests)
    ensures c.polling == Count(Of(input, Polling), input.requests)
    ensures c.unclassified == Count(Of(input, Unclassified), input.requests)
    ensures c.documentReloads == if input.documentNavigations.None? then 0 else |input.documentNavigations.value|
    ensures c.byEndpoint.Keys == (set e | e in input.endpoints)
    ensures forall e :: e in c.byEndpoint ==> c.byEndpoint[e] == EndpointReloads(
      Share(input, InWindow, input.requests, e) > 0,
      Share(input, InWindow, input.requests, e),
      Share(input, Polling, input.requests, e))
    ensures c.attributable == |Consumers(input)|
    ensures c.attributable + c.duplicates == Count(Of(input, InWindow), input.requests)
    ensures c.duplicates > 0 <==> SomeDuplicate(input)
  {
    var order, counts := OpenBuckets(input.endpoints);
    var tally := Tally(counts, 0, 0, 0);
    for i := 0 to |input.requests|
      invariant Tallied(input, tally, input.requests[..i])
    {
      tally := Place(input, tally, i);
    }
    assert input.requests[..|input.requests|] == input.requests;
    TotalsMean(input, order, tally.counts);
    var duplicates := SumDuplicates(order, tally.counts);
    var byEndpoint, attributable := BuildByEndpoint(order, tally.counts);
    c := Classification(attributable, duplicates, tally.polling, tally.beforeConnected, tally.unclassified,
      if input.documentNavigations.None? then 0 else |input.documentNavigations.value|, byEndpoint);
  }

  /** Nothing is lost or counted twice: every request that some endpoint covers is in exactly one count. */
  lemma MatchedAreConserved(input: Input)
    ensures |input.requests| - Count(Of(input, Foreign), input.requests)
         == Count(Of(input, BeforeConnected), input.requests) + Count(Of(input, InWindow), input.requests)
          + Count(Of(input, Polling), input.requests) + Count(Of(input, Unclassified), input.requests)
  {
    KindsPartition(input, input.requests);
  }

  /** The order in which the requests were seen changes no count. */
  lemma OrderIsIrrelevant(input: Input, other: seq<Request>, kind: Kind, e: string)
    requires multiset(input.requests) == multiset(other)
    ensures Count(Of(input, kind), other) == Count(Of(input, kind), input.requests)
    ensures Share(input, kind, other, e) == Share(input, kind, input.requests, e)
  {
    CountPermutes(Of(input, kind), input.requests, other);
    CountPermutes(OwnedAs(input, e, kind), input.requests, other);
  }
}
