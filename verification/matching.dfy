/** Route lookup (`getRoute`): the first route, in registration order, whose
    method and segments agree with the request, and in the later variants a
    fall-back to a route whose url is exactly `*`. */
module Matching {
  import opened Http
  import opened Paths

  /** `[request.method, '*'].includes(r.method)` */
  predicate MethodMatches(routeMethod: string, requestMethod: string) {
    routeMethod == requestMethod || routeMethod == "*"
  }

  /** The test inside the first `find`: right method, as many segments as the
      path, and every segment literal-equal or a `:name` parameter. */
  predicate RouteMatches(r: Route, requestMethod: string, path: seq<string>) {
    MethodMatches(r.httpMethod, requestMethod) && SegmentsAgree(Segments(r.url), path)
  }

  /** A route of the right method always matches its own segments, and a
      route without parameters matches nothing else. */
  lemma RouteMatchesOwnPath(r: Route, requestMethod: string, path: seq<string>)
    ensures MethodMatches(r.httpMethod, requestMethod) && Segments(r.url) == path ==> RouteMatches(r, requestMethod, path)
    ensures RouteMatches(r, requestMethod, path) && (forall i :: 0 <= i < |path| ==> !IsParam(Segments(r.url)[i])) ==>
      Segments(r.url) == path
  {
  }

  /** The test inside the second `find`: url exactly `*` and a matching method. */
  predicate IsFallback(r: Route, requestMethod: string) {
    r.url == "*" && MethodMatches(r.httpMethod, requestMethod)
  }

  /** A fall-back route, tried as an ordinary route by the first `find`,
      matches only the path whose one segment is `*`; every other path
      reaches it through the second `find`. */
  lemma FallbackMatchesOnlyStar(r: Route, requestMethod: string, path: seq<string>)
    requires IsFallback(r, requestMethod)
    ensures RouteMatches(r, requestMethod, path) <==> path == ["*"]
  {
    SegmentsOfWord("*");
    if RouteMatches(r, requestMethod, path) {
      assert SegmentAccepts("*", path[0]);
    }
  }

  /** `routes.find(ok)` from position `from`: the first position that satisfies `ok`. */
  function Find(routes: seq<Route>, ok: Route -> bool, from: nat): (r: Option<nat>)
    requires from <= |routes|
    ensures r.Some? ==> (from <= r.value < |routes| && ok(routes[r.value]) &&
      (forall j :: from <= j < r.value ==> !ok(routes[j])))
    ensures r.None? ==> forall j :: from <= j < |routes| ==> !ok(routes[j])
    decreases |routes| - from
  {
    if from == |routes| then None
    else if ok(routes[from]) then Some(from)
    else Find(routes, ok, from + 1)
  }

  /** The route `getRoute` returns (by position), with the `params` and
      `query` it leaves on the request. */
  datatype Match = Match(index: nat, params: map<string, string>, query: map<string, string>)

  /** `getRoute` on a request with method `requestMethod`, path segments
      `path` and search pairs `search`; `fallback` says whether the variant
      has the `*` fall-back. */
  function Lookup(routes: seq<Route>, requestMethod: string, path: seq<string>,
                  search: seq<(string, string)>, fallback: bool): (found: Option<Match>)
    ensures found.Some? ==> found.value.index < |routes|
    // a route that matches is always preferred, and the first one wins
    ensures (exists j :: 0 <= j < |routes| && RouteMatches(routes[j], requestMethod, path)) ==>
      found.Some? &&
      RouteMatches(routes[found.value.index], requestMethod, path) &&
      (forall j :: 0 <= j < found.value.index ==> !RouteMatches(routes[j], requestMethod, path)) &&
      found.value.params == ParamsOf(Segments(routes[found.value.index].url), path) &&
      found.value.query == LastWins(search)
    // otherwise only the first `*` route of the right method, with empty params and query
    ensures (forall j :: 0 <= j < |routes| ==> !RouteMatches(routes[j], requestMethod, path)) ==>
      (found.Some? <==> fallback && exists j :: 0 <= j < |routes| && IsFallback(routes[j], requestMethod)) &&
      (found.Some? ==>
        IsFallback(routes[found.value.index], requestMethod) &&
        (forall j :: 0 <= j < found.value.index ==> !IsFallback(routes[j], requestMethod)) &&
        found.value.params == map[] && found.value.query == map[])
  {
    match Find(routes, r => RouteMatches(r, requestMethod, path), 0)
    case Some(k) => Some(Match(k, ParamsOf(Segments(routes[k].url), path), LastWins(search)))
    case None =>
      if !fallback then None
      else
        match Find(routes, r => IsFallback(r, requestMethod), 0)
        case Some(k) => Some(Match(k, map[], map[]))
        case None => None
  }

  /** The loop over the pattern segments: returns early on a segment that
      is neither equal nor a parameter, and writes each parameter into
      `params`. */
  method MatchSegments(routeArr: seq<string>, pathArr: seq<string>) returns (ok: bool, params: map<string, string>)
    requires |routeArr| == |pathArr|
    ensures ok == SegmentsAgree(routeArr, pathArr)
    ensures ok ==> params == ParamsOf(routeArr, pathArr)
  {
    params := map[];
    for i := 0 to |routeArr|
      invariant params == ParamsOf(routeArr[..i], pathArr[..i])
      invariant forall j :: 0 <= j < i ==> SegmentAccepts(routeArr[j], pathArr[j])
    {
      if routeArr[i] != pathArr[i] && !IsParam(routeArr[i]) {
        assert !SegmentAccepts(routeArr[i], pathArr[i]);
        return false, map[];
      }
      ParamsExtend(routeArr, pathArr, i);
      if IsParam(routeArr[i]) {
        params := params[ParamName(routeArr[i]) := pathArr[i]];
      }
    }
    assert routeArr[..|routeArr|] == routeArr && pathArr[..|pathArr|] == pathArr;
    ok := true;
  }

  /** The callback of the first `find` for one route: the method and
      segment-count test, then the segment loop. */
  method MatchRoute(route: Route, requestMethod: string, pathArr: seq<string>)
    returns (ok: bool, params: map<string, string>)
    ensures ok == RouteMatches(route, requestMethod, pathArr)
    ensures ok ==> params == ParamsOf(Segments(route.url), pathArr)
  {
    var routeArr := Segments(route.url);
    if !MethodMatches(route.httpMethod, requestMethod) || |routeArr| != |pathArr| {
      return false, map[];
    }
    ok, params := MatchSegments(routeArr, pathArr);
  }

  /** `for (const [k, v] of url.searchParams.entries()) query[k] = v` */
  method BuildQuery(search: seq<(string, string)>) returns (query: map<string, string>)
    ensures query == LastWins(search)
  {
    query := map[];
    for i := 0 to |search|
      invariant query == LastWins(search[..i])
    {
      assert search[..i + 1][..i] == search[..i];
      query := query[search[i].0 := search[i].1];
    }
    assert search[..|search|] == search;
  }

  /** `getRoute`: the first `find` over the routes in order, then (when the
      variant has it) the second `find` for a `*` route. */
  method FindRoute(routes: seq<Route>, requestMethod: string, path: string,
                   search: seq<(string, string)>, fallback: bool) returns (found: Option<Match>)
    ensures found == Lookup(routes, requestMethod, Segments(path), search, fallback)
  {
    var pathArr := Segments(path);
    var k := 0;
    while k < |routes|
      invariant 0 <= k <= |routes|
      invariant forall j :: 0 <= j < k ==> !RouteMatches(routes[j], requestMethod, pathArr)
    {
      var ok, params := MatchRoute(routes[k], requestMethod, pathArr);
      if ok {
        var query := BuildQuery(search);
        return Some(Match(k, params, query));
      }
      k := k + 1;
    }
    if !fallback {
      return None;
    }
    k := 0;
    while k < |routes|
      invariant 0 <= k <= |routes|
      invariant forall j :: 0 <= j < k ==> !IsFallback(routes[j], requestMethod)
    {
      if routes[k].url == "*" && MethodMatches(routes[k].httpMethod, requestMethod) {
        return Some(Match(k, map[], map[]));
      }
      k := k + 1;
    }
    return None;
  }

  /** Registering a route never changes the answer for a request that an
      earlier route already matches: routes are only appended and the first
      match wins. */
  lemma AppendKeepsEarlierMatch(routes: seq<Route>, r: Route, requestMethod: string, path: seq<string>,
                                search: seq<(string, string)>, fallback: bool)
    requires exists j :: 0 <= j < |routes| && RouteMatches(routes[j], requestMethod, path)
    ensures Lookup(routes + [r], requestMethod, path, search, fallback) ==
            Lookup(routes, requestMethod, path, search, fallback)
  {
    var j :| 0 <= j < |routes| && RouteMatches(routes[j], requestMethod, path);
    assert (routes + [r])[j] == routes[j];
    var a := Lookup(routes + [r], requestMethod, path, search, fallback);
    var b := Lookup(routes, requestMethod, path, search, fallback);
    assert (routes + [r])[b.value.index] == routes[b.value.index];
    forall i | 0 <= i < |routes| ensures (routes + [r])[i] == routes[i] { }
  }

  /** A newly registered route answers every request that no earlier route
      matched and that it matches itself, ahead of any `*` fall-back. */
  lemma AppendedRouteAnswersUnmatched(routes: seq<Route>, r: Route, requestMethod: string, path: seq<string>,
                                      search: seq<(string, string)>, fallback: bool)
    requires forall j :: 0 <= j < |routes| ==> !RouteMatches(routes[j], requestMethod, path)
    requires RouteMatches(r, requestMethod, path)
    ensures Lookup(routes + [r], requestMethod, path, search, fallback) ==
            Some(Match(|routes|, ParamsOf(Segments(r.url), path), LastWins(search)))
  {
    var rs := routes + [r];
    assert rs[|routes|] == r;
    forall j | 0 <= j < |routes| ensures !RouteMatches(rs[j], requestMethod, path) {
      assert rs[j] == routes[j];
    }
  }
}
