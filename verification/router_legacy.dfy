/** The router of `index.js`, the oldest variant: no global handlers, no
    `*` fall-back, CORS on exactly when `cors()` has stored a configuration,
    every OPTIONS request answered by the pre-flight before any lookup, and
    the computed status always sent. */
module LegacyRouter {
  import opened Http
  import opened Paths
  import opened Matching
  import opened Cors
  import opened Dispatch
  import opened Responses

  /** The methods whose body is read (DELETE included, unlike later variants). */
  const BodyMethods: set<string> := {"POST", "PUT", "PATCH", "DELETE"}

  /** `cors()` default for Allow-Headers in this variant. */
  const DefaultAllowHeaders := "*, Authorization"

  /** The fields of a `Router`; `corsConfig` is `None` for the initial `{}`. */
  datatype RouterState = RouterState(
    routes: seq<Route>,
    debugMode: bool,
    corsConfig: Option<CorsSettings>)

  /** `Object.keys(this.corsConfig).length`: true exactly when `cors()` has run. */
  predicate CorsEnabled(s: RouterState) {
    s.corsConfig.Some?
  }

  /** A stored configuration is one `cors()` built: every field truthy. */
  predicate ValidState(s: RouterState) {
    s.corsConfig.Some? ==> Complete(s.corsConfig.value)
  }

  /** The headers a routed response starts with. */
  function InitialHeaders(s: RouterState): Headers {
    if CorsEnabled(s) then CorsHeaders(s.corsConfig.value) else map[]
  }

  /** `getRoute` as this variant calls it: no fall-back. */
  function Found(s: RouterState, rq: Request): (found: Option<Match>)
    ensures found.Some? ==> found.value.index < |s.routes|
  {
    Lookup(s.routes, rq.httpMethod, Segments(rq.path), rq.search, false)
  }

  /** The chain run for a routed request: the route's handlers only. */
  function ChainRun(s: RouterState, rq: Request, found: Match): (m: Machine)
    requires found.index < |s.routes|
    ensures forall j :: 0 <= j < |m.started| ==> m.started[j] < |s.routes[found.index].handlers|
  {
    var prq := ParsedRequest(rq.httpMethod, found.params, found.query, ReadBody(rq, BodyMethods, Unset));
    var chain := s.routes[found.index].handlers;
    RunAtWithin(chain, prq, 0, Initial(InitialHeaders(s)));
    RunChain(chain, prq, InitialHeaders(s))
  }

  /** What `handle` resolves to for a request. There is no `raw`; it
      rejects only in debug mode after a handler threw `null` or
      `undefined`; an unrouted request that is not a pre-flight gets 404. */
  function Respond(s: RouterState, rq: Request): (reply: Reply)
    ensures !reply.Passthrough?
    ensures reply.Rejected? ==>
      s.debugMode && Found(s, rq).Some? && ChainRun(s, rq, Found(s, rq).value).failure == Some(Threw(Nullish))
    ensures !(rq.httpMethod == "OPTIONS" && CorsEnabled(s)) && Found(s, rq).None? ==> reply == NotFound(s.debugMode)
  {
    if rq.httpMethod == "OPTIONS" && CorsEnabled(s) then
      Reply(Some(s.corsConfig.value.optionsSuccessStatus), None, CorsHeaders(s.corsConfig.value))
    else
      var found := Found(s, rq);
      if found.None? then NotFound(s.debugMode)
      else OutcomeLegacy(ChainRun(s, rq, found.value), s.debugMode)
  }

  class Router {
    var routes: seq<Route>
    var debugMode: bool
    var corsConfig: Option<CorsSettings>

    ghost predicate Valid()
      reads this
    {
      ValidState(State())
    }

    ghost function State(): RouterState
      reads this
    {
      RouterState(routes, debugMode, corsConfig)
    }

    constructor ()
      ensures Valid()
      ensures State() == RouterState([], false, None)
    {
      routes := [];
      debugMode := false;
      corsConfig := None;
    }

    /** `register(method, url, handlers)`: appends one route. */
    method Register(httpMethod: string, url: string, handlers: seq<Slot>) returns (r: Router)
      requires Valid()
      modifies this
      ensures Valid() && r == this
      ensures State() == old(State()).(routes := old(routes) + [Route(httpMethod, url, handlers)])
    {
      routes := routes + [Route(httpMethod, url, handlers)];
      return this;
    }

    /** The method builders and `any`. */
    method Add(verb: Verb, url: string, handlers: seq<Slot>) returns (r: Router)
      requires Valid()
      modifies this
      ensures Valid() && r == this
      ensures State() == old(State()).(routes := old(routes) + [Route(MethodName(verb), url, handlers)])
    {
      r := Register(MethodName(verb), url, handlers);
    }

    /** `all(url, ...handlers)`: forwards the handler array itself as the one
        handler of a `*` route, and an array is not a function. */
    method All(url: string, handlers: seq<Slot>) returns (r: Router)
      requires Valid()
      modifies this
      ensures Valid() && r == this
      ensures State() == old(State()).(routes := old(routes) + [Route("*", url, [NotCallable])])
    {
      r := Add(AnyMethod, url, [NotCallable]);
    }

    /** `debug(state = true)`, returning nothing in this variant; `None` is
        a call without an argument. */
    method Debug(state: Option<bool>)
      requires Valid()
      modifies this
      ensures Valid()
      ensures State() == old(State()).(debugMode := if state.Some? then state.value else true)
    {
      debugMode := if state.Some? then state.value else true;
    }

    /** `cors(config)`: stores the configuration with every falsy field defaulted. */
    method Cors(config: CorsOptions) returns (r: Router)
      requires Valid()
      modifies this
      ensures Valid() && r == this
      ensures State() == old(State()).(corsConfig := Some(Fill(config, DefaultAllowHeaders)))
    {
      corsConfig := Some(Fill(config, DefaultAllowHeaders));
      return this;
    }

    /** `handle(request)` */
    method Handle(rq: Request) returns (reply: Reply)
      requires Valid()
      ensures reply == Respond(State(), rq)
      ensures corsConfig.Some? && rq.httpMethod == "OPTIONS" ==>
        reply.Reply? && TruthyNumber(reply.status) && FullHeaders(reply.headers)
    {
      if corsConfig.Some? && rq.httpMethod == "OPTIONS" {
        PreflightComplete(State(), rq);
      }
      if rq.httpMethod == "OPTIONS" && corsConfig.Some? {
        return Reply(Some(corsConfig.value.optionsSuccessStatus), None, CorsHeaders(corsConfig.value));
      }
      var body := ReadBody(rq, BodyMethods, Unset);
      var found := FindRoute(routes, rq.httpMethod, rq.path, rq.search, false);
      if found.None? {
        return NotFound(debugMode);
      }
      var headers: Headers := map[];
      if corsConfig.Some? {
        headers := CorsHeaders(corsConfig.value);
      }
      var prq := ParsedRequest(rq.httpMethod, found.value.params, found.value.query, body);
      var d := new Dispatcher(routes[found.value.index].handlers, prq, headers);
      d.Runner(0);
      if d.failure.Some? {
        return ErrorReplyLegacy(debugMode, d.failure.value);
      }
      reply := FinalizeLegacy(d.res);
    }
  }

  // ----- properties of `handle` -----

  /** With CORS on, every OPTIONS request is answered with a truthy status,
      no body and all four headers, none of them empty. */
  lemma PreflightComplete(s: RouterState, rq: Request)
    requires ValidState(s) && CorsEnabled(s) && rq.httpMethod == "OPTIONS"
    ensures Respond(s, rq).Reply? && Respond(s, rq).body.None?
    ensures TruthyNumber(Respond(s, rq).status) && FullHeaders(Respond(s, rq).headers)
  {
    CorsHeadersFull(s.corsConfig.value);
  }

  /** With CORS on, every OPTIONS request gets the pre-flight whatever
      routes exist: an OPTIONS route can never run. */
  lemma PreflightBeforeLookup(s: RouterState, rq: Request, others: seq<Route>)
    requires CorsEnabled(s) && rq.httpMethod == "OPTIONS"
    ensures Respond(s, rq) == Respond(s.(routes := others), rq)
    ensures Respond(s, rq).Reply? && Respond(s, rq).body.None?
    ensures Respond(s, rq).status == Some(s.corsConfig.value.optionsSuccessStatus)
  {
  }

  /** There is no `*` fall-back: a request no route matches gets 404 (or
      the pre-flight), even when a route with url `*` exists. */
  lemma NoFallback(s: RouterState, rq: Request)
    requires forall j :: 0 <= j < |s.routes| ==> !RouteMatches(s.routes[j], rq.httpMethod, Segments(rq.path))
    requires !(rq.httpMethod == "OPTIONS" && CorsEnabled(s))
    ensures Respond(s, rq) == NotFound(s.debugMode)
  {
  }

  /** A route registered with `all` answers 204 with no body and only the
      CORS headers: its one "handler" is not a function, so nothing runs. */
  lemma AllRouteAnswersEmpty(s: RouterState, rq: Request)
    requires !(rq.httpMethod == "OPTIONS" && CorsEnabled(s))
    requires Found(s, rq).Some? && s.routes[Found(s, rq).value.index].handlers == [NotCallable]
    ensures Respond(s, rq) == Reply(Some(204), None, InitialHeaders(s))
  {
    var found := Found(s, rq).value;
    var prq := ParsedRequest(rq.httpMethod, found.params, found.query, ReadBody(rq, BodyMethods, Unset));
    var m := RunChain([NotCallable], prq, InitialHeaders(s));
    assert m == Initial(InitialHeaders(s)).(prevIndex := 0);
  }

  /** A CORS header that no handler writes reaches a routed reply with the
      configured value unless the chain failed. */
  lemma CorsHeaderReachesReply(s: RouterState, rq: Request, name: string)
    requires CorsEnabled(s) && name in CorsHeaders(s.corsConfig.value) && name != ContentType
    requires rq.httpMethod != "OPTIONS"
    requires Found(s, rq).Some? && ChainNeverSets(s.routes[Found(s, rq).value.index].handlers, name)
    ensures ChainRun(s, rq, Found(s, rq).value).failure.None? ==>
      name in Respond(s, rq).headers && Respond(s, rq).headers[name] == CorsHeaders(s.corsConfig.value)[name]
  {
    var found := Found(s, rq).value;
    var chain := s.routes[found.index].handlers;
    var prq := ParsedRequest(rq.httpMethod, found.params, found.query, ReadBody(rq, BodyMethods, Unset));
    var m := ChainRun(s, rq, found);
    RunAtKeepsHeader(chain, prq, 0, Initial(InitialHeaders(s)), name);
    FinalizeKeepsHeader(m.res, name);
  }

  /** After `cors()`, every OPTIONS request gets 204, no body, and the four
      headers `*`, `*`, `*, Authorization`, `86400`. */
  lemma DefaultPreflight(s: RouterState, rq: Request)
    requires rq.httpMethod == "OPTIONS"
    ensures Respond(s.(corsConfig := Some(Fill(NoOptions, DefaultAllowHeaders))), rq) ==
      Reply(Some(204), None, map[AllowOriginHeader := "*", AllowMethodsHeader := "*",
                                 AllowHeadersHeader := "*, Authorization", MaxAgeHeader := "86400"])
  {
    JsDefaults();
  }
}
