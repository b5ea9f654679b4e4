/** The router of `src/index.js`, the compiled intermediate: global
    handlers and the `*` fall-back as in `src/index.ts`, but a configuration
    present from the start, so CORS is always on and every OPTIONS request
    is answered by the pre-flight before any lookup. */
module CompiledRouter {
  import opened Http
  import opened Paths
  import opened Matching
  import opened Cors
  import opened Dispatch
  import opened Responses
  import TsRouter

  /** The methods whose body is read. */
  const BodyMethods: set<string> := {"POST", "PUT", "PATCH"}

  /** `cors()` default for Allow-Headers in this variant. */
  const DefaultAllowHeaders := "*, Authorization"

  /** The configuration a new router holds: note that its Allow-Headers is
      `*`, not the `cors()` default. */
  const InitialCors := CorsSettings("*", "*", "*", DefaultMaxAge, DefaultSuccessStatus)

  /** The fields of a `Router`. The configuration is an object with five
      keys from the start, so the `Object.keys(...).length` test always
      passes and is not represented. */
  datatype RouterState = RouterState(
    routes: seq<Route>,
    globalHandlers: seq<Slot>,
    debugMode: bool,
    corsConfig: CorsSettings)

  /** The configuration always has every field truthy. */
  predicate ValidState(s: RouterState) {
    Complete(s.corsConfig)
  }

  /** `getRoute` as this variant calls it: with the fall-back. */
  function Found(s: RouterState, rq: Request): (found: Option<Match>)
    ensures found.Some? ==> found.value.index < |s.routes|
  {
    Lookup(s.routes, rq.httpMethod, Segments(rq.path), rq.search, true)
  }

  /** The chain run for a routed request: global handlers, then the
      route's, starting from the four CORS headers. */
  function ChainRun(s: RouterState, rq: Request, found: Match): (m: Machine)
    requires found.index < |s.routes|
    ensures forall j :: 0 <= j < |m.started| ==> m.started[j] < |s.globalHandlers| + |s.routes[found.index].handlers|
  {
    var prq := ParsedRequest(rq.httpMethod, found.params, found.query, ReadBody(rq, BodyMethods, Text("")));
    var chain := s.globalHandlers + s.routes[found.index].handlers;
    RunAtWithin(chain, prq, 0, Initial(CorsHeaders(s.corsConfig)));
    RunChain(chain, prq, CorsHeaders(s.corsConfig))
  }

  /** What `handle` resolves to for a request. It never rejects; OPTIONS
      requests get the pre-flight and nothing else; only a routed request
      whose chain supplied `raw` is answered with it. */
  function Respond(s: RouterState, rq: Request): (reply: Reply)
    ensures !reply.Rejected?
    ensures rq.httpMethod == "OPTIONS" ==> reply.Reply? && reply.body.None? && reply.headers == CorsHeaders(s.corsConfig)
    ensures reply.Passthrough? ==>
      rq.httpMethod != "OPTIONS" && Found(s, rq).Some? && ChainRun(s, rq, Found(s, rq).value).res.raw == Some(reply.response)
  {
    if rq.httpMethod == "OPTIONS" then
      Reply(Some(s.corsConfig.optionsSuccessStatus), None, CorsHeaders(s.corsConfig))
    else
      var found := Found(s, rq);
      if found.None? then NotFound(s.debugMode)
      else Outcome(ChainRun(s, rq, found.value), s.debugMode)
  }

  class Router {
    var routes: seq<Route>
    var globalHandlers: seq<Slot>
    var debugMode: bool
    var corsConfig: CorsSettings

    ghost predicate Valid()
      reads this
    {
      ValidState(State())
    }

    ghost function State(): RouterState
      reads this
    {
      RouterState(routes, globalHandlers, debugMode, corsConfig)
    }

    constructor ()
      ensures Valid()
      ensures State() == RouterState([], [], false, InitialCors)
    {
      routes := [];
      globalHandlers := [];
      debugMode := false;
      corsConfig := InitialCors;
    }

    /** `use(...handlers)`: pushes each handler, in order, onto the global list. */
    method Use(handlers: seq<Slot>) returns (r: Router)
      requires Valid()
      modifies this
      ensures Valid() && r == this
      ensures State() == old(State()).(globalHandlers := old(globalHandlers) + handlers)
    {
      for i := 0 to |handlers|
        invariant globalHandlers == old(globalHandlers) + handlers[..i]
        invariant routes == old(routes) && debugMode == old(debugMode) && corsConfig == old(corsConfig)
      {
        globalHandlers := globalHandlers + [handlers[i]];
      }
      assert handlers[..|handlers|] == handlers;
      return this;
    }

    /** `register(method, url, handlers)`: appends one route. */
    method Register(httpMethod: string, url: string, handlers: seq<Slot>) returns (r: Router)
      requires Valid()
      modifies this
      ensures Valid() && r == this
      ensures State() == old(State()).(routes := old(routes) + [Route(httpMethod, url, handlers)])
    {
      routes := routes + [Route(httpMethod, url, handlers)];
      return this;
    }

    /** The method builders and `any`. */
    method Add(verb: Verb, url: string, handlers: seq<Slot>) returns (r: Router)
      requires Valid()
      modifies this
      ensures Valid() && r == this
      ensures State() == old(State()).(routes := old(routes) + [Route(MethodName(verb), url, handlers)])
    {
      r := Register(MethodName(verb), url, handlers);
    }

    /** `debug(state = true)`, returning nothing in this variant; `None` is
        a call without an argument. */
    method Debug(state: Option<bool>)
      requires Valid()
      modifies this
      ensures Valid()
      ensures State() == old(State()).(debugMode := if state.Some? then state.value else true)
    {
      debugMode := if state.Some? then state.value else true;
    }

    /** `cors(config)`: replaces the configuration, every falsy field defaulted. */
    method Cors(config: CorsOptions) returns (r: Router)
      requires Valid()
      modifies this
      ensures Valid() && r == this
      ensures State() == old(State()).(corsConfig := Fill(config, DefaultAllowHeaders))
    {
      corsConfig := Fill(config, DefaultAllowHeaders);
      return this;
    }

    /** `handle(env, request)` */
    method Handle(rq: Request) returns (reply: Reply)
      requires Valid()
      ensures reply == Respond(State(), rq)
      ensures rq.httpMethod == "OPTIONS" ==> reply.Reply? && TruthyNumber(reply.status) && FullHeaders(reply.headers)
    {
      if rq.httpMethod == "OPTIONS" {
        PreflightComplete(State(), rq);
      }
      if rq.httpMethod == "OPTIONS" {
        return Reply(Some(corsConfig.optionsSuccessStatus), None, CorsHeaders(corsConfig));
      }
      var body := ReadBody(rq, BodyMethods, Text(""));
      var found := FindRoute(routes, rq.httpMethod, rq.path, rq.search, true);
      if found.None? {
        return NotFound(debugMode);
      }
      var headers := CorsHeaders(corsConfig);
      var prq := ParsedRequest(rq.httpMethod, found.value.params, found.value.query, body);
      var d := new Dispatcher(globalHandlers + routes[found.value.index].handlers, prq, headers);
      d.Runner(0);
      if d.failure.Some? {
        return ErrorReply(debugMode, d.failure.value);
      }
      reply := Finalize(d.res);
    }
  }

  // ----- properties of `handle` -----

  /** Every OPTIONS request is answered with a truthy status, no body and
      all four headers, none of them empty. */
  lemma PreflightComplete(s: RouterState, rq: Request)
    requires ValidState(s) && rq.httpMethod == "OPTIONS"
    ensures Respond(s, rq).Reply? && Respond(s, rq).body.None?
    ensures TruthyNumber(Respond(s, rq).status) && FullHeaders(Respond(s, rq).headers)
  {
    CorsHeadersFull(s.corsConfig);
  }

  /** Every OPTIONS request gets the pre-flight whatever routes exist, so
      a route registered with `options` never runs. */
  lemma EveryOptionsIsPreflight(s: RouterState, rq: Request, others: seq<Route>)
    requires rq.httpMethod == "OPTIONS"
    ensures Respond(s, rq) == Respond(s.(routes := others), rq)
    ensures Respond(s, rq) == Reply(Some(s.corsConfig.optionsSuccessStatus), None, CorsHeaders(s.corsConfig))
  {
  }

  /** A new router answers every OPTIONS request with 204, no body, and the
      headers `*`, `*`, `*`, `86400`, before `cors()` is ever called. */
  lemma InitialPreflight(s: RouterState, rq: Request)
    requires rq.httpMethod == "OPTIONS" && s.corsConfig == InitialCors
    ensures Respond(s, rq) ==
      Reply(Some(204), None, map[AllowOriginHeader := "*", AllowMethodsHeader := "*",
                                 AllowHeadersHeader := "*", MaxAgeHeader := "86400"])
  {
    MaxAgeDefaultText();
  }

  /** After `cors()` the Allow-Headers default is `*, Authorization`. */
  lemma DefaultPreflight(s: RouterState, rq: Request)
    requires rq.httpMethod == "OPTIONS"
    ensures Respond(s.(corsConfig := Fill(NoOptions, DefaultAllowHeaders)), rq) ==
      Reply(Some(204), None, map[AllowOriginHeader := "*", AllowMethodsHeader := "*",
                                 AllowHeadersHeader := "*, Authorization", MaxAgeHeader := "86400"])
  {
    JsDefaults();
  }

  /** A CORS header that no handler writes reaches a routed reply with the
      configured value, unless the chain failed or a handler supplied `raw`. */
  lemma CorsHeaderReachesReply(s: RouterState, rq: Request, name: string)
    requires name in CorsHeaders(s.corsConfig) && name != ContentType
    requires rq.httpMethod != "OPTIONS"
    requires Found(s, rq).Some?
    requires ChainNeverSets(s.globalHandlers + s.routes[Found(s, rq).value.index].handlers, name)
    ensures var m := ChainRun(s, rq, Found(s, rq).value);
      m.failure.None? && m.res.raw.None? ==>
        Respond(s, rq).Reply? && name in Respond(s, rq).headers &&
        Respond(s, rq).headers[name] == CorsHeaders(s.corsConfig)[name]
  {
    var found := Found(s, rq).value;
    var chain := s.globalHandlers + s.routes[found.index].handlers;
    var prq := ParsedRequest(rq.httpMethod, found.params, found.query, ReadBody(rq, BodyMethods, Text("")));
    var m := ChainRun(s, rq, found);
    RunAtKeepsHeader(chain, prq, 0, Initial(CorsHeaders(s.corsConfig)), name);
    FinalizeKeepsHeader(m.res, name);
  }

  /** The TypeScript router with CORS switched on to the same (complete)
      configuration answers every request other than OPTIONS exactly as
      this one does: the variants differ only in the pre-flight. */
  lemma AgreesWithTs(s: RouterState, t: TsRouter.RouterState, rq: Request)
    requires Complete(s.corsConfig)
    requires t == TsRouter.RouterState(s.routes, s.globalHandlers, s.debugMode, AsOptions(s.corsConfig), true)
    requires rq.httpMethod != "OPTIONS"
    ensures TsRouter.Respond(t, rq) == Respond(s, rq)
  {
    OptionalHeadersOfComplete(s.corsConfig);
    assert TsRouter.InitialHeaders(t) == CorsHeaders(s.corsConfig);
  }
}
