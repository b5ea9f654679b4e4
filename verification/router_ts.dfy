/** The router of `src/index.ts`: global handlers, the `*` fall-back, CORS
    switched on by `cors()`, the pre-flight answered only for unrouted
    requests, and `raw` and null-body statuses in finalisation. */
module TsRouter {
  import opened Http
  import opened Paths
  import opened Matching
  import opened Cors
  import opened Dispatch
  import opened Responses

  /** The methods whose body is read. */
  const BodyMethods: set<string> := {"POST", "PUT", "PATCH"}

  /** The fields of a `Router`. */
  datatype RouterState = RouterState(
    routes: seq<Route>,
    globalHandlers: seq<Slot>,
    debugMode: bool,
    corsConfig: CorsOptions,
    corsEnabled: bool)

  /** Once `cors()` has run, the stored configuration is one `cors()` built:
      every field present and truthy. */
  predicate ValidState(s: RouterState) {
    s.corsEnabled ==> s.corsConfig == AsOptions(Fill(s.corsConfig, "*"))
  }

  /** The headers written before the lookup result is consulted. */
  function InitialHeaders(s: RouterState): Headers {
    if s.corsEnabled then OptionalCorsHeaders(s.corsConfig) else map[]
  }

  /** `getRoute` as this variant calls it. */
  function Found(s: RouterState, rq: Request): (found: Option<Match>)
    ensures found.Some? ==> found.value.index < |s.routes|
  {
    Lookup(s.routes, rq.httpMethod, Segments(rq.path), rq.search, true)
  }

  /** The chain run for a routed request: global handlers, then the
      route's, on the request with its params, query and body. */
  function ChainRun(s: RouterState, rq: Request, found: Match): (m: Machine)
    requires found.index < |s.routes|
    ensures forall j :: 0 <= j < |m.started| ==> m.started[j] < |s.globalHandlers| + |s.routes[found.index].handlers|
  {
    var prq := ParsedRequest(rq.httpMethod, found.params, found.query, ReadBody(rq, BodyMethods, Text("")));
    var chain := s.globalHandlers + s.routes[found.index].handlers;
    RunAtWithin(chain, prq, 0, Initial(InitialHeaders(s)));
    RunChain(chain, prq, InitialHeaders(s))
  }

  /** What `handle` resolves to for a request. It never rejects; only a
      routed request whose chain supplied `raw` is answered with it; an
      unrouted one gets the pre-flight or 404. */
  function Respond(s: RouterState, rq: Request): (reply: Reply)
    ensures !reply.Rejected?
    ensures reply.Passthrough? ==>
      Found(s, rq).Some? && ChainRun(s, rq, Found(s, rq).value).res.raw == Some(reply.response)
    ensures Found(s, rq).None? ==>
      reply == NotFound(s.debugMode) || (s.corsEnabled && rq.httpMethod == "OPTIONS" && reply.Reply? && reply.body.None?)
  {
    var found := Found(s, rq);
    if s.corsEnabled && found.None? && rq.httpMethod == "OPTIONS" then
      Reply(s.corsConfig.optionsSuccessStatus, None, InitialHeaders(s))
    else if found.None? then NotFound(s.debugMode)
    else Outcome(ChainRun(s, rq, found.value), s.debugMode)
  }

  class Router {
    var routes: seq<Route>
    var globalHandlers: seq<Slot>
    var debugMode: bool
    var corsConfig: CorsOptions
    var corsEnabled: bool

    ghost predicate Valid()
      reads this
    {
      ValidState(State())
    }

    ghost function State(): RouterState
      reads this
    {
      RouterState(routes, globalHandlers, debugMode, corsConfig, corsEnabled)
    }

    constructor ()
      ensures Valid()
      ensures State() == RouterState([], [], false, NoOptions, false)
    {
      routes := [];
      globalHandlers := [];
      debugMode := false;
      corsConfig := NoOptions;
      corsEnabled := false;
    }

    /** `use(...handlers)`: pushes each handler, in order, onto the global list. */
    method Use(handlers: seq<Slot>) returns (r: Router)
      requires Valid()
      modifies this
      ensures Valid() && r == this
      ensures State() == old(State()).(globalHandlers := old(globalHandlers) + handlers)
    {
      for i := 0 to |handlers|
        invariant globalHandlers == old(globalHandlers) + handlers[..i]
        invariant routes == old(routes) && debugMode == old(debugMode)
        invariant corsConfig == old(corsConfig) && corsEnabled == old(corsEnabled)
      {
        globalHandlers := globalHandlers + [handlers[i]];
      }
      assert handlers[..|handlers|] == handlers;
      return this;
    }

    /** `register(method, url, handlers)`: appends one route. */
    method Register(httpMethod: string, url: string, handlers: seq<Slot>) returns (r: Router)
      requires Valid()
      modifies this
      ensures Valid() && r == this
      ensures State() == old(State()).(routes := old(routes) + [Route(httpMethod, url, handlers)])
    {
      routes := routes + [Route(httpMethod, url, handlers)];
      return this;
    }

    /** `connect`, `delete`, `get`, `head`, `options`, `patch`, `post`,
        `put`, `trace` and `any`: register under the verb's method name,
        `*` for `any`. */
    method Add(verb: Verb, url: string, handlers: seq<Slot>) returns (r: Router)
      requires Valid()
      modifies this
      ensures Valid() && r == this
      ensures State() == old(State()).(routes := old(routes) + [Route(MethodName(verb), url, handlers)])
    {
      r := Register(MethodName(verb), url, handlers);
    }

    /** `debug(state = true)`; `None` is a call without an argument. */
    method Debug(state: Option<bool>) returns (r: Router)
      requires Valid()
      modifies this
      ensures Valid() && r == this
      ensures State() == old(State()).(debugMode := if state.Some? then state.value else true)
    {
      debugMode := if state.Some? then state.value else true;
      return this;
    }

    /** `cors(config)`: switches CORS on with every falsy field defaulted. */
    method Cors(config: CorsOptions) returns (r: Router)
      requires Valid()
      modifies this
      ensures Valid() && r == this
      ensures State() == old(State()).(corsConfig := AsOptions(Fill(config, "*")), corsEnabled := true)
    {
      corsEnabled := true;
      corsConfig := AsOptions(Fill(config, "*"));
      FillIdempotent(config, "*");
      return this;
    }

    /** The four guarded `headers.set` calls at the start of `handle`: each
        header is written only when its configured field is truthy. */
    method WriteCorsHeaders() returns (headers: Headers)
      ensures headers == OptionalCorsHeaders(corsConfig)
    {
      headers := map[];
      if TruthyText(corsConfig.allowOrigin) {
        headers := headers[AllowOriginHeader := corsConfig.allowOrigin.value];
      }
      if TruthyText(corsConfig.allowMethods) {
        headers := headers[AllowMethodsHeader := corsConfig.allowMethods.value];
      }
      if TruthyText(corsConfig.allowHeaders) {
        headers := headers[AllowHeadersHeader := corsConfig.allowHeaders.value];
      }
      if TruthyNumber(corsConfig.maxAge) {
        headers := headers[MaxAgeHeader := IntToString(corsConfig.maxAge.value)];
      }
    }

    /** `handle(env, request)` */
    method Handle(rq: Request) returns (reply: Reply)
      requires Valid()
      ensures reply == Respond(State(), rq)
      ensures corsEnabled && rq.httpMethod == "OPTIONS" && Found(State(), rq).None? ==>
        reply.Reply? && TruthyNumber(reply.status) && FullHeaders(reply.headers)
    {
      if corsEnabled {
        EnabledCorsComplete(State());
      }
      var found := FindRoute(routes, rq.httpMethod, rq.path, rq.search, true);
      var headers: Headers := map[];
      if corsEnabled {
        headers := WriteCorsHeaders();
        if found.None? && rq.httpMethod == "OPTIONS" {
          return Reply(corsConfig.optionsSuccessStatus, None, headers);
        }
      }
      if found.None? {
        return NotFound(debugMode);
      }
      var body := ReadBody(rq, BodyMethods, Text(""));
      var prq := ParsedRequest(rq.httpMethod, found.value.params, found.value.query, body);
      var d := new Dispatcher(globalHandlers + routes[found.value.index].handlers, prq, headers);
      d.Runner(0);
      if d.failure.Some? {
        return ErrorReply(debugMode, d.failure.value);
      }
      reply := Finalize(d.res);
    }
  }

  // ----- properties of `handle` -----

  /** With CORS on, the router writes all four headers, none of them empty,
      before the chain runs, and the pre-flight carries a truthy status. */
  lemma EnabledCorsComplete(s: RouterState)
    requires ValidState(s) && s.corsEnabled
    ensures InitialHeaders(s) == CorsHeaders(Fill(s.corsConfig, "*"))
    ensures FullHeaders(InitialHeaders(s))
    ensures TruthyNumber(s.corsConfig.optionsSuccessStatus)
  {
    OptionalHeadersOfComplete(Fill(s.corsConfig, "*"));
    CorsHeadersFull(Fill(s.corsConfig, "*"));
  }

  /** A routed request, OPTIONS included, runs its chain: the pre-flight is
      only for requests no route (not even a `*` fall-back) answers. */
  lemma RoutedRunsChain(s: RouterState, rq: Request)
    requires Found(s, rq).Some?
    ensures Respond(s, rq) == Outcome(ChainRun(s, rq, Found(s, rq).value), s.debugMode)
  {
  }

  /** An unrouted request: the pre-flight when CORS is on and the method is
      OPTIONS, else 404 (with text only in debug mode). */
  lemma UnroutedReply(s: RouterState, rq: Request)
    requires Found(s, rq).None?
    ensures s.corsEnabled && rq.httpMethod == "OPTIONS" ==>
      Respond(s, rq) == Reply(s.corsConfig.optionsSuccessStatus, None, OptionalCorsHeaders(s.corsConfig))
    ensures !(s.corsEnabled && rq.httpMethod == "OPTIONS") ==> Respond(s, rq) == NotFound(s.debugMode)
  {
  }

  /** The state `cors()` without arguments leaves behind. */
  function DefaultCors(s: RouterState): RouterState {
    s.(corsConfig := AsOptions(Fill(NoOptions, "*")), corsEnabled := true)
  }

  /** After `cors()`, an unrouted OPTIONS request gets 204, no body, and the
      four headers `*`, `*`, `*`, `86400`. */
  lemma DefaultPreflight(s: RouterState, rq: Request)
    requires rq.httpMethod == "OPTIONS"
    requires Found(s, rq).None?
    ensures Respond(DefaultCors(s), rq) ==
      Reply(Some(204), None, map[AllowOriginHeader := "*", AllowMethodsHeader := "*",
                                 AllowHeadersHeader := "*", MaxAgeHeader := "86400"])
  {
    var c := Fill(NoOptions, "*");
    TsDefaults();
    OptionalHeadersOfComplete(c);
  }

  /** A CORS header that no handler writes reaches a routed reply with the
      configured value, unless the chain failed or a handler supplied `raw`;
      a handler may overwrite it, since the headers are written before the
      chain runs. */
  lemma CorsHeaderReachesReply(s: RouterState, rq: Request, name: string)
    requires s.corsEnabled && name in OptionalCorsHeaders(s.corsConfig) && name != ContentType
    requires Found(s, rq).Some?
    requires ChainNeverSets(s.globalHandlers + s.routes[Found(s, rq).value.index].handlers, name)
    ensures var m := ChainRun(s, rq, Found(s, rq).value);
      m.failure.None? && m.res.raw.None? ==>
        Respond(s, rq).Reply? && name in Respond(s, rq).headers &&
        Respond(s, rq).headers[name] == OptionalCorsHeaders(s.corsConfig)[name]
  {
    var found := Found(s, rq).value;
    var chain := s.globalHandlers + s.routes[found.index].handlers;
    var prq := ParsedRequest(rq.httpMethod, found.params, found.query, ReadBody(rq, BodyMethods, Text("")));
    var m := ChainRun(s, rq, found);
    RunAtKeepsHeader(chain, prq, 0, Initial(InitialHeaders(s)), name);
    FinalizeKeepsHeader(m.res, name);
  }

  /** The chain is the global handlers followed by the route's handlers: a
      global handler that does not call `next()` keeps every route handler
      from running, whatever the global handlers before it do; when those
      all pass on and it throws nothing, the chain also ends without error. */
  lemma GlobalHandlerEndsChain(globals: seq<Slot>, handlers: seq<Slot>, prq: ParsedRequest, headers: Headers, k: nat)
    requires k < |globals| && (globals[k].Callable? ==> NextCount(globals[k].actions) == 0)
    ensures var m := RunChain(globals + handlers, prq, headers);
      (StopsAt(globals, k) ==> m.failure.None?) && forall j :: 0 <= j < |m.started| ==> m.started[j] <= k
  {
    var chain := globals + handlers;
    assert chain[k] == globals[k];
    EndingHandlerStopsChain(chain, prq, headers, k);
    if StopsAt(globals, k) {
      forall i | 0 <= i <= k
        ensures chain[i] == globals[i]
      {
      }
      StopsAtRunsPrefix(chain, prq, headers, k);
    }
  }
}
