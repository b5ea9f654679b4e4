# cloudflare-worker-router, modelled in Dafny

A model of the request router of `tsndr/cloudflare-worker-router`. Three
historical variants are each modelled as a module:

- `src/index.ts`, the canonical TypeScript router, is `TsRouter`.
- `index.js`, the oldest JavaScript router, is `LegacyRouter`.
- `src/index.js`, the compiled intermediate, is `CompiledRouter`.

The modules they share are:

- `Http`: request, response and handler values, JavaScript truthiness, and integer rendering.
- `Paths`: `split('/').filter(i => i)`, `:name` parameters, and last-wins maps.
- `Matching`: `getRoute`, as a specification function `Lookup` and as the loops `MatchRoute` and `FindRoute`.
- `Cors`: the `||` defaults of `cors()` and the four `Access-Control-*` headers.
- `Dispatch`: the handler chain.
  - `runner(index)` with its `prevIndex` guard is written as the functions `RunAt` and `Exec`, and as the class `Dispatcher` that updates `prevIndex`, `res` and the failure in place.
- `Responses`: body selection, `res.status || (res.body ? 200 : 204)`, JSON finalisation, `raw`, the null-body statuses, and the 404 and 500 replies.

Each router is a `class` with the source's fields.
- The builders, `use`, `cors` and `debug` update those fields and state the whole new state.
- `Handle` is proved equal to a function `Respond` of the router's state and the request.
- The properties of `handle` are proved about `Respond`.

Handlers are lists of actions: set status, body, a header or `raw`; copy a parameter, query value or the request body into the response body; call `next()`; or throw. A list entry that is not a function is `NotCallable`.

Behaviours of the code worth noting:
- In `src/index.ts` the OPTIONS pre-flight is answered only when no route matched, including the `*` fall-back. The lookup runs first.
- The runner's guard rejects only a repeated call with the same index as the last call. It does not reject every out-of-order call. `Dispatch.SecondNextRerunsDownstream` shows a second `next()` re-running the downstream handlers.
- CORS headers are written before the chain runs, so a handler that sets the same header replaces them. They are not merged in after the handlers.
- The request body is read before the chain, once, for the listed methods. It is not read lazily.

## Model

| member | source | states |
|---|---|---|
| Http.MethodName | src/index.ts:196-297 | each builder's method name is non-empty, and it is `*` exactly for `any` |
| Http.MethodNameInjective | src/index.ts:196-297 | distinct builders register under distinct method names |
| Http.IntToString | src/index.ts:420 | `maxAge.toString()` is a non-empty decimal text, with a leading `-` exactly for a negative number |
| Http.IntToStringRoundTrip | src/index.ts:419-420 | the Max-Age text of an integer reads back as that integer, so distinct maxAge values give distinct headers |
| Http.ContainsSound | src/index.ts:434 | when `includes` is true the text occurs somewhere in the string |
| Http.ContainsComplete | src/index.ts:434 | when the text occurs at some position, `includes` is true |
| Http.ContainsSpec | src/index.ts:434 | `includes(sub)` holds exactly when `sub` occurs at some position of the string |
| Paths.Split | src/index.ts:356 | `split('/')` gives at least one piece, and no piece contains `/` |
| Paths.JoinSplit | src/index.ts:356 | joining the pieces of `split('/')` with `/` gives the original string back |
| Paths.SplitAround | src/index.ts:356 | a `/` between two strings is a piece boundary: `split(a + '/' + b)` is the pieces of `a` followed by those of `b` |
| Paths.Segments | src/index.ts:356 | the filtered segments are all non-empty |
| Paths.NonEmptyKeeps | src/index.ts:356 | the filter keeps a piece exactly when it is non-empty |
| Paths.SegmentsAreSlashFree | src/index.ts:359 | no segment contains `/`, and every non-empty piece of the split is a segment |
| Paths.SegmentsAround | src/index.ts:356 | segments of `a/b` are those of `a` then those of `b`, so leading, trailing and doubled slashes do not matter |
| Paths.SegmentsOfPath | src/index.ts:356 | a path spelled from non-empty, slash-free segments splits back into exactly those segments |
| Paths.LastWinsKeys | src/index.ts:376-380 | the query map has exactly the keys of the search pairs |
| Paths.LastWinsValues | src/index.ts:378-380 | each query key maps to the value of its last pair, since a later assignment overwrites an earlier one |
| Paths.ParamsExtend | src/index.ts:366-372 | one loop step either binds `name` (without the colon) to the path segment, overwriting, or leaves `params` alone |
| Paths.ParamsKeys | src/index.ts:366-372 | the keys of `params` are exactly the names of the `:name` segments |
| Paths.ParamsValues | src/index.ts:370-371 | each name maps to the path segment at its last occurrence in the pattern, so a later duplicate overwrites an earlier one |
| Paths.ParamsExample | src/index.ts:366-372 | `/:a/:b` against `/bar/foo` gives `{a: 'bar', b: 'foo'}` |
| Paths.QueryExample | src/index.ts:378-380 | `foo=bar&bar=foo` gives both keys, and a repeated key keeps its last value |
| Matching.RouteMatchesOwnPath | src/index.ts:361-368 | a route of a matching method matches its own segments, and a route with no parameter segment matches only those |
| Matching.FallbackMatchesOnlyStar | src/index.ts:361-368 | a `*`-url fall-back route matches, through the first `find`, only the one-segment path `*` |
| Matching.Find | src/index.ts:358 | `find` returns the first position satisfying the test, and none when no position does |
| Matching.Lookup | src/index.ts:354-386 | a matching route is always preferred and the first one wins, with its params and last-wins query; only when none matches, the first `*`-url route of a matching method, with empty params and query, in the variants that have the fall-back |
| Matching.MatchSegments | src/index.ts:366-372 | the segment loop accepts exactly when every pattern segment equals its path segment or is a parameter, and then `params` is the last-wins map of the bindings |
| Matching.MatchRoute | src/index.ts:359-372 | the callback accepts exactly when the method is the request's or `*`, the segment counts are equal and every segment is equal or a parameter; on acceptance `params` is the last-wins map of the bindings |
| Matching.BuildQuery | src/index.ts:376-380 | the loop over search pairs builds the last-wins map |
| Matching.FindRoute | src/index.ts:354-386 | the two `find` loops return exactly what `Lookup` specifies |
| Matching.AppendKeepsEarlierMatch | src/index.ts:337-345 | appending a route never changes the answer for a request an earlier route already matches |
| Matching.AppendedRouteAnswersUnmatched | src/index.ts:358-385 | a newly appended route answers every request that it matches and no earlier route matches, ahead of any `*` fall-back |
| Cors.Fill | src/index.ts:316-326 | each field comes from the argument when truthy, otherwise from its default `*`, `*`, the variant's Allow-Headers default, `86400`, `204`; with a non-empty Allow-Headers default every field is truthy |
| Cors.FillKeepsComplete | src/index.ts:318-324 | a configuration with every field truthy is kept unchanged by `cors()` |
| Cors.FillIdempotent | src/index.ts:316-326 | calling `cors()` with its own result stores the same configuration |
| Cors.CorsHeaders | index.js:338-347 | the unconditional writes give exactly the four `Access-Control-*` headers, carrying the configured origin, methods and headers and the decimal text of `maxAge` |
| Cors.CorsHeadersFull | src/index.js:279-284 | for a configuration with every field truthy, all four headers are present and none is empty |
| Cors.OptionalCorsHeaders | src/index.ts:412-420 | each CORS header is present exactly when its field is truthy, carrying that field's value (`maxAge` as decimal text), and there are at most four |
| Cors.OptionalHeadersOfComplete | src/index.ts:412-420 | for a configuration `cors()` built, the conditional writes set all four headers, with the same values as unconditional writes |
| Cors.MaxAgeDefaultText | src/index.ts:322 | the default maxAge is written as `86400` |
| Cors.TsDefaults | src/index.spec.ts:148-157 | `cors()` with no argument gives headers `*`, `*`, `*`, `86400` and pre-flight status 204 |
| Cors.JsDefaults | index.js:231-241 | in the JavaScript variants `cors()` with no argument gives `*`, `*`, `*, Authorization`, `86400` and status 204 |
| Dispatch.Effect | src/index.ts:459-460 | one action of a handler changes only what it names: the status, the body, `raw`, or one header, leaving every other header alone |
| Dispatch.RunAt | src/index.ts:453-461 | once the chain has failed it stays failed |
| Dispatch.Exec | src/index.ts:459-460 | once the chain has failed, the rest of a handler changes nothing about the failure |
| Dispatch.RunAtWithin | src/index.ts:453-461 | `runner(index)` only ever invokes handlers at `index` or later, inside the chain, and only appends to the record |
| Dispatch.ExecWithin | src/index.ts:459-460 | the `next()` calls of the handler at `index` invoke only handlers after it, inside the chain |
| Dispatch.Initial | src/index.ts:449-451 | before `runner(0)` the response has only the given headers, and `prevIndex` is -1 |
| Dispatch.Dispatcher.constructor | src/index.ts:449-451 | the runner's closure state starts in `Initial` |
| Dispatch.Dispatcher.Runner | src/index.ts:453-461 | `runner(index)` changes the state exactly as `RunAt` specifies |
| Dispatch.Dispatcher.Invoke | src/index.ts:459-460 | running a handler's actions changes the state exactly as `Exec` specifies |
| Dispatch.ExecWithoutNext | src/index.ts:459-460 | a handler that neither calls `next()` nor throws changes only the response |
| Dispatch.StopsAtRunAt | src/index.ts:453-461 | entered at any index up to the stop point, the chain invokes each handler up to it once, in order, without error, and leaves `prevIndex` at the stop point |
| Dispatch.StopsAtExec | src/index.ts:459-460 | in a chain that stops at `k`, a handler that calls `next()` once and throws nothing ends without error, with `prevIndex` at `k` and every position after it up to `k` invoked once; one that does not call `next()` leaves `prevIndex` and the invoked positions unchanged |
| Dispatch.StopsAtRunsPrefix | src/index.ts:453-463 | when every handler before `k` calls `next()` exactly once and throws nothing, and the entry at `k` is not a function or neither calls `next()` nor throws, the chain ends without error having invoked exactly the positions up to `k`, once each, in order |
| Dispatch.NothingAfterRunAt | src/index.ts:453-461 | in any chain, whatever the handlers before it do, `runner(index)` started at or before a handler that does not call `next()` never invokes a position after it |
| Dispatch.NothingAfterExec | src/index.ts:459-460 | the same for the rest of the handler at `index`, which may call `next()` only when it is before that handler |
| Dispatch.EndingHandlerStopsChain | src/index.ts:453-463 | in every chain, a handler (or non-function entry) that does not call `next()` ends the chain: no position after it is ever invoked |
| Dispatch.WellBehavedChainRunsAll | src/index.ts:450-463 | when every handler calls `next()` once, all handlers run once each, in order, with no error |
| Dispatch.StopWithoutNext | src/index.ts:457-460 | invoking a handler without `next()` records only that handler and sets `prevIndex` to its index |
| Dispatch.SecondNextThrows | src/index.ts:454-455 | calling `next()` twice throws `next() called multiple times` when the next handler does not call `next()` itself |
| Dispatch.SecondNextRerunsDownstream | src/index.ts:451-461 | the guard compares with the last index only: `[next;next], [next], []` runs handlers `0,1,2,1,2` without error |
| Dispatch.RunAtKeepsHeader | src/index.ts:449-461 | a header no handler writes keeps, through the whole chain, the value it had before `runner(0)` |
| Dispatch.ExecKeepsHeader | src/index.ts:459-460 | the same, for the remaining actions of one handler |
| Dispatch.HandlerOverridesHeader | src/index.ts:453-461 | at any position in a chain, a handler that sets a header that neither its later actions nor any later handler write has that header at its value when it returns, whatever was written before |
| Dispatch.RunAtSetterDecides | src/index.ts:453-461 | when every write of a header in the chain writes the same value, `runner(index)` keeps the header at that value once it is there, and leaves it there whenever it invokes a handler that starts by setting it |
| Dispatch.ExecSetterDecides | src/index.ts:459-460 | the same for the rest of one handler, and a handler whose next action sets the header ends with it at that value |
| Dispatch.SetterDecidesHeader | src/index.ts:449-463 | when every write of a header writes the same value, a chain in which a handler that starts by setting it was invoked ends with the header at that value, whatever was written before the chain |
| Dispatch.WriteAfterNextWins | src/index.ts:459-460 | a handler writing a header after its `next()` returns overrides a later handler's write of it: `[next, set h=x], [set h=v]` ends with `h` at `x` |
| Responses.ReadBody | src/index.ts:433-447 | methods outside the list keep the unread body; a content type containing `json` gives the parsed value or `{}` on failure; otherwise the text or `''` on failure |
| Responses.ReadFailureHasFallback | src/index.ts:435-446 | a failed read gives `{}` for JSON content and `''` otherwise |
| Responses.NullBodyStatus | src/index.ts:475 | the null-body statuses lie between 101 and 304 and are none of 200, 404, 500 |
| Responses.EffectiveStatus | src/index.ts:475 | a truthy status wins; otherwise 200 exactly when the body is truthy, and 204 exactly when it is not |
| Responses.Stringify | src/index.ts:465-470 | an object body becomes its JSON text, with `Content-Type: application/json` unless one is kept; status, `raw` and every other header are untouched; any other body leaves the response as it is |
| Responses.Finalize | src/index.ts:465-475 | `raw` is returned as is; otherwise the reply carries `res.status` as given and the stringified headers, and the body is absent exactly when the computed status is 101, 204, 205 or 304 or there is none; object bodies get `application/json` unless a content type exists and, unless the status forbids a body, their JSON text as the body |
| Responses.FinalizeBodyAllowed | src/index.ts:475 | the newer finalisation never pairs a body with a null-body status |
| Responses.FinalizeLegacy | index.js:357-365 | the reply always carries the computed status, the stringified body (never dropped) and headers, and there is no `raw` |
| Responses.LegacyBodyRefused | index.js:362-365 | the oldest finalisation pairs a body with a null-body status exactly when the body is set and the computed status is 101, 204, 205 or 304 |
| Responses.FinalizeKeepsHeader | src/index.ts:465-475 | finalisation keeps every header other than `Content-Type` |
| Responses.FinalizeGenerationsAgree | index.js:357-365 | with no `raw`, a truthy status that allows a body, and (for an object body) a Content-Type that is either absent or non-empty, the old and new finalisation give the same reply; a present but empty Content-Type makes `has()` and the truthiness test disagree |
| Responses.EmptyReplyStatus | src/index.ts:475 | with no status and an empty body, the newer variants drop the body and leave the status to the host, while the oldest asks for 204 with `''`, a pairing the host refuses |
| Responses.NotFound | src/index.ts:430-431 | 404, with body `Route not found!` exactly in debug mode |
| Responses.ErrorReply | src/index.ts:476-479 | 500, with the stack as body only in debug mode and for an `Error`, otherwise `''` |
| Responses.ErrorReplyLegacy | index.js:366-368 | 500 with `''` outside debug mode; in debug mode 500 with `err.stack` (no body for a thrown value without one), except that a thrown `null` or `undefined` makes reading `stack` throw inside `catch`, so `handle` rejects |
| Responses.NullishThrow | index.js:366-368 | a thrown `null` gives 500 with `''` in the newer variants, while in debug mode the oldest rejects |
| Responses.GuardErrorShown | src/index.ts:454-455 | the guard's error is an `Error`, so in debug mode its stack is the body in every variant |
| Responses.Outcome | src/index.ts:463-479 | a failed chain gives the 500 reply, and a completed chain the finalised response |
| Responses.OutcomeLegacy | index.js:356-369 | the same, for the oldest variant |
| TsRouter.ChainRun | src/index.ts:449-463 | the chain run only ever invokes global and route handlers |
| TsRouter.Respond | src/index.ts:396-480 | `handle` never rejects; `raw` is passed through only for a routed request whose chain set it; an unrouted request gets 404 or, for OPTIONS with CORS on, a body-less pre-flight |
| TsRouter.EnabledCorsComplete | src/index.ts:316-326 | once `cors()` has turned CORS on, the headers written before the chain are all four, none empty, and the pre-flight status is truthy |
| TsRouter.Found | src/index.ts:410 | the route found is one of the registered routes |
| TsRouter.Router.constructor | src/index.ts:142-174 | no routes, no global handlers, debug off, an empty configuration and CORS off |
| TsRouter.Router.Use | src/index.ts:182-187 | appends the handlers, in argument order, to the global handlers; nothing else changes; returns the router |
| TsRouter.Router.Register | src/index.ts:337-345 | appends exactly one route at the end; nothing else changes; returns the router |
| TsRouter.Router.Add | src/index.ts:196-297 | every builder appends one route under its method name (`*` for `any`) and returns the router |
| TsRouter.Router.Debug | src/index.ts:305-308 | sets debug mode only, to the argument or to `true` when there is none, and returns the router |
| TsRouter.Router.Cors | src/index.ts:316-326 | turns CORS on and stores the defaulted configuration; returns the router |
| TsRouter.Router.WriteCorsHeaders | src/index.ts:412-420 | the guarded header writes give exactly the headers whose configured field is truthy, with `maxAge` rendered as decimal text |
| TsRouter.Router.Handle | src/index.ts:396-480 | the reply is exactly `Respond` of the router's fields and the request; with CORS on, an unrouted OPTIONS request gets a truthy status and all four headers, none empty |
| TsRouter.RoutedRunsChain | src/index.ts:422-463 | a routed request, OPTIONS included, runs global then route handlers and is answered from that run |
| TsRouter.UnroutedReply | src/index.ts:422-431 | an unrouted request gets the pre-flight when CORS is on and the method is OPTIONS, and 404 otherwise |
| TsRouter.DefaultPreflight | src/index.spec.ts:155-163 | after `cors()`, an unrouted OPTIONS request gets 204, no body, and `*`, `*`, `*`, `86400` |
| TsRouter.CorsHeaderReachesReply | src/index.ts:409-475 | a CORS header no handler writes reaches every routed reply that did not fail or pass `raw` through, with its configured value |
| TsRouter.GlobalHandlerEndsChain | src/index.ts:450-461 | a global handler that does not call `next()` keeps every route handler (and every later global handler) from running, whatever the global handlers before it do; when those all call `next()` once and nothing throws, the chain also ends without error |
| LegacyRouter.ChainRun | index.js:338-356 | the chain run only ever invokes route handlers |
| LegacyRouter.Respond | index.js:298-370 | the reply is never `raw`; `handle` rejects only in debug mode, for a routed chain that threw `null` or `undefined`; without a pre-flight an unrouted request gets 404 |
| LegacyRouter.PreflightComplete | index.js:306-316 | with a configuration from `cors()`, an OPTIONS request gets no body, a truthy status and all four headers, none empty |
| LegacyRouter.Found | index.js:332 | the route found is one of the registered routes |
| LegacyRouter.Router.constructor | index.js:10-34 | no routes, debug off, and an empty configuration, meaning CORS off |
| LegacyRouter.Router.Register | index.js:252-259 | appends exactly one route at the end; returns the router |
| LegacyRouter.Router.Add | index.js:89-190 | every builder appends one route under its method name (`*` for `any`) |
| LegacyRouter.Router.All | index.js:200-203 | appends a `*` route whose single handler is the array of handlers, which is not a function |
| LegacyRouter.Router.Debug | index.js:210-212 | sets debug mode only, to the argument or to `true` when there is none |
| LegacyRouter.Router.Cors | index.js:231-241 | stores the configuration, defaulting Allow-Headers to `*, Authorization`, which turns CORS on |
| LegacyRouter.Router.Handle | index.js:298-370 | the reply is exactly `Respond` of the router's fields and the request; with CORS on, every OPTIONS request gets a truthy status and all four headers, none empty |
| LegacyRouter.PreflightBeforeLookup | index.js:306-316 | with CORS on, every OPTIONS request gets the pre-flight with no body and `optionsSuccessStatus`, whatever routes exist |
| LegacyRouter.NoFallback | index.js:332-337 | with no matching route the reply is 404, even when a `*`-url route exists |
| LegacyRouter.AllRouteAnswersEmpty | index.js:200-203 | a request routed to an `all` route gets 204 with no body and only the CORS headers |
| LegacyRouter.CorsHeaderReachesReply | index.js:338-347 | a CORS header no handler writes reaches every routed reply that did not fail |
| LegacyRouter.DefaultPreflight | index.js:306-316 | after `cors()`, OPTIONS requests get 204 and `*`, `*`, `*, Authorization`, `86400` |
| CompiledRouter.ChainRun | src/index.js:285-294 | the chain run only ever invokes global and route handlers |
| CompiledRouter.Respond | src/index.js:234-308 | `handle` never rejects; every OPTIONS request gets a body-less reply with the four configured headers; `raw` is passed through only for a routed non-OPTIONS request whose chain set it |
| CompiledRouter.PreflightComplete | src/index.js:246-256 | an OPTIONS request gets no body, a truthy status and all four headers, none empty |
| CompiledRouter.Found | src/index.js:275 | the route found is one of the registered routes |
| CompiledRouter.Router.constructor | src/index.js:17-41 | no routes or global handlers, debug off, and the configuration pre-filled with `*`, `*`, `*`, 86400, 204 |
| CompiledRouter.Router.Use | src/index.js:48-53 | appends the handlers in order to the global handlers; returns the router |
| CompiledRouter.Router.Register | src/index.js:188-195 | appends exactly one route at the end; returns the router |
| CompiledRouter.Router.Add | src/index.js:61-153 | every builder appends one route under its method name (`*` for `any`) |
| CompiledRouter.Router.Debug | src/index.js:159-161 | sets debug mode only, to the argument or to `true` when there is none |
| CompiledRouter.Router.Cors | src/index.js:168-178 | replaces the configuration, defaulting Allow-Headers to `*, Authorization` |
| CompiledRouter.Router.Handle | src/index.js:234-308 | the reply is exactly `Respond` of the router's fields and the request; every OPTIONS request gets a truthy status and all four headers, none empty |
| CompiledRouter.EveryOptionsIsPreflight | src/index.js:246-256 | every OPTIONS request gets the pre-flight whatever routes exist, so `options` routes never run |
| CompiledRouter.InitialPreflight | src/index.js:35-41 | a new router answers OPTIONS with 204 and `*`, `*`, `*`, `86400` before `cors()` is called |
| CompiledRouter.DefaultPreflight | src/index.js:168-178 | after `cors()`, Allow-Headers becomes `*, Authorization` |
| CompiledRouter.CorsHeaderReachesReply | src/index.js:278-284 | a CORS header no handler writes reaches every routed reply that did not fail or pass `raw` through |
| CompiledRouter.AgreesWithTs | src/index.js:234-308 | with CORS on under the same configuration, the TypeScript router answers every non-OPTIONS request exactly as this one |

## Left out

- URL parsing and percent-decoding: the request arrives as its pathname and its list of search pairs.
- Reading and parsing the body stream, `JSON.parse` and `JSON.stringify`: a read gives a value or fails, and an object body carries its JSON text.
- The platform `Headers` object is case-insensitive; the model uses a map with exact keys.
- The `Response` constructor's own checks, its default status (a reply with no status stands for the host default) and `webSocket`.
- async/await: every handler is taken to await `next()`, so the chain runs strictly in sequence. A handler that catches an error thrown by `next()` is not modelled; any throw ends the chain, and the request gets 500, except that the oldest variant in debug mode rejects on a thrown `null` or `undefined` (see `Responses.ErrorReplyLegacy`).
- Handlers are lists of actions, not closures. They cannot replace `res.headers` as a whole or read `env`, `cf` or the `extend` fields.
- `console.error` / `console.warn`, the `Event` unwrapping in `index.js`, and the type declarations in `index.d.ts` and `src/index.d.ts`.
- Stack traces are reduced to one text per thrown `Error`.
- `maxAge` is an integer; fractional values and their `toString()` are not modelled.
- Http.IntToString: plain decimal digits for every integer; `Number.prototype.toString()` switches to exponent form from 10^21 in size, and integers above 2^53 are not held exactly by a double, so the model's text differs there.
- Parameter and query keys are map keys; a key `__proto__` assigned on a plain object (src/index.ts:371, 379) sets the prototype instead of adding a key, which the model does not reproduce.
- Responses.FinalizeLegacy: the host's `Response` constructor throws a `TypeError` for a body with a 101, 204, 205 or 304 status, and `handle` then answers 500; the model returns the reply the code asks for, and `Responses.LegacyBodyRefused` states exactly when the refusal happens.
- Responses.EmptyReplyStatus: the oldest variant's 204 with `''` is the reply asked for; the host refuses it, giving 500, which is not modelled (see `Responses.BodyAllowed`).
- Responses.ErrorReplyLegacy: a thrown non-`Error` object that has its own `stack` property is taken to have none.
- Dispatch.SecondNextThrows: stated only for a next handler that never calls `next()`; other chains are covered by `Dispatch.SecondNextRerunsDownstream` and the definition of `RunAt`.
