/** What `handle` does around the handler chain: choosing how to read the
    request body, turning the final `res` into a reply, and the 404 and 500
    replies. */
module Responses {
  import opened Http
  import opened Dispatch

  const ContentType := "Content-Type"
  const JsonType := "application/json"
  const NotFoundText := "Route not found!"
  /** First line of the stack of the runner's own error. */
  const NextCalledTwiceStack := "Error: next() called multiple times"

  // ----- request body -----

  /** `req.headers.has('Content-Type') && req.headers.get('Content-Type').includes('json')` */
  predicate JsonContent(contentType: Option<string>) {
    contentType.Some? && Contains(contentType.value, "json")
  }

  /** The body handlers see: for a method in `readMethods`, the parsed JSON
      (or `{}` when parsing fails) if the content type mentions `json`,
      otherwise the text (or `''` when reading fails); for any other method
      it stays `unread`. */
  function ReadBody(rq: Request, readMethods: set<string>, unread: Body): (b: Body)
    ensures rq.httpMethod !in readMethods ==> b == unread
    ensures rq.httpMethod in readMethods && JsonContent(rq.contentType) ==>
      b == (if rq.jsonRead.Some? then rq.jsonRead.value else Object("{}"))
    ensures rq.httpMethod in readMethods && !JsonContent(rq.contentType) ==>
      b == Text(if rq.textRead.Some? then rq.textRead.value else "")
  {
    if rq.httpMethod !in readMethods then unread
    else if JsonContent(rq.contentType) then
      match rq.jsonRead
      case Some(v) => v
      case None => Object("{}")
    else
      match rq.textRead
      case Some(t) => Text(t)
      case None => Text("")
  }

  /** A failed read never leaves the body as it was before reading: for a
      method that reads, the body is always a string or an object. */
  lemma ReadFailureHasFallback(rq: Request, readMethods: set<string>, unread: Body)
    requires rq.httpMethod in readMethods
    requires rq.jsonRead.None? && rq.textRead.None?
    ensures ReadBody(rq, readMethods, unread) == (if JsonContent(rq.contentType) then Object("{}") else Text(""))
  {
  }

  // ----- status -----

  /** `res.status || (res.body ? 200 : 204)` */
  function EffectiveStatus(status: Option<int>, body: Body): (code: int)
    ensures TruthyNumber(status) ==> code == status.value
    ensures !TruthyNumber(status) ==> (code == 200 <==> TruthyBody(body)) && (code == 204 <==> !TruthyBody(body))
  {
    if TruthyNumber(status) then status.value else if TruthyBody(body) then 200 else 204
  }

  /** The statuses a response must not carry a body with. None of the
      statuses the router itself sends with a body (200 by default, 404 and
      500) is one of them, so those bodies are never dropped. */
  function NullBodyStatus(code: int): (b: bool)
    ensures b ==> 101 <= code <= 304
    ensures b ==> code != 200 && code != 404 && code != 500
  {
    code == 101 || code == 204 || code == 205 || code == 304
  }

  // ----- finalisation -----

  /** `Headers.has('Content-Type')` */
  predicate HasContentType(h: Headers) {
    ContentType in h
  }

  /** `!!res.headers['Content-Type']` on a plain object */
  predicate TruthyContentType(h: Headers) {
    ContentType in h && h[ContentType] != ""
  }

  /** An object body becomes its JSON text, and `Content-Type` becomes
      `application/json` unless `keep` says a content type is already set;
      any other body leaves `res` as it is. */
  function Stringify(res: ResState, keep: bool): (r: ResState)
    requires keep ==> ContentType in res.headers
    ensures res.body.Object? ==> r.body == Text(res.body.json) && ContentType in r.headers
    ensures res.body.Object? ==> r.headers[ContentType] == if keep then res.headers[ContentType] else JsonType
    ensures !res.body.Object? ==> r == res
    ensures r.status == res.status && r.raw == res.raw && !r.body.Object?
    ensures forall k :: k in res.headers ==> k in r.headers
    ensures forall k :: k in r.headers && k != ContentType ==> k in res.headers && r.headers[k] == res.headers[k]
  {
    if !res.body.Object? then res
    else
      var h := if keep then res.headers else res.headers[ContentType := JsonType];
      res.(body := Text(res.body.json), headers := h)
  }

  function BodyText(b: Body): (t: Option<string>)
    ensures t.None? <==> b.Unset?
  {
    match b
    case Unset => None
    case Text(s) => Some(s)
    case Object(j) => Some(j)
  }

  /** After the chain, in the later variants: stringify, hand back `raw`
      when a handler supplied one, otherwise answer with `res.status` as
      given (none lets the host default it), `res.headers`, and the body
      unless the computed status is one that carries none. */
  function Finalize(res: ResState): (reply: Reply)
    ensures res.raw.Some? ==> reply == Passthrough(res.raw.value)
    ensures res.raw.None? ==> reply.Reply? && reply.status == res.status
    ensures reply.Reply? ==>
      var r := Stringify(res, HasContentType(res.headers));
      reply.headers == r.headers &&
      (reply.body.None? <==> NullBodyStatus(EffectiveStatus(res.status, r.body)) || res.body.Unset?)
    ensures reply.Reply? && res.body.Text? && !NullBodyStatus(EffectiveStatus(res.status, res.body)) ==>
      reply.body == Some(res.body.text)
    ensures reply.Reply? && res.body.Object? ==>
      reply.body == (if NullBodyStatus(EffectiveStatus(res.status, Text(res.body.json))) then None else Some(res.body.json))
    ensures reply.Reply? && res.body.Object? ==>
      reply.headers[ContentType] == (if HasContentType(res.headers) then res.headers[ContentType] else JsonType)
  {
    var r := Stringify(res, HasContentType(res.headers));
    if r.raw.Some? then Passthrough(r.raw.value)
    else Reply(r.status, if NullBodyStatus(EffectiveStatus(r.status, r.body)) then None else BodyText(r.body), r.headers)
  }

  /** After the chain, in the oldest variant: stringify (testing the
      content type by truthiness), no `raw`, the computed status is sent,
      and the body is never dropped. */
  function FinalizeLegacy(res: ResState): (reply: Reply)
    ensures reply.Reply?
    ensures var r := Stringify(res, TruthyContentType(res.headers));
      reply.status == Some(EffectiveStatus(res.status, r.body)) &&
      reply.body == BodyText(r.body) && reply.headers == r.headers
    ensures reply.body.None? <==> res.body.Unset?
  {
    var r := Stringify(res, TruthyContentType(res.headers));
    Reply(Some(EffectiveStatus(r.status, r.body)), BodyText(r.body), r.headers)
  }

  /** A header other than `Content-Type` leaves finalisation exactly as the
      chain left it. */
  lemma FinalizeKeepsHeader(res: ResState, name: string)
    requires name != ContentType && name in res.headers
    ensures Finalize(res).Reply? ==> name in Finalize(res).headers && Finalize(res).headers[name] == res.headers[name]
    ensures name in FinalizeLegacy(res).headers && FinalizeLegacy(res).headers[name] == res.headers[name]
  {
  }

  /** With a truthy status that carries a body, the two generations of
      finalisation give the same reply, except that the newer one sends the
      status the handler set and the older sends it as computed, which is
      the same number. */
  lemma FinalizeGenerationsAgree(res: ResState)
    requires res.raw.None? && TruthyNumber(res.status) && !NullBodyStatus(res.status.value)
    requires res.body.Object? ==> TruthyContentType(res.headers) || !HasContentType(res.headers)
    ensures Finalize(res) == FinalizeLegacy(res)
  {
  }

  /** The status the host gives a reply: the one passed, else 200. */
  function HostStatus(reply: Reply): int
    requires reply.Reply?
  {
    if reply.status.Some? then reply.status.value else 200
  }

  /** The `Response` constructor refuses a body together with a status that
      must not carry one. */
  predicate BodyAllowed(reply: Reply) {
    reply.Reply? && reply.body.Some? ==> !NullBodyStatus(HostStatus(reply))
  }

  /** The newer finalisation never hands the host a body it refuses. */
  lemma FinalizeBodyAllowed(res: ResState)
    ensures BodyAllowed(Finalize(res))
  {
  }

  /** The oldest finalisation hands the host a body it refuses exactly when
      there is a body and the computed status is one that must not carry it. */
  lemma LegacyBodyRefused(res: ResState)
    ensures !BodyAllowed(FinalizeLegacy(res)) <==>
      !res.body.Unset? && NullBodyStatus(EffectiveStatus(res.status, Stringify(res, TruthyContentType(res.headers)).body))
  {
  }

  /** With no status set and an empty body, the newer variants drop the body
      and leave the status to the host, while the oldest one asks for 204
      with the body `''`, a pair the host refuses. */
  lemma EmptyReplyStatus(headers: Headers)
    ensures Finalize(ResState(headers, None, Text(""), None)) == Reply(None, None, headers)
    ensures FinalizeLegacy(ResState(headers, None, Text(""), None)) == Reply(Some(204), Some(""), headers)
    ensures !BodyAllowed(FinalizeLegacy(ResState(headers, None, Text(""), None)))
  {
  }

  // ----- 404 and 500 -----

  function NotFound(debug: bool): (reply: Reply)
    ensures reply.Reply? && reply.status == Some(404) && reply.headers == map[]
    ensures reply.body.Some? <==> debug
    ensures debug ==> reply.body == Some(NotFoundText)
  {
    Reply(Some(404), if debug then Some(NotFoundText) else None, map[])
  }

  /** `err.stack`: present for an `Error`, absent for any other thrown value. */
  function StackOf(f: Failure): Option<string> {
    match f
    case NextCalledTwice => Some(NextCalledTwiceStack)
    case Threw(ErrorValue(s)) => Some(s)
    case Threw(Nullish) => None
    case Threw(OtherValue) => None
  }

  /** The `catch` of the later variants: 500, with the stack as body only in
      debug mode and only for an `Error`; otherwise an empty body. */
  function ErrorReply(debug: bool, f: Failure): (reply: Reply)
    ensures reply.Reply? && reply.status == Some(500) && reply.headers == map[]
    ensures !debug ==> reply.body == Some("")
    ensures reply.body.Some?
    ensures debug && StackOf(f).Some? ==> reply.body == StackOf(f)
  {
    var stack := StackOf(f);
    Reply(Some(500), if debug && stack.Some? then stack else Some(""), map[])
  }

  /** The `catch` of the oldest variant: 500, with `err.stack` in debug mode
      (no body at all when the thrown value has no stack). In debug mode,
      reading `stack` of a thrown `null` or `undefined` throws inside the
      `catch`, so `handle` rejects. */
  function ErrorReplyLegacy(debug: bool, f: Failure): (reply: Reply)
    ensures reply.Rejected? <==> debug && f == Threw(Nullish)
    ensures !reply.Rejected? ==> reply.Reply? && reply.status == Some(500) && reply.headers == map[]
    ensures !debug ==> reply.body == Some("")
    ensures debug && f != Threw(Nullish) ==> reply.body == StackOf(f)
  {
    if debug && f == Threw(Nullish) then Rejected
    else Reply(Some(500), if debug then StackOf(f) else Some(""), map[])
  }

  /** The `next()` guard error is an `Error`, so in debug mode its stack is
      shown by every variant. */
  lemma GuardErrorShown()
    ensures ErrorReply(true, NextCalledTwice).body == Some(NextCalledTwiceStack)
    ensures ErrorReplyLegacy(true, NextCalledTwice).body == Some(NextCalledTwiceStack)
  {
  }

  /** A thrown `null` is not an `Error`: the later variants answer 500 with
      an empty body, while the oldest one, in debug mode, rejects. */
  lemma NullishThrow()
    ensures ErrorReply(true, Threw(Nullish)) == Reply(Some(500), Some(""), map[])
    ensures ErrorReplyLegacy(true, Threw(Nullish)) == Rejected
    ensures ErrorReplyLegacy(false, Threw(Nullish)) == Reply(Some(500), Some(""), map[])
  {
  }

  /** The reply once the chain has stopped: 500 if it failed, otherwise the
      finalised response (later variants). */
  function Outcome(m: Machine, debug: bool): (reply: Reply)
    ensures m.failure.Some? ==> reply == ErrorReply(debug, m.failure.value)
    ensures m.failure.None? ==> reply == Finalize(m.res)
  {
    if m.failure.Some? then ErrorReply(debug, m.failure.value) else Finalize(m.res)
  }

  /** The same for the oldest variant. */
  function OutcomeLegacy(m: Machine, debug: bool): (reply: Reply)
    ensures m.failure.Some? ==> reply == ErrorReplyLegacy(debug, m.failure.value)
    ensures m.failure.None? ==> reply == FinalizeLegacy(m.res)
  {
    if m.failure.Some? then ErrorReplyLegacy(debug, m.failure.value) else FinalizeLegacy(m.res)
  }
}
