/** CORS configuration: the `||` defaults that `cors()` applies and the
    four headers the router writes. */
module Cors {
  import opened Http

  /** The argument of `cors()`: every field may be missing. Calling `cors()`
      without an argument is calling it with `NoOptions`. */
  datatype CorsOptions = CorsOptions(
    allowOrigin: Option<string>,
    allowMethods: Option<string>,
    allowHeaders: Option<string>,
    maxAge: Option<int>,
    optionsSuccessStatus: Option<int>)

  const NoOptions := CorsOptions(None, None, None, None, None)

  /** A configuration with every field present, as `cors()` stores it. */
  datatype CorsSettings = CorsSettings(
    allowOrigin: string,
    allowMethods: string,
    allowHeaders: string,
    maxAge: int,
    optionsSuccessStatus: int)

  const AllowOriginHeader := "Access-Control-Allow-Origin"
  const AllowMethodsHeader := "Access-Control-Allow-Methods"
  const AllowHeadersHeader := "Access-Control-Allow-Headers"
  const MaxAgeHeader := "Access-Control-Max-Age"

  const DefaultMaxAge := 86400
  const DefaultSuccessStatus := 204

  /** `o || d` on an optional string. */
  function TextOr(o: Option<string>, d: string): string {
    if TruthyText(o) then o.value else d
  }

  /** `o || d` on an optional number. */
  function NumberOr(o: Option<int>, d: int): int {
    if TruthyNumber(o) then o.value else d
  }

  /** Every field truthy: all four headers get written. */
  predicate Complete(s: CorsSettings) {
    s.allowOrigin != "" && s.allowMethods != "" && s.allowHeaders != "" &&
    s.maxAge != 0 && s.optionsSuccessStatus != 0
  }

  /** The record `cors(config)` builds: each field from the argument when it
      is truthy, otherwise the default (`allowHeaders` falls back to
      `defaultAllowHeaders`, which differs between variants). */
  function Fill(c: CorsOptions, defaultAllowHeaders: string): (s: CorsSettings)
    ensures s.allowOrigin == (if TruthyText(c.allowOrigin) then c.allowOrigin.value else "*")
    ensures s.allowMethods == (if TruthyText(c.allowMethods) then c.allowMethods.value else "*")
    ensures s.allowHeaders == (if TruthyText(c.allowHeaders) then c.allowHeaders.value else defaultAllowHeaders)
    ensures s.maxAge == (if TruthyNumber(c.maxAge) then c.maxAge.value else DefaultMaxAge)
    ensures s.optionsSuccessStatus ==
      (if TruthyNumber(c.optionsSuccessStatus) then c.optionsSuccessStatus.value else DefaultSuccessStatus)
    ensures defaultAllowHeaders != "" ==> Complete(s)
  {
    CorsSettings(
      TextOr(c.allowOrigin, "*"),
      TextOr(c.allowMethods, "*"),
      TextOr(c.allowHeaders, defaultAllowHeaders),
      NumberOr(c.maxAge, DefaultMaxAge),
      NumberOr(c.optionsSuccessStatus, DefaultSuccessStatus))
  }

  /** The same record seen as an options object with every field present. */
  function AsOptions(s: CorsSettings): CorsOptions {
    CorsOptions(Some(s.allowOrigin), Some(s.allowMethods), Some(s.allowHeaders), Some(s.maxAge), Some(s.optionsSuccessStatus))
  }

  /** A complete configuration passed back to `cors()` is kept as it is;
      in particular calling `cors(c)` twice stores the same thing as once. */
  lemma FillKeepsComplete(s: CorsSettings, defaultAllowHeaders: string)
    requires Complete(s)
    ensures Fill(AsOptions(s), defaultAllowHeaders) == s
  {
  }

  lemma FillIdempotent(c: CorsOptions, defaultAllowHeaders: string)
    requires defaultAllowHeaders != ""
    ensures Fill(AsOptions(Fill(c, defaultAllowHeaders)), defaultAllowHeaders) == Fill(c, defaultAllowHeaders)
  {
    FillKeepsComplete(Fill(c, defaultAllowHeaders), defaultAllowHeaders);
  }

  /** The four headers, written unconditionally (the JavaScript variants). */
  function CorsHeaders(s: CorsSettings): (h: Headers)
    ensures h.Keys == {AllowOriginHeader, AllowMethodsHeader, AllowHeadersHeader, MaxAgeHeader}
    ensures h[AllowOriginHeader] == s.allowOrigin && h[AllowMethodsHeader] == s.allowMethods
    ensures h[AllowHeadersHeader] == s.allowHeaders && h[MaxAgeHeader] == IntToString(s.maxAge)
  {
    map[AllowOriginHeader := s.allowOrigin,
        AllowMethodsHeader := s.allowMethods,
        AllowHeadersHeader := s.allowHeaders,
        MaxAgeHeader := IntToString(s.maxAge)]
  }

  /** All four CORS headers, none of them empty. */
  predicate FullHeaders(h: Headers) {
    h.Keys == {AllowOriginHeader, AllowMethodsHeader, AllowHeadersHeader, MaxAgeHeader} &&
    forall k :: k in h ==> h[k] != ""
  }

  /** A configuration `cors()` built gives four non-empty headers. */
  lemma CorsHeadersFull(s: CorsSettings)
    requires Complete(s)
    ensures FullHeaders(CorsHeaders(s))
  {
    var h := CorsHeaders(s);
    forall k | k in h
      ensures h[k] != ""
    {
      if k == MaxAgeHeader {
        assert |h[k]| >= 1;
      }
    }
  }

  /** The headers written one by one, each only when its field is truthy
      (the TypeScript variant). */
  function OptionalCorsHeaders(c: CorsOptions): (h: Headers)
    ensures AllowOriginHeader in h <==> TruthyText(c.allowOrigin)
    ensures AllowMethodsHeader in h <==> TruthyText(c.allowMethods)
    ensures AllowHeadersHeader in h <==> TruthyText(c.allowHeaders)
    ensures MaxAgeHeader in h <==> TruthyNumber(c.maxAge)
    ensures AllowOriginHeader in h ==> h[AllowOriginHeader] == c.allowOrigin.value
    ensures AllowMethodsHeader in h ==> h[AllowMethodsHeader] == c.allowMethods.value
    ensures AllowHeadersHeader in h ==> h[AllowHeadersHeader] == c.allowHeaders.value
    ensures MaxAgeHeader in h ==> h[MaxAgeHeader] == IntToString(c.maxAge.value)
    ensures |h.Keys| <= 4
  {
    var h0: Headers := map[];
    var h1 := if TruthyText(c.allowOrigin) then h0[AllowOriginHeader := c.allowOrigin.value] else h0;
    var h2 := if TruthyText(c.allowMethods) then h1[AllowMethodsHeader := c.allowMethods.value] else h1;
    var h3 := if TruthyText(c.allowHeaders) then h2[AllowHeadersHeader := c.allowHeaders.value] else h2;
    var h4 := if TruthyNumber(c.maxAge) then h3[MaxAgeHeader := IntToString(c.maxAge.value)] else h3;
    assert h4.Keys <= {AllowOriginHeader, AllowMethodsHeader, AllowHeadersHeader, MaxAgeHeader};
    h4
  }

  /** For a configuration `cors()` built, the conditional writes set all
      four headers, and to the same values the unconditional ones do. */
  lemma OptionalHeadersOfComplete(s: CorsSettings)
    requires Complete(s)
    ensures OptionalCorsHeaders(AsOptions(s)) == CorsHeaders(s)
  {
  }

  lemma MaxAgeDefaultText()
    ensures IntToString(DefaultMaxAge) == "86400"
  {
    assert Digits(8) == "8";
    assert Digits(86) == Digits(8) + "6";
    assert Digits(864) == Digits(86) + "4";
    assert Digits(8640) == Digits(864) + "0";
    assert Digits(86400) == Digits(8640) + "0";
  }

  /** `cors()` without arguments in the TypeScript variant: every header is
      `*`, Max-Age is `86400` and pre-flights answer 204. */
  lemma TsDefaults()
    ensures var s := Fill(NoOptions, "*");
      CorsHeaders(s) == map[AllowOriginHeader := "*", AllowMethodsHeader := "*",
                            AllowHeadersHeader := "*", MaxAgeHeader := "86400"] &&
      s.optionsSuccessStatus == 204
  {
    MaxAgeDefaultText();
  }

  /** `cors()` without arguments in the JavaScript variants: the same, except
      that Allow-Headers is `*, Authorization`. */
  lemma JsDefaults()
    ensures var s := Fill(NoOptions, "*, Authorization");
      CorsHeaders(s) == map[AllowOriginHeader := "*", AllowMethodsHeader := "*",
                            AllowHeadersHeader := "*, Authorization", MaxAgeHeader := "86400"] &&
      s.optionsSuccessStatus == 204
  {
    MaxAgeDefaultText();
  }
}
