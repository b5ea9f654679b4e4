/** Values shared by the three router variants: requests as the router sees
    them, the response being built by handlers, the reply handed back to the
    host, and handlers reduced to lists of actions. */
module Http {

  datatype Option<+T> = None | Some(value: T)

  type Headers = map<string, string>

  /** A request or response body: `undefined`, a string, or an object
      (carried with the JSON text it serialises to; `null` is `Object("null")`). */
  datatype Body = Unset | Text(text: string) | Object(json: string)

  /** What a handler may throw: an `Error` (with its stack text), `null` or
      `undefined`, or any other value (which has no `stack`). */
  datatype Thrown = ErrorValue(stack: string) | Nullish | OtherValue

  /** Why the handler chain stopped abnormally. */
  datatype Failure = NextCalledTwice | Threw(thrown: Thrown)

  /** Where an `Echo` action copies the response body from. */
  datatype Field = ParamField(name: string) | QueryField(name: string) | RequestBody

  /** One step a handler performs on the shared context. */
  datatype Action =
    | SetStatus(code: int)
    | SetBody(body: Body)
    | SetHeader(name: string, value: string)
    | SetRaw(response: nat)
    | Echo(field: Field)
    | Next
    | Throw(thrown: Thrown)

  /** An entry of a handler list: a function (its actions), or any value that
      is not a function (which the runner skips). */
  datatype Slot = Callable(actions: seq<Action>) | NotCallable

  datatype Route = Route(httpMethod: string, url: string, handlers: seq<Slot>)

  /** The host request, reduced to plain inputs: the method, the URL's
      pathname, its search pairs in order, the Content-Type header, and what
      reading the body as JSON and as text would give (None: the read threw). */
  datatype Request = Request(
    httpMethod: string,
    path: string,
    search: seq<(string, string)>,
    contentType: Option<string>,
    jsonRead: Option<Body>,
    textRead: Option<string>)

  /** The request facts handlers see. */
  datatype ParsedRequest = ParsedRequest(
    httpMethod: string,
    params: map<string, string>,
    query: map<string, string>,
    body: Body)

  /** The mutable `res` object handlers write to. */
  datatype ResState = ResState(headers: Headers, status: Option<int>, body: Body, raw: Option<nat>)

  /** What `handle` resolves to: a response it builds, or the `raw` response
      a handler supplied; `Rejected` when its `catch` itself throws, so the
      returned promise rejects. */
  datatype Reply = Reply(status: Option<int>, body: Option<string>, headers: Headers) | Passthrough(response: nat) | Rejected

  /** The route builders: one per HTTP method name, and `any`. */
  datatype Verb = Connect | Delete | Get | Head | Options | Patch | Post | Put | Trace | AnyMethod

  function MethodName(v: Verb): (m: string)
    ensures m == "*" <==> v == AnyMethod
    ensures |m| >= 1
  {
    match v
    case Connect => "CONNECT"
    case Delete => "DELETE"
    case Get => "GET"
    case Head => "HEAD"
    case Options => "OPTIONS"
    case Patch => "PATCH"
    case Post => "POST"
    case Put => "PUT"
    case Trace => "TRACE"
    case AnyMethod => "*"
  }

  /** Distinct builders register under distinct method names. */
  lemma MethodNameInjective(v: Verb, w: Verb)
    ensures MethodName(v) == MethodName(w) ==> v == w
  {
  }

  /** JavaScript truthiness of an optional string (`undefined` and `''` are falsy). */
  predicate TruthyText(o: Option<string>) {
    o.Some? && o.value != ""
  }

  /** JavaScript truthiness of an optional number (`undefined` and `0` are falsy). */
  predicate TruthyNumber(o: Option<int>) {
    o.Some? && o.value != 0
  }

  /** JavaScript truthiness of a body (an object is truthy). */
  predicate TruthyBody(b: Body) {
    b.Object? || (b.Text? && b.text != "")
  }

  /** `s.includes(sub)`: `sub` is a prefix of `s` or of one of its suffixes. */
  predicate Contains(s: string, sub: string) {
    sub <= s || (s != [] && Contains(s[1..], sub))
  }

  /** `sub` occurs in `s` starting at position `i`. */
  predicate OccursAt(s: string, sub: string, i: nat) {
    i + |sub| <= |s| && s[i..i + |sub|] == sub
  }

  /** Whatever `Contains` finds occurs at some position. */
  lemma {:induction false} ContainsSound(s: string, sub: string)
    requires Contains(s, sub)
    ensures exists i: nat :: OccursAt(s, sub, i)
  {
    if sub <= s {
      assert OccursAt(s, sub, 0);
    } else {
      ContainsSound(s[1..], sub);
      var i: nat :| OccursAt(s[1..], sub, i);
      assert s[i + 1..i + 1 + |sub|] == s[1..][i..i + |sub|];
      assert OccursAt(s, sub, i + 1);
    }
  }

  /** An occurrence anywhere is found by `Contains`. */
  lemma {:induction false} ContainsComplete(s: string, sub: string, i: nat)
    requires OccursAt(s, sub, i)
    ensures Contains(s, sub)
    decreases i
  {
    if i == 0 {
      assert s[..|sub|] == sub;
    } else {
      assert s[1..][i - 1..i - 1 + |sub|] == s[i..i + |sub|];
      ContainsComplete(s[1..], sub, i - 1);
    }
  }

  /** `Contains` finds `sub` exactly when it occurs at some position. */
  lemma ContainsSpec(s: string, sub: string)
    ensures Contains(s, sub) <==> exists i: nat :: OccursAt(s, sub, i)
  {
    if Contains(s, sub) {
      ContainsSound(s, sub);
    }
    forall i: nat | OccursAt(s, sub, i)
      ensures Contains(s, sub)
    {
      ContainsComplete(s, sub, i);
    }
  }

  // Decimal rendering of integers, as `Number.prototype.toString()` gives it
  // for integers a double holds exactly and that are below 10^21 in size.

  function DigitChar(d: nat): (c: char)
    requires d < 10
    ensures '0' <= c <= '9'
  {
    ('0' as int + d) as char
  }

  function DigitValue(c: char): nat
    requires '0' <= c <= '9'
  {
    (c as int - '0' as int) as nat
  }

  function Digits(n: nat): (s: string)
    ensures |s| >= 1
    ensures forall i :: 0 <= i < |s| ==> '0' <= s[i] <= '9'
    decreases n
  {
    if n < 10 then [DigitChar(n)] else Digits(n / 10) + [DigitChar(n % 10)]
  }

  function ParseDigits(s: string): nat
    requires AllDigits(s)
  {
    if s == [] then 0 else ParseDigits(s[..|s| - 1]) * 10 + DigitValue(s[|s| - 1])
  }

  function IntToString(i: int): (s: string)
    ensures |s| >= 1 && IsIntText(s)
    ensures s[0] == '-' <==> i < 0
  {
    if i < 0 then "-" + Digits(-i) else Digits(i)
  }

  /** Reading back the digits gives the number: the rendering loses nothing. */
  lemma {:induction false} DigitsRoundTrip(n: nat)
    ensures ParseDigits(Digits(n)) == n
    decreases n
  {
    if n >= 10 {
      var s := Digits(n);
      assert s[..|s| - 1] == Digits(n / 10);
      assert DigitValue(s[|s| - 1]) == n % 10;
      DigitsRoundTrip(n / 10);
    }
  }

  predicate AllDigits(s: string) {
    forall i :: 0 <= i < |s| ==> '0' <= s[i] <= '9'
  }

  /** Text of the form `-ddd` or `ddd`. */
  predicate IsIntText(s: string) {
    AllDigits(s) || (s != [] && s[0] == '-' && AllDigits(s[1..]))
  }

  /** Reads a rendered integer back. */
  function ParseInt(s: string): int
    requires IsIntText(s)
  {
    if s != [] && s[0] == '-' then 0 - (ParseDigits(s[1..]) as int) else ParseDigits(s)
  }

  /** The rendering of an integer reads back as that integer, so different
      maxAge values never give the same header text. */
  lemma IntToStringRoundTrip(i: int)
    ensures IsIntText(IntToString(i)) && ParseInt(IntToString(i)) == i
  {
    if i < 0 {
      NegativeRoundTrip(-i);
    } else {
      var s := Digits(i);
      assert AllDigits(s);
      assert s[0] != '-';
      DigitsRoundTrip(i);
    }
  }

  /** A negative number: the minus sign, then the digits of its magnitude. */
  lemma NegativeRoundTrip(n: nat)
    requires n > 0
    ensures IsIntText(IntToString(-(n as int))) && ParseInt(IntToString(-(n as int))) == -(n as int)
  {
    var d := Digits(n);
    var s := "-" + d;
    assert IntToString(-(n as int)) == s;
    assert s[1..] == d && s[0] == '-';
    assert AllDigits(d);
    DigitsRoundTrip(n);
  }
}
