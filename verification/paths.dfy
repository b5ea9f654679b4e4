/** Path segments and the maps a match produces: `split('/')`, the filter
    that drops empty pieces, `:name` parameters, and the last-wins maps
    built for `params` and `query`. */
module Paths {

  /** `s.split('/')` */
  function Split(s: string): (parts: seq<string>)
    ensures |parts| >= 1
    ensures forall i :: 0 <= i < |parts| ==> '/' !in parts[i]
  {
    if s == [] then [""]
    else
      var rest := Split(s[1..]);
      if s[0] == '/' then [""] + rest
      else [[s[0]] + rest[0]] + rest[1..]
  }

  /** `parts.join('/')` */
  function Join(parts: seq<string>): string
    requires |parts| >= 1
  {
    if |parts| == 1 then parts[0] else parts[0] + "/" + Join(parts[1..])
  }

  /** Joining the pieces back with `/` gives the original string. */
  lemma {:induction false} JoinSplit(s: string)
    ensures Join(Split(s)) == s
  {
    if s != [] {
      JoinSplit(s[1..]);
      var rest := Split(s[1..]);
      if s[0] != '/' {
        if |rest| > 1 {
          assert rest == [rest[0]] + rest[1..];
          assert Join(rest) == rest[0] + "/" + Join(rest[1..]);
        }
        var parts := Split(s);
        assert parts[1..] == rest[1..];
        assert s == [s[0]] + s[1..];
      }
    }
  }

  /** `split('/')` turns a `/` between two strings into a piece boundary. */
  lemma {:induction false} SplitAround(a: string, b: string)
    ensures Split(a + "/" + b) == Split(a) + Split(b)
  {
    if a == [] {
      assert a + "/" + b == "/" + b;
      assert ("/" + b)[1..] == b;
    } else {
      assert (a + "/" + b)[1..] == a[1..] + "/" + b;
      assert (a + "/" + b)[0] == a[0];
      SplitAround(a[1..], b);
    }
  }

  /** A string without `/` is a single piece. */
  lemma {:induction false} SplitNoSlash(s: string)
    requires '/' !in s
    ensures Split(s) == [s]
  {
    if s != [] {
      SplitNoSlash(s[1..]);
      assert s == [s[0]] + s[1..];
    }
  }

  /** `.filter(i => i)`: drops the empty pieces. */
  function NonEmpty(parts: seq<string>): (r: seq<string>)
    ensures forall i :: 0 <= i < |r| ==> r[i] != ""
  {
    if parts == [] then []
    else if parts[0] == "" then NonEmpty(parts[1..])
    else [parts[0]] + NonEmpty(parts[1..])
  }

  lemma {:induction false} NonEmptyAppend(x: seq<string>, y: seq<string>)
    ensures NonEmpty(x + y) == NonEmpty(x) + NonEmpty(y)
  {
    if x == [] {
      assert x + y == y;
    } else {
      assert (x + y)[1..] == x[1..] + y;
      NonEmptyAppend(x[1..], y);
    }
  }

  /** `s.split('/').filter(i => i)`: the non-empty `/`-separated segments. */
  function Segments(s: string): (segs: seq<string>)
    ensures forall i :: 0 <= i < |segs| ==> segs[i] != ""
  {
    NonEmpty(Split(s))
  }

  /** The filter keeps a piece exactly when it is non-empty. */
  lemma {:induction false} NonEmptyKeeps(parts: seq<string>)
    ensures forall p :: p in NonEmpty(parts) <==> p in parts && p != ""
  {
    if parts != [] {
      NonEmptyKeeps(parts[1..]);
      assert parts == [parts[0]] + parts[1..];
    }
  }

  /** No segment contains a `/`, and every non-empty piece of the split is a segment. */
  lemma SegmentsAreSlashFree(s: string)
    ensures forall seg :: seg in Segments(s) ==> '/' !in seg
    ensures forall p :: p in Split(s) && p != "" ==> p in Segments(s)
  {
    NonEmptyKeeps(Split(s));
  }

  /** Segments of `a/b` are those of `a` followed by those of `b`; hence
      leading, trailing and doubled slashes make no difference. */
  lemma SegmentsAround(a: string, b: string)
    ensures Segments(a + "/" + b) == Segments(a) + Segments(b)
  {
    SplitAround(a, b);
    NonEmptyAppend(Split(a), Split(b));
  }

  /** The path `/s0/s1/.../sn` spelled from segments. */
  function PathOf(segs: seq<string>): string {
    if segs == [] then "" else PathOf(segs[..|segs| - 1]) + "/" + segs[|segs| - 1]
  }

  /** Segmenting a path built from non-empty, slash-free segments gives them back. */
  lemma {:induction false} SegmentsOfPath(segs: seq<string>)
    requires forall i :: 0 <= i < |segs| ==> segs[i] != "" && '/' !in segs[i]
    ensures Segments(PathOf(segs)) == segs
  {
    if segs != [] {
      var init, last := segs[..|segs| - 1], segs[|segs| - 1];
      SegmentsOfPath(init);
      SegmentsAround(PathOf(init), last);
      SplitNoSlash(last);
      assert [last][1..] == [];
      assert NonEmpty([last]) == [last] + NonEmpty([]);
      assert segs == init + [last];
    }
  }

  /** A pattern segment `:name` binds a path segment. */
  predicate IsParam(seg: string) {
    |seg| > 0 && seg[0] == ':'
  }

  /** `seg.substring(1)` */
  function ParamName(seg: string): string
    requires IsParam(seg)
  {
    seg[1..]
  }

  /** A pattern segment accepts a path segment it equals literally, and any
      path segment when it is a parameter. */
  predicate SegmentAccepts(patternSeg: string, pathSeg: string) {
    patternSeg == pathSeg || IsParam(patternSeg)
  }

  /** Every pattern segment accepts the path segment at its position. */
  predicate SegmentsAgree(pattern: seq<string>, path: seq<string>) {
    |pattern| == |path| &&
    forall i :: 0 <= i < |pattern| ==> SegmentAccepts(pattern[i], path[i])
  }

  /** Assigning the pairs one after the other into an empty object: the
      value of a key is the one given last. */
  function LastWins(pairs: seq<(string, string)>): map<string, string> {
    if pairs == [] then map[]
    else LastWins(pairs[..|pairs| - 1])[pairs[|pairs| - 1].0 := pairs[|pairs| - 1].1]
  }

  /** The keys are exactly those given. */
  lemma {:induction false} LastWinsKeys(pairs: seq<(string, string)>)
    ensures forall k :: k in LastWins(pairs) <==> exists i :: 0 <= i < |pairs| && pairs[i].0 == k
  {
    if pairs != [] {
      var init := pairs[..|pairs| - 1];
      LastWinsKeys(init);
      assert LastWins(pairs) == LastWins(init)[pairs[|pairs| - 1].0 := pairs[|pairs| - 1].1];
      forall k | k in LastWins(pairs) ensures exists i :: 0 <= i < |pairs| && pairs[i].0 == k {
        if k != pairs[|pairs| - 1].0 {
          var i :| 0 <= i < |init| && init[i].0 == k;
          assert pairs[i].0 == k;
        }
      }
      forall k | exists i :: 0 <= i < |pairs| && pairs[i].0 == k ensures k in LastWins(pairs) {
        var i :| 0 <= i < |pairs| && pairs[i].0 == k;
        if i < |init| { assert init[i].0 == k; }
      }
    }
  }

  /** Each key maps to the value of its last pair. */
  lemma {:induction false} LastWinsValues(pairs: seq<(string, string)>)
    ensures forall i :: 0 <= i < |pairs| && (forall j :: i < j < |pairs| ==> pairs[j].0 != pairs[i].0) ==>
      pairs[i].0 in LastWins(pairs) && LastWins(pairs)[pairs[i].0] == pairs[i].1
  {
    if pairs != [] {
      var n := |pairs| - 1;
      var init := pairs[..n];
      LastWinsValues(init);
      forall i | 0 <= i < |pairs| && (forall j :: i < j < |pairs| ==> pairs[j].0 != pairs[i].0)
        ensures pairs[i].0 in LastWins(pairs) && LastWins(pairs)[pairs[i].0] == pairs[i].1
      {
        if i < n {
          assert init[i] == pairs[i];
          forall j | i < j < |init| ensures init[j].0 != init[i].0 {
            assert init[j] == pairs[j];
          }
        }
      }
    }
  }

  /** The `(name, value)` pairs the parameter loop assigns, in pattern order. */
  function Bindings(pattern: seq<string>, path: seq<string>): (b: seq<(string, string)>)
    requires |pattern| == |path|
  {
    if pattern == [] then []
    else
      var n := |pattern| - 1;
      Bindings(pattern[..n], path[..n]) + (if IsParam(pattern[n]) then [(ParamName(pattern[n]), path[n])] else [])
  }

  /** `params` after the loop over the pattern segments. */
  function ParamsOf(pattern: seq<string>, path: seq<string>): map<string, string>
    requires |pattern| == |path|
  {
    LastWins(Bindings(pattern, path))
  }

  /** One more segment either binds its name (overwriting an earlier binding) or leaves `params` alone. */
  lemma ParamsStep(pattern: seq<string>, path: seq<string>)
    requires |pattern| == |path| && pattern != []
    ensures var n := |pattern| - 1;
      ParamsOf(pattern, path) ==
        if IsParam(pattern[n]) then ParamsOf(pattern[..n], path[..n])[ParamName(pattern[n]) := path[n]]
        else ParamsOf(pattern[..n], path[..n])
  {
    var n := |pattern| - 1;
    var b := Bindings(pattern[..n], path[..n]);
    if IsParam(pattern[n]) {
      var p := b + [(ParamName(pattern[n]), path[n])];
      assert p[..|p| - 1] == b;
    } else {
      assert Bindings(pattern, path) == b;
    }
  }

  /** The loop's step, stated on prefixes of the two segment lists. */
  lemma ParamsExtend(pattern: seq<string>, path: seq<string>, i: nat)
    requires |pattern| == |path| && i < |pattern|
    ensures ParamsOf(pattern[..i + 1], path[..i + 1]) ==
      if IsParam(pattern[i]) then ParamsOf(pattern[..i], path[..i])[ParamName(pattern[i]) := path[i]]
      else ParamsOf(pattern[..i], path[..i])
  {
    ParamsStep(pattern[..i + 1], path[..i + 1]);
    assert pattern[..i + 1][..i] == pattern[..i] && path[..i + 1][..i] == path[..i];
  }

  /** The keys of `params` are exactly the names of the parameter segments. */
  lemma {:induction false} ParamsKeys(pattern: seq<string>, path: seq<string>)
    requires |pattern| == |path|
    ensures forall k :: k in ParamsOf(pattern, path) <==>
      exists i :: 0 <= i < |pattern| && IsParam(pattern[i]) && ParamName(pattern[i]) == k
  {
    if pattern != [] {
      var n := |pattern| - 1;
      var pi, qi := pattern[..n], path[..n];
      ParamsKeys(pi, qi);
      ParamsStep(pattern, path);
      forall k | k in ParamsOf(pattern, path)
        ensures exists i :: 0 <= i < |pattern| && IsParam(pattern[i]) && ParamName(pattern[i]) == k
      {
        if !(IsParam(pattern[n]) && ParamName(pattern[n]) == k) {
          var i :| 0 <= i < |pi| && IsParam(pi[i]) && ParamName(pi[i]) == k;
          assert pattern[i] == pi[i];
        }
      }
      forall k | exists i :: 0 <= i < |pattern| && IsParam(pattern[i]) && ParamName(pattern[i]) == k
        ensures k in ParamsOf(pattern, path)
      {
        var i :| 0 <= i < |pattern| && IsParam(pattern[i]) && ParamName(pattern[i]) == k;
        if i < n { assert pi[i] == pattern[i]; }
      }
    }
  }

  /** A parameter name maps to the path segment at its last occurrence in
      the pattern: a later duplicate overwrites an earlier one. */
  lemma {:induction false} ParamsValues(pattern: seq<string>, path: seq<string>)
    requires |pattern| == |path|
    ensures forall i :: (0 <= i < |pattern| && IsParam(pattern[i]) &&
        (forall j :: i < j < |pattern| && IsParam(pattern[j]) ==> ParamName(pattern[j]) != ParamName(pattern[i]))) ==>
      ParamName(pattern[i]) in ParamsOf(pattern, path) && ParamsOf(pattern, path)[ParamName(pattern[i])] == path[i]
  {
    if pattern != [] {
      var n := |pattern| - 1;
      var pi, qi := pattern[..n], path[..n];
      ParamsValues(pi, qi);
      ParamsStep(pattern, path);
      forall i | 0 <= i < |pattern| && IsParam(pattern[i]) &&
          (forall j :: i < j < |pattern| && IsParam(pattern[j]) ==> ParamName(pattern[j]) != ParamName(pattern[i]))
        ensures ParamName(pattern[i]) in ParamsOf(pattern, path) && ParamsOf(pattern, path)[ParamName(pattern[i])] == path[i]
      {
        if i < n {
          assert pi[i] == pattern[i] && qi[i] == path[i];
          forall j | i < j < |pi| && IsParam(pi[j]) ensures ParamName(pi[j]) != ParamName(pi[i]) {
            assert pi[j] == pattern[j];
          }
        }
      }
    }
  }

  /** A single non-empty, slash-free segment. */
  lemma SegmentsOfWord(w: string)
    requires w != "" && '/' !in w
    ensures Segments(w) == [w]
  {
    SplitNoSlash(w);
    assert [w][1..] == [];
    assert NonEmpty([w]) == [w] + NonEmpty([]);
  }

  /** `/x/y` has the segments `x` and `y`. */
  lemma SegmentsOfTwo(x: string, y: string)
    requires x != "" && '/' !in x && y != "" && '/' !in y
    ensures Segments("/" + x + "/" + y) == [x, y]
  {
    SegmentsAround("", x + "/" + y);
    assert "" + "/" + (x + "/" + y) == "/" + x + "/" + y;
    SegmentsAround(x, y);
    SegmentsOfWord(x);
    SegmentsOfWord(y);
    assert Split("") == [""];
    assert NonEmpty([""]) == NonEmpty([]);
  }

  lemma BindingsOfTwo(x: string, y: string, u: string, v: string)
    requires IsParam(x) && IsParam(y)
    ensures Bindings([x, y], [u, v]) == [(ParamName(x), u), (ParamName(y), v)]
  {
    assert [x, y][..1] == [x] && [u, v][..1] == [u];
    assert Bindings([x], [u]) == [(ParamName(x), u)] by {
      assert [x][..0] == [] && [u][..0] == [];
    }
  }

  lemma SegmentsExample()
    ensures Segments("/:a/:b") == [":a", ":b"] && Segments("/bar/foo") == ["bar", "foo"]
  {
    SegmentsOfTwo(":a", ":b");
    assert "/:a/:b" == "/" + ":a" + "/" + ":b";
    SegmentsOfTwo("bar", "foo");
    assert "/bar/foo" == "/" + "bar" + "/" + "foo";
  }

  lemma BindingsExample()
    ensures ParamsOf([":a", ":b"], ["bar", "foo"]) == map["a" := "bar", "b" := "foo"]
  {
    BindingsOfTwo(":a", ":b", "bar", "foo");
    var b := [("a", "bar"), ("b", "foo")];
    assert b[..1] == [("a", "bar")];
    assert [("a", "bar")][..0] == [];
  }

  /** `/:a/:b` against `/bar/foo` binds `a` to `bar` and `b` to `foo`. */
  lemma ParamsExample()
    ensures ParamsOf(Segments("/:a/:b"), Segments("/bar/foo")) == map["a" := "bar", "b" := "foo"]
  {
    SegmentsExample();
    BindingsExample();
  }

  /** `?foo=bar&bar=foo` gives `{foo: 'bar', bar: 'foo'}`; a repeated key keeps its last value. */
  lemma QueryExample()
    ensures LastWins([("foo", "bar"), ("bar", "foo")]) == map["foo" := "bar", "bar" := "foo"]
    ensures LastWins([("k", "1"), ("k", "2")]) == map["k" := "2"]
  {
    var q := [("foo", "bar"), ("bar", "foo")];
    assert q[..1] == [("foo", "bar")];
    var r := [("k", "1"), ("k", "2")];
    assert r[..1] == [("k", "1")];
  }
}
