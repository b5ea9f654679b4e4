/** The handler chain: `runner(index)` with its `prevIndex` guard, and each
    handler's actions on the shared `res` object. */
module Dispatch {
  import opened Http

  /** Everything the chain changes: the response being built, the runner's
      `prevIndex`, why it stopped (if it did), and the positions whose
      handler was invoked, in invocation order. */
  datatype Machine = Machine(res: ResState, prevIndex: int, failure: Option<Failure>, started: seq<nat>)

  /** Before `runner(0)`: the given headers, nothing else set, `prevIndex = -1`. */
  function Initial(headers: Headers): (m: Machine)
    ensures m.res.headers == headers && m.res.status.None? && m.res.body.Unset? && m.res.raw.None?
    ensures m.failure.None? && m.started == [] && m.prevIndex == -1
  {
    Machine(ResState(headers, None, Unset, None), -1, None, [])
  }

  /** The effect of one action other than `Next` and `Throw` on `res`:
      each action changes only its own part of the response. */
  function Effect(a: Action, rq: ParsedRequest, res: ResState): (r: ResState)
    requires !a.Next? && !a.Throw?
    ensures !a.SetStatus? ==> r.status == res.status
    ensures !a.SetBody? && !a.Echo? ==> r.body == res.body
    ensures !a.SetRaw? ==> r.raw == res.raw
    ensures !a.SetHeader? ==> r.headers == res.headers
    ensures a.SetHeader? ==> r.headers.Keys == res.headers.Keys + {a.name} && r.headers[a.name] == a.value
    ensures a.SetHeader? ==> forall k :: k in res.headers && k != a.name ==> r.headers[k] == res.headers[k]
  {
    match a
    case SetStatus(code) => res.(status := Some(code))
    case SetBody(b) => res.(body := b)
    case SetHeader(name, value) => res.(headers := res.headers[name := value])
    case SetRaw(r) => res.(raw := Some(r))
    case Echo(field) =>
      var b := match field
        case ParamField(n) => if n in rq.params then Text(rq.params[n]) else Unset
        case QueryField(n) => if n in rq.query then Text(rq.query[n]) else Unset
        case RequestBody => rq.body;
      res.(body := b)
  }

  /** `runner(index)`: the same index as the last call throws
      `next() called multiple times`; otherwise `prevIndex` moves to `index`
      and the handler there, when it is a function, runs. */
  function RunAt(chain: seq<Slot>, rq: ParsedRequest, index: nat, m: Machine): (r: Machine)
    requires index <= |chain|
    ensures m.failure.Some? ==> r.failure.Some?
    decreases |chain| - index, 1, 0
  {
    if index == m.prevIndex then m.(failure := Some(NextCalledTwice))
    else
      var m1 := m.(prevIndex := index);
      if index < |chain| && chain[index].Callable? then
        Exec(chain, rq, index, chain[index].actions, m1.(started := m1.started + [index]))
      else m1
  }

  /** The rest `acts` of the handler at `index`: `Next` awaits
      `runner(index + 1)`, `Throw` stops everything, and once the chain has
      failed nothing further happens. */
  function Exec(chain: seq<Slot>, rq: ParsedRequest, index: nat, acts: seq<Action>, m: Machine): (r: Machine)
    requires index < |chain|
    ensures m.failure.Some? ==> r.failure == m.failure
    decreases |chain| - index, 0, |acts|
  {
    if m.failure.Some? || acts == [] then m
    else match acts[0]
      case Next => Exec(chain, rq, index, acts[1..], RunAt(chain, rq, index + 1, m))
      case Throw(t) => m.(failure := Some(Threw(t)))
      case _ => Exec(chain, rq, index, acts[1..], m.(res := Effect(acts[0], rq, m.res)))
  }

  /** `await runner(0)` on a fresh response. */
  function RunChain(chain: seq<Slot>, rq: ParsedRequest, headers: Headers): Machine {
    RunAt(chain, rq, 0, Initial(headers))
  }

  /** The closure state of one `handle` call: the handler list, the request
      the handlers see, and the variables `runner` updates. */
  class Dispatcher {
    const chain: seq<Slot>
    const request: ParsedRequest
    var res: ResState
    var prevIndex: int
    var failure: Option<Failure>
    ghost var started: seq<nat>

    ghost function State(): Machine
      reads this
    {
      Machine(res, prevIndex, failure, started)
    }

    constructor (chain: seq<Slot>, request: ParsedRequest, headers: Headers)
      ensures this.chain == chain && this.request == request
      ensures State() == Initial(headers)
    {
      this.chain := chain;
      this.request := request;
      res := ResState(headers, None, Unset, None);
      prevIndex := -1;
      failure := None;
      started := [];
    }

    /** `runner(index)`. */
    method Runner(index: nat)
      requires index <= |chain|
      modifies this
      ensures State() == RunAt(chain, request, index, old(State()))
      decreases |chain| - index, 1, 0
    {
      if index == prevIndex {
        failure := Some(NextCalledTwice);
        return;
      }
      prevIndex := index;
      if index < |chain| && chain[index].Callable? {
        started := started + [index];
        Invoke(index, chain[index].actions);
      }
    }

    /** Runs the handler at `index`, whose remaining actions are `acts`. */
    method Invoke(index: nat, acts: seq<Action>)
      requires index < |chain|
      modifies this
      ensures State() == Exec(chain, request, index, acts, old(State()))
      decreases |chain| - index, 0, |acts|
    {
      var k := 0;
      while k < |acts| && failure.None?
        invariant 0 <= k <= |acts|
        invariant Exec(chain, request, index, acts, old(State())) == Exec(chain, request, index, acts[k..], State())
      {
        assert acts[k..][1..] == acts[k + 1..];
        match acts[k] {
          case Next =>
            Runner(index + 1);
          case Throw(t) =>
            failure := Some(Threw(t));
          case _ =>
            res := Effect(acts[k], request, res);
        }
        k := k + 1;
      }
    }
  }

  // ----- properties of the chain -----

  function Range(lo: nat, hi: nat): (r: seq<nat>)
    ensures |r| == if lo <= hi then hi - lo else 0
    ensures forall j :: 0 <= j < |r| ==> r[j] == lo + j
    decreases hi - lo
  {
    if lo >= hi then [] else [lo] + Range(lo + 1, hi)
  }

  function NextCount(acts: seq<Action>): nat {
    if acts == [] then 0 else (if acts[0].Next? then 1 else 0) + NextCount(acts[1..])
  }

  predicate NoThrow(acts: seq<Action>) {
    forall j :: 0 <= j < |acts| ==> !acts[j].Throw?
  }

  /** A function that calls `next()` exactly once and throws nothing. */
  predicate PassesOn(s: Slot) {
    s.Callable? && NextCount(s.actions) == 1 && NoThrow(s.actions)
  }

  /** An entry the chain ends at: not a function, or a function that
      neither calls `next()` nor throws. */
  predicate EndsChain(s: Slot) {
    s.NotCallable? || (NextCount(s.actions) == 0 && NoThrow(s.actions))
  }

  /** Every entry before `k` passes on, and the chain ends at `k` (or `k`
      is past the last entry). */
  predicate StopsAt(chain: seq<Slot>, k: nat) {
    k <= |chain| &&
    (forall i :: 0 <= i < k ==> PassesOn(chain[i])) &&
    (k < |chain| ==> EndsChain(chain[k]))
  }

  /** The usual middleware chain: every entry passes on. */
  predicate WellBehaved(chain: seq<Slot>) {
    forall i :: 0 <= i < |chain| ==> PassesOn(chain[i])
  }

  /** The positions invoked, in order, when the chain entered at `lo` stops at `k`. */
  function Invoked(chain: seq<Slot>, lo: nat, k: nat): seq<nat> {
    Range(lo, k) + (if k < |chain| && chain[k].Callable? then [k] else [])
  }

  /** `runner(index)` only ever invokes handlers of the chain at or after
      `index`. */
  lemma {:induction false} RunAtWithin(chain: seq<Slot>, rq: ParsedRequest, index: nat, m: Machine)
    requires index <= |chain|
    ensures var r := RunAt(chain, rq, index, m);
      m.started <= r.started &&
      forall j :: |m.started| <= j < |r.started| ==> index <= r.started[j] < |chain|
    decreases |chain| - index, 1, 0
  {
    if index != m.prevIndex && index < |chain| && chain[index].Callable? {
      var m1 := m.(prevIndex := index, started := m.started + [index]);
      ExecWithin(chain, rq, index, chain[index].actions, m1);
      var r := RunAt(chain, rq, index, m);
      assert r == Exec(chain, rq, index, chain[index].actions, m1);
      forall j | |m.started| <= j < |r.started|
        ensures index <= r.started[j] < |chain|
      {
        if j == |m.started| {
          assert r.started[j] == m1.started[j];
        }
      }
    }
  }

  /** The rest of the handler at `index` only invokes handlers after it. */
  lemma {:induction false} ExecWithin(chain: seq<Slot>, rq: ParsedRequest, index: nat, acts: seq<Action>, m: Machine)
    requires index < |chain|
    ensures var r := Exec(chain, rq, index, acts, m);
      m.started <= r.started &&
      forall j :: |m.started| <= j < |r.started| ==> index < r.started[j] < |chain|
    decreases |chain| - index, 0, |acts|
  {
    if m.failure.None? && acts != [] {
      if acts[0].Next? {
        var m1 := RunAt(chain, rq, index + 1, m);
        RunAtWithin(chain, rq, index + 1, m);
        ExecWithin(chain, rq, index, acts[1..], m1);
        var r := Exec(chain, rq, index, acts, m);
        assert r == Exec(chain, rq, index, acts[1..], m1);
        forall j | |m.started| <= j < |r.started|
          ensures index < r.started[j] < |chain|
        {
          if j < |m1.started| {
            assert r.started[j] == m1.started[j];
          }
        }
      } else if !acts[0].Throw? {
        var m1 := m.(res := Effect(acts[0], rq, m.res));
        ExecWithin(chain, rq, index, acts[1..], m1);
        assert Exec(chain, rq, index, acts, m) == Exec(chain, rq, index, acts[1..], m1);
      }
    }
  }

  /** Actions without `Next` and `Throw` touch only `res`. */
  lemma {:induction false} ExecWithoutNext(chain: seq<Slot>, rq: ParsedRequest, index: nat, acts: seq<Action>, m: Machine)
    requires index < |chain|
    requires NextCount(acts) == 0 && NoThrow(acts)
    ensures var r := Exec(chain, rq, index, acts, m);
      r.prevIndex == m.prevIndex && r.started == m.started && r.failure == m.failure
    decreases |acts|
  {
    if m.failure.None? && acts != [] {
      ExecWithoutNext(chain, rq, index, acts[1..], m.(res := Effect(acts[0], rq, m.res)));
    }
  }

  /** A chain that stops at `k`, entered at `index <= k`, invokes the
      handlers from `index` up to `k`, once each and in order, and ends
      without error with `prevIndex` at `k`. */
  lemma {:induction false} StopsAtRunAt(chain: seq<Slot>, rq: ParsedRequest, index: nat, k: nat, m: Machine)
    requires StopsAt(chain, k) && index <= k
    requires m.failure.None? && m.prevIndex < index
    ensures var r := RunAt(chain, rq, index, m);
      r.failure.None? && r.prevIndex == k && r.started == m.started + Invoked(chain, index, k)
    decreases |chain| - index, 1, 0
  {
    var m1 := m.(prevIndex := index, started := m.started + [index]);
    if index == k {
      if k < |chain| && chain[k].Callable? {
        ExecWithoutNext(chain, rq, index, chain[index].actions, m1);
      }
    } else {
      StopsAtExec(chain, rq, index, k, chain[index].actions, m1);
      assert Range(index, k) == [index] + Range(index + 1, k);
    }
  }

  lemma {:induction false} StopsAtExec(chain: seq<Slot>, rq: ParsedRequest, index: nat, k: nat, acts: seq<Action>, m: Machine)
    requires StopsAt(chain, k) && index < k
    requires NextCount(acts) <= 1 && NoThrow(acts)
    requires m.failure.None?
    requires NextCount(acts) == 1 ==> m.prevIndex <= index
    ensures var r := Exec(chain, rq, index, acts, m);
      r.failure.None? &&
      (NextCount(acts) == 1 ==> r.prevIndex == k && r.started == m.started + Invoked(chain, index + 1, k)) &&
      (NextCount(acts) == 0 ==> r.prevIndex == m.prevIndex && r.started == m.started)
    decreases |chain| - index, 0, |acts|
  {
    if acts != [] {
      if acts[0].Next? {
        StopsAtRunAt(chain, rq, index + 1, k, m);
        var m1 := RunAt(chain, rq, index + 1, m);
        ExecWithoutNext(chain, rq, index, acts[1..], m1);
      } else {
        StopsAtExec(chain, rq, index, k, acts[1..], m.(res := Effect(acts[0], rq, m.res)));
      }
    }
  }

  /** A chain that stops at `k` invokes exactly the handlers at positions
      `0 .. k` and nothing after them, and ends normally. */
  lemma StopsAtRunsPrefix(chain: seq<Slot>, rq: ParsedRequest, headers: Headers, k: nat)
    requires StopsAt(chain, k)
    ensures RunChain(chain, rq, headers).failure.None?
    ensures RunChain(chain, rq, headers).started == Invoked(chain, 0, k)
    ensures forall j :: 0 <= j < |RunChain(chain, rq, headers).started| ==> RunChain(chain, rq, headers).started[j] <= k
  {
    StopsAtRunAt(chain, rq, 0, k, Initial(headers));
  }

  /** Whatever the handlers before it do (calling `next()` several times,
      throwing), nothing after a handler at `k` that does not call `next()`
      is ever invoked once `runner(index)` starts at or before `k`. */
  lemma {:induction false} NothingAfterRunAt(chain: seq<Slot>, rq: ParsedRequest, index: nat, k: nat, m: Machine)
    requires index <= k < |chain|
    requires chain[k].Callable? ==> NextCount(chain[k].actions) == 0
    ensures var r := RunAt(chain, rq, index, m);
      m.started <= r.started && forall j :: |m.started| <= j < |r.started| ==> r.started[j] <= k
    decreases |chain| - index, 1, 0
  {
    if index != m.prevIndex && chain[index].Callable? {
      var m1 := m.(prevIndex := index, started := m.started + [index]);
      NothingAfterExec(chain, rq, index, k, chain[index].actions, m1);
      var r := RunAt(chain, rq, index, m);
      assert r == Exec(chain, rq, index, chain[index].actions, m1);
      forall j | |m.started| <= j < |r.started|
        ensures r.started[j] <= k
      {
        if j == |m.started| {
          assert r.started[j] == m1.started[j];
        }
      }
    }
  }

  lemma {:induction false} NothingAfterExec(chain: seq<Slot>, rq: ParsedRequest, index: nat, k: nat, acts: seq<Action>, m: Machine)
    requires index <= k < |chain|
    requires chain[k].Callable? ==> NextCount(chain[k].actions) == 0
    requires index == k ==> NextCount(acts) == 0
    ensures var r := Exec(chain, rq, index, acts, m);
      m.started <= r.started && forall j :: |m.started| <= j < |r.started| ==> r.started[j] <= k
    decreases |chain| - index, 0, |acts|
  {
    if m.failure.None? && acts != [] {
      if acts[0].Next? {
        var m1 := RunAt(chain, rq, index + 1, m);
        NothingAfterRunAt(chain, rq, index + 1, k, m);
        NothingAfterExec(chain, rq, index, k, acts[1..], m1);
        var r := Exec(chain, rq, index, acts, m);
        assert r == Exec(chain, rq, index, acts[1..], m1);
        forall j | |m.started| <= j < |r.started|
          ensures r.started[j] <= k
        {
          if j < |m1.started| {
            assert r.started[j] == m1.started[j];
          }
        }
      } else if !acts[0].Throw? {
        var m1 := m.(res := Effect(acts[0], rq, m.res));
        NothingAfterExec(chain, rq, index, k, acts[1..], m1);
        assert Exec(chain, rq, index, acts, m) == Exec(chain, rq, index, acts[1..], m1);
      }
    }
  }

  /** A handler that does not call `next()` ends the chain, in every chain:
      no handler after it ever runs. */
  lemma EndingHandlerStopsChain(chain: seq<Slot>, rq: ParsedRequest, headers: Headers, k: nat)
    requires k < |chain| && (chain[k].Callable? ==> NextCount(chain[k].actions) == 0)
    ensures forall j :: 0 <= j < |RunChain(chain, rq, headers).started| ==> RunChain(chain, rq, headers).started[j] <= k
  {
    NothingAfterRunAt(chain, rq, 0, k, Initial(headers));
  }

  /** Handlers that each call `next()` once run in order, each exactly once,
      and the chain ends normally. */
  lemma WellBehavedChainRunsAll(chain: seq<Slot>, rq: ParsedRequest, headers: Headers)
    requires WellBehaved(chain)
    ensures RunChain(chain, rq, headers).failure.None?
    ensures RunChain(chain, rq, headers).started == Range(0, |chain|)
  {
    StopsAtRunsPrefix(chain, rq, headers, |chain|);
  }

  /** A handler that does not call `next()` ends the chain: nothing after
      it runs. */
  lemma StopWithoutNext(chain: seq<Slot>, rq: ParsedRequest, index: nat, m: Machine)
    requires index < |chain| && chain[index].Callable?
    requires NextCount(chain[index].actions) == 0 && NoThrow(chain[index].actions)
    requires m.failure.None? && m.prevIndex != index
    ensures var r := RunAt(chain, rq, index, m);
      r.started == m.started + [index] && r.prevIndex == index && r.failure.None?
  {
    var m1 := m.(prevIndex := index, started := m.started + [index]);
    ExecWithoutNext(chain, rq, index, chain[index].actions, m1);
  }

  /** A handler that calls `next()` twice, when the next handler does not
      call `next()` itself (or there is none), gets the
      `next() called multiple times` error. */
  lemma SecondNextThrows(chain: seq<Slot>, rq: ParsedRequest, index: nat, m: Machine)
    requires index < |chain|
    requires index + 1 < |chain| ==>
      chain[index + 1].Callable? && NextCount(chain[index + 1].actions) == 0 && NoThrow(chain[index + 1].actions)
    requires m.failure.None? && m.prevIndex == index
    ensures Exec(chain, rq, index, [Next, Next], m).failure == Some(NextCalledTwice)
  {
    var m1 := RunAt(chain, rq, index + 1, m);
    if index + 1 < |chain| {
      StopWithoutNext(chain, rq, index + 1, m);
    }
    assert m1.prevIndex == index + 1 && m1.failure.None?;
    assert [Next, Next][1..] == [Next];
    assert Exec(chain, rq, index, [Next, Next], m) == Exec(chain, rq, index, [Next], m1);
    assert [Next][1..] == [];
    assert Exec(chain, rq, index, [Next], m1) == Exec(chain, rq, index, [], RunAt(chain, rq, index + 1, m1));
    assert RunAt(chain, rq, index + 1, m1).failure == Some(NextCalledTwice);
  }

  /** The guard compares with the last index only: when the next handler
      called `next()` in turn, a second `next()` is not rejected and runs
      the downstream handlers again. */
  lemma SecondNextRerunsDownstream(rq: ParsedRequest, headers: Headers)
    ensures var chain := [Callable([Next, Next]), Callable([Next]), Callable([])];
      var r := RunChain(chain, rq, headers);
      r.failure.None? && r.started == [0, 1, 2, 1, 2]
  {
    var chain := [Callable([Next, Next]), Callable([Next]), Callable([])];
    var m0 := Initial(headers);
    // handler 0 starts
    var m1 := m0.(prevIndex := 0, started := [0]);
    assert RunAt(chain, rq, 0, m0) == Exec(chain, rq, 0, [Next, Next], m1);
    // its first next(): handlers 1 and 2 run
    var m2 := RunAt(chain, rq, 1, m1);
    assert m2 == m1.(prevIndex := 2, started := [0, 1, 2]) by {
      var a := m1.(prevIndex := 1, started := [0, 1]);
      assert m2 == Exec(chain, rq, 1, [Next], a);
      assert [Next][1..] == [];
      assert RunAt(chain, rq, 2, a) == a.(prevIndex := 2, started := [0, 1, 2]);
    }
    // its second next(): 1 differs from prevIndex 2, so 1 and 2 run again
    var m3 := RunAt(chain, rq, 1, m2);
    assert m3 == m1.(prevIndex := 2, started := [0, 1, 2, 1, 2]) by {
      var a := m2.(prevIndex := 1, started := [0, 1, 2, 1]);
      assert m3 == Exec(chain, rq, 1, [Next], a);
      assert [Next][1..] == [];
      assert RunAt(chain, rq, 2, a) == a.(prevIndex := 2, started := [0, 1, 2, 1, 2]);
    }
    assert [Next, Next][1..] == [Next];
    assert [Next][1..] == [];
    assert Exec(chain, rq, 0, [Next, Next], m1) == Exec(chain, rq, 0, [Next], m2);
    assert Exec(chain, rq, 0, [Next], m2) == Exec(chain, rq, 0, [], m3);
  }

  // ----- headers -----

  predicate SetsHeader(a: Action, name: string) {
    a.SetHeader? && a.name == name
  }

  predicate NoneSets(acts: seq<Action>, name: string) {
    forall j :: 0 <= j < |acts| ==> !SetsHeader(acts[j], name)
  }

  /** No handler at position `from` or later writes header `name`. */
  predicate NeverSetsFrom(chain: seq<Slot>, from: nat, name: string) {
    forall i :: from <= i < |chain| && chain[i].Callable? ==> NoneSets(chain[i].actions, name)
  }

  predicate ChainNeverSets(chain: seq<Slot>, name: string) {
    NeverSetsFrom(chain, 0, name)
  }

  /** A header no handler from `index` on writes keeps the value it had
      before `runner(index)` (in particular the CORS headers written before
      `runner(0)`). */
  lemma {:induction false} RunAtKeepsHeader(chain: seq<Slot>, rq: ParsedRequest, index: nat, m: Machine, name: string)
    requires index <= |chain| && NeverSetsFrom(chain, index, name)
    ensures var h := RunAt(chain, rq, index, m).res.headers;
      (name in h <==> name in m.res.headers) && (name in h ==> h[name] == m.res.headers[name])
    decreases |chain| - index, 1, 0
  {
    if index != m.prevIndex && index < |chain| && chain[index].Callable? {
      ExecKeepsHeader(chain, rq, index, chain[index].actions, m.(prevIndex := index, started := m.started + [index]), name);
    }
  }

  lemma {:induction false} ExecKeepsHeader(chain: seq<Slot>, rq: ParsedRequest, index: nat, acts: seq<Action>, m: Machine, name: string)
    requires index < |chain| && NeverSetsFrom(chain, index + 1, name) && NoneSets(acts, name)
    ensures var h := Exec(chain, rq, index, acts, m).res.headers;
      (name in h <==> name in m.res.headers) && (name in h ==> h[name] == m.res.headers[name])
    decreases |chain| - index, 0, |acts|
  {
    if m.failure.None? && acts != [] {
      if acts[0].Next? {
        RunAtKeepsHeader(chain, rq, index + 1, m, name);
        ExecKeepsHeader(chain, rq, index, acts[1..], RunAt(chain, rq, index + 1, m), name);
      } else if !acts[0].Throw? {
        assert !SetsHeader(acts[0], name);
        ExecKeepsHeader(chain, rq, index, acts[1..], m.(res := Effect(acts[0], rq, m.res)), name);
      }
    }
  }

  /** Headers written before the chain are only a starting point: a
      handler anywhere in the chain that sets a header decides its final
      value, whatever it was before, when neither the rest of that handler
      nor any handler after it writes the header again. */
  lemma HandlerOverridesHeader(chain: seq<Slot>, rq: ParsedRequest, index: nat, rest: seq<Action>,
                               m: Machine, name: string, value: string)
    requires index < |chain| && m.failure.None?
    requires NoneSets(rest, name) && NeverSetsFrom(chain, index + 1, name)
    ensures var h := Exec(chain, rq, index, [SetHeader(name, value)] + rest, m).res.headers;
      name in h && h[name] == value
  {
    var acts := [SetHeader(name, value)] + rest;
    assert acts[1..] == rest;
    var m1 := m.(res := Effect(acts[0], rq, m.res));
    assert Exec(chain, rq, index, acts, m) == Exec(chain, rq, index, rest, m1);
    ExecKeepsHeader(chain, rq, index, rest, m1, name);
  }

  /** Every write of header `name` in `acts` writes `value`. */
  predicate WritesOnly(acts: seq<Action>, name: string, value: string) {
    forall j :: 0 <= j < |acts| && SetsHeader(acts[j], name) ==> acts[j].value == value
  }

  predicate ChainWritesOnly(chain: seq<Slot>, name: string, value: string) {
    forall i :: 0 <= i < |chain| && chain[i].Callable? ==> WritesOnly(chain[i].actions, name, value)
  }

  predicate HasHeader(m: Machine, name: string, value: string) {
    name in m.res.headers && m.res.headers[name] == value
  }

  /** The handler at `t` starts by setting header `name` to `value`. */
  predicate StartsBySetting(chain: seq<Slot>, t: nat, name: string, value: string) {
    t < |chain| && chain[t].Callable? && |chain[t].actions| > 0 && chain[t].actions[0] == SetHeader(name, value)
  }

  /** When every write of a header writes `value`, `runner(index)` keeps the
      header at `value` once it is there, and puts it there when it invokes
      the handler at `t` that starts by setting it. */
  lemma {:induction false} RunAtSetterDecides(chain: seq<Slot>, rq: ParsedRequest, index: nat, t: nat, m: Machine, name: string, value: string)
    requires index <= |chain| && ChainWritesOnly(chain, name, value) && StartsBySetting(chain, t, name, value)
    ensures var r := RunAt(chain, rq, index, m);
      m.started <= r.started &&
      (HasHeader(m, name, value) ==> HasHeader(r, name, value)) &&
      (m.failure.None? && t in r.started[|m.started|..] ==> HasHeader(r, name, value))
    decreases |chain| - index, 1, 0
  {
    var r := RunAt(chain, rq, index, m);
    if index != m.prevIndex && index < |chain| && chain[index].Callable? {
      var m1 := m.(prevIndex := index, started := m.started + [index]);
      assert r == Exec(chain, rq, index, chain[index].actions, m1);
      ExecSetterDecides(chain, rq, index, t, chain[index].actions, m1, name, value);
      assert r.started[|m.started|..] == [index] + r.started[|m1.started|..];
    }
  }

  lemma {:induction false} ExecSetterDecides(chain: seq<Slot>, rq: ParsedRequest, index: nat, t: nat, acts: seq<Action>, m: Machine, name: string, value: string)
    requires index < |chain| && ChainWritesOnly(chain, name, value) && StartsBySetting(chain, t, name, value)
    requires WritesOnly(acts, name, value)
    ensures var r := Exec(chain, rq, index, acts, m);
      m.started <= r.started &&
      (HasHeader(m, name, value) ==> HasHeader(r, name, value)) &&
      (m.failure.None? && acts != [] && acts[0] == SetHeader(name, value) ==> HasHeader(r, name, value)) &&
      (m.failure.None? && t in r.started[|m.started|..] ==> HasHeader(r, name, value))
    decreases |chain| - index, 0, |acts|
  {
    var r := Exec(chain, rq, index, acts, m);
    if m.failure.None? && acts != [] {
      assert WritesOnly(acts[1..], name, value) by {
        forall j | 0 <= j < |acts[1..]| && SetsHeader(acts[1..][j], name)
          ensures acts[1..][j].value == value
        {
          assert acts[1..][j] == acts[j + 1];
        }
      }
      if acts[0].Next? {
        var m1 := RunAt(chain, rq, index + 1, m);
        assert r == Exec(chain, rq, index, acts[1..], m1);
        RunAtSetterDecides(chain, rq, index + 1, t, m, name, value);
        ExecSetterDecides(chain, rq, index, t, acts[1..], m1, name, value);
        if m1.failure.Some? {
          assert r == m1;
        } else if t in r.started[|m.started|..] && t !in m1.started[|m.started|..] {
          assert r.started[|m.started|..] == m1.started[|m.started|..] + r.started[|m1.started|..];
        }
      } else if !acts[0].Throw? {
        var m1 := m.(res := Effect(acts[0], rq, m.res));
        assert r == Exec(chain, rq, index, acts[1..], m1);
        assert SetsHeader(acts[0], name) ==> acts[0].value == value;
        ExecSetterDecides(chain, rq, index, t, acts[1..], m1, name, value);
      }
    }
  }

  /** A header is decided by the handler that sets it: when every write of
      the header in the chain writes `value` and the handler at `t` starts by
      setting it, the chain ends with the header at `value` whenever that
      handler was invoked, whatever was written before the chain. */
  lemma SetterDecidesHeader(chain: seq<Slot>, rq: ParsedRequest, headers: Headers, t: nat, name: string, value: string)
    requires ChainWritesOnly(chain, name, value) && StartsBySetting(chain, t, name, value)
    ensures var r := RunChain(chain, rq, headers);
      t in r.started ==> name in r.res.headers && r.res.headers[name] == value
  {
    var r := RunChain(chain, rq, headers);
    RunAtSetterDecides(chain, rq, 0, t, Initial(headers), name, value);
    assert r.started[0..] == r.started;
  }

  /** Without the premise that every write agrees, a handler that writes a
      header after its `next()` returns has the last word over a later
      handler that wrote it first. */
  lemma WriteAfterNextWins(rq: ParsedRequest, headers: Headers)
    ensures var chain := [Callable([Next, SetHeader("h", "x")]), Callable([SetHeader("h", "v")])];
      var h := RunChain(chain, rq, headers).res.headers;
      "h" in h && h["h"] == "x"
  {
    var chain := [Callable([Next, SetHeader("h", "x")]), Callable([SetHeader("h", "v")])];
    var m0 := Initial(headers);
    var m1 := m0.(prevIndex := 0, started := [0]);
    assert RunChain(chain, rq, headers) == Exec(chain, rq, 0, [Next, SetHeader("h", "x")], m1);
    var a := m1.(prevIndex := 1, started := [0, 1]);
    var m2 := RunAt(chain, rq, 1, m1);
    assert [SetHeader("h", "v")][1..] == [];
    assert m2 == Exec(chain, rq, 1, [SetHeader("h", "v")], a);
    assert [Next, SetHeader("h", "x")][1..] == [SetHeader("h", "x")];
    assert [SetHeader("h", "x")][1..] == [];
    assert m2.failure.None?;
    var m3 := m2.(res := Effect(SetHeader("h", "x"), rq, m2.res));
    assert Exec(chain, rq, 0, [Next, SetHeader("h", "x")], m1) == Exec(chain, rq, 0, [SetHeader("h", "x")], m2);
    assert Exec(chain, rq, 0, [SetHeader("h", "x")], m2) == Exec(chain, rq, 0, [], m3);
  }
}
