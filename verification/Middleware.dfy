/** The middlewares around a request: which are called, and in what order. */
module Middleware {

  import opened Sorting

  ghost predicate Increasing(s: seq<int>) { forall i, j :: 0 <= i < j < |s| ==> s[i] < s[j] }

  predicate IntLess(x: int, y: int) { x < y }

  /** The middlewares listed by one rule. */
  class MiddlewareIndices {

    var indices: seq<int>

    constructor ()
      ensures indices == []
    {
      indices := [];
    }

    method Push(idx: int)
      modifies this
      ensures indices == old(indices) + [idx]
    {
      indices := indices + [idx];
    }

    /** Sort, and drop equal neighbours. */
    method Pack()
      modifies this
      ensures Increasing(indices)
      ensures forall x :: x in indices <==> x in old(indices)
    {
      var sorted := Sort(indices, IntLess);
      SameElements(sorted, indices);
      indices := Unique(sorted);
    }
  }

  lemma SameElements(a: seq<int>, b: seq<int>)
    requires multiset(a) == multiset(b)
    ensures forall x :: x in a <==> x in b
  {
    assert forall x :: x in a <==> x in multiset(a);
    assert forall x :: x in b <==> x in multiset(b);
  }

  /** `std::unique` on a sorted list. */
  method Unique(sorted: seq<int>) returns (kept: seq<int>)
    requires Ordered(sorted, IntLess)
    ensures Increasing(kept)
    ensures forall x :: x in kept <==> x in sorted
  {
    kept := [];
    for i := 0 to |sorted|
      invariant Increasing(kept)
      invariant forall x :: x in kept <==> x in sorted[..i]
      invariant kept != [] <==> i > 0
      invariant i > 0 ==> kept[|kept| - 1] == sorted[i - 1]
    {
      assert sorted[..i + 1] == sorted[..i] + [sorted[i]];
      if kept == [] || kept[|kept| - 1] != sorted[i] {
        assert i > 0 ==> !IntLess(sorted[i], sorted[i - 1]);
        IncreasingMore(kept, sorted[i]);
        kept := kept + [sorted[i]];
      }
    }
    assert sorted[..|sorted|] == sorted;
  }

  lemma IncreasingMore(s: seq<int>, x: int)
    requires Increasing(s) && (s != [] ==> s[|s| - 1] < x)
    ensures Increasing(s + [x])
  {
  }

  // ---------------------------------------------------------------- the criteria

  /** Which middlewares are called: the global ones, or those of a rule, asked for upwards or downwards. */
  datatype Kind = OnlyGlobal(global: set<int>) | Forward(indices: seq<int>) | Backward(indices: seq<int>) {

    predicate Lists(n: int) { if OnlyGlobal? then n in global else n in indices }

    /** What `pack` and the registration of middlewares give, for `total` middlewares. */
    ghost predicate Packed(total: nat) {
      OnlyGlobal? || (Increasing(indices) && forall i :: 0 <= i < |indices| ==> 0 <= indices[i] < total)
    }
  }

  class Criteria {

    const kind: Kind
    var slider: int

    constructor (kind: Kind, ghost total: nat)
      requires kind.Packed(total)
      ensures this.kind == kind
      ensures ReadyFor(if kind.Backward? then total - 1 else 0)
    {
      this.kind := kind;
      slider := if kind.Backward? then |kind.indices| - 1 else 0;
    }

    /** The slider separates the indices already asked for from those still to come; `n` comes next. */
    ghost predicate ReadyFor(n: int)
      reads this
    {
      match kind
      case OnlyGlobal(_) => true
      case Forward(indices) =>
        && 0 <= slider <= |indices| && Increasing(indices)
        && (forall i :: 0 <= i < slider ==> indices[i] < n)
        && (forall i :: slider <= i < |indices| ==> n <= indices[i])
      case Backward(indices) =>
        && -1 <= slider < |indices| && Increasing(indices)
        && (forall i :: 0 <= i <= slider ==> indices[i] <= n)
        && (forall i :: slider < i < |indices| ==> n < indices[i])
    }

    /** One comparison answers whether the list contains `n`. */
    method Enabled(n: int) returns (b: bool)
      requires ReadyFor(n)
      modifies this
      ensures b == kind.Lists(n)
      ensures ReadyFor(if kind.Backward? then n - 1 else n + 1)
    {
      match kind {
        case OnlyGlobal(global) =>
          b := n in global;
        case Forward(indices) =>
          b := slider < |indices| && indices[slider] == n;
          if b { slider := slider + 1; }
        case Backward(indices) =>
          b := slider >= 0 && indices[slider] == n;
          if b { slider := slider - 1; }
      }
    }
  }

  // ---------------------------------------------------------------- what is to be called

  /** The listed middlewares from number `i` on, upwards. */
  ghost function Up(kind: Kind, i: nat, total: nat): seq<int>
    requires i <= total
    decreases total - i
  {
    if i == total then [] else (if kind.Lists(i) then [i] else []) + Up(kind, i + 1, total)
  }

  /** The listed middlewares below number `n`, downwards. */
  ghost function Down(kind: Kind, n: nat): seq<int> {
    if n == 0 then [] else (if kind.Lists(n - 1) then [n - 1] else []) + Down(kind, n - 1)
  }

  function Reversed<T>(s: seq<T>): (r: seq<T>)
    ensures |r| == |s|
  {
    if s == [] then [] else Reversed(s[1..]) + [s[0]]
  }

  lemma {:induction false} ReversedSum<T>(s: seq<T>, t: seq<T>)
    ensures Reversed(s + t) == Reversed(t) + Reversed(s)
  {
    if s == [] {
      assert s + t == t && Reversed(t) + [] == Reversed(t);
    } else {
      ReversedSum(s[1..], t);
      assert (s + t)[1..] == s[1..] + t;
      assert Reversed(t) + Reversed(s[1..]) + [s[0]] == Reversed(t) + Reversed(s);
    }
  }

  /** The middlewares listed in the range from `i` to `n`, which the two directions share. */
  lemma {:induction false} UpSplits(kind: Kind, i: nat, n: nat)
    requires i < n
    ensures Up(kind, i, n) == Up(kind, i, n - 1) + if kind.Lists(n - 1) then [n - 1] else []
    decreases n - i
  {
    if i == n - 1 {
      assert Up(kind, n, n) == [];
    } else {
      UpSplits(kind, i + 1, n);
    }
  }

  /** Both directions go to the same middlewares, in opposite orders. */
  lemma {:induction false} DownIsUpReversed(kind: Kind, other: Kind, n: nat)
    requires forall i :: 0 <= i < n ==> kind.Lists(i) == other.Lists(i)
    ensures Down(kind, n) == Reversed(Up(other, 0, n))
  {
    if n > 0 {
      DownIsUpReversed(kind, other, n - 1);
      UpSplits(other, 0, n);
      if other.Lists(n - 1) {
        ReversedSum(Up(other, 0, n - 1), [n - 1]);
        assert Reversed([n - 1]) == [n - 1];
      } else {
        assert Up(other, 0, n - 1) + [] == Up(other, 0, n - 1);
      }
    }
  }

  /** For a packed list these are just the listed indices, each once. */
  lemma {:induction false} UpIsTheList(kind: Kind, i: nat, total: nat, k: nat)
    requires !kind.OnlyGlobal? && kind.Packed(total) && i <= total && k <= |kind.indices|
    requires forall j :: 0 <= j < k ==> kind.indices[j] < i
    requires forall j :: k <= j < |kind.indices| ==> i <= kind.indices[j]
    ensures Up(kind, i, total) == kind.indices[k..]
    decreases total - i
  {
    if i < total {
      if k < |kind.indices| && kind.indices[k] == i {
        assert kind.Lists(i);
        UpIsTheList(kind, i + 1, total, k + 1);
        assert kind.indices[k..] == [i] + kind.indices[k + 1..];
      } else {
        assert forall j :: 0 <= j < |kind.indices| ==> kind.indices[j] != i;
        UpIsTheList(kind, i + 1, total, k);
      }
    }
  }

  // ---------------------------------------------------------------- calling them

  datatype Event = Before(mw: int) | After(mw: int) | Handler

  function Befores(mws: seq<int>): (r: seq<Event>)
    ensures |r| == |mws|
  {
    seq(|mws|, i requires 0 <= i < |mws| => Before(mws[i]))
  }

  function Afters(mws: seq<int>): (r: seq<Event>)
    ensures |r| == |mws|
  {
    seq(|mws|, i requires 0 <= i < |mws| => After(mws[i]))
  }

  /** The middlewares of `todo` whose before-handlers run: up to the first that ends the response. Whether
      a before-handler does is decided by everything called so far. */
  ghost function Begun(todo: seq<int>, trace: seq<Event>, ends: seq<Event> -> bool): seq<int> {
    if todo == [] then []
    else
      var t := trace + [Before(todo[0])];
      if ends(t) then [todo[0]] else [todo[0]] + Begun(todo[1..], t, ends)
  }

  /** Some before-handler of `todo` ends the response. */
  ghost predicate Ends(todo: seq<int>, trace: seq<Event>, ends: seq<Event> -> bool) {
    todo != [] && var t := trace + [Before(todo[0])]; ends(t) || Ends(todo[1..], t, ends)
  }

  /** What the calls of `todo` leave: the before-handlers and, if the response is ended, the after-handlers
      of the same middlewares, last first. */
  ghost function Called(todo: seq<int>, trace: seq<Event>, ends: seq<Event> -> bool): seq<Event> {
    var begun := Begun(todo, trace, ends);
    trace + Befores(begun) + if Ends(todo, trace, ends) then Afters(Reversed(begun)) else []
  }

  lemma CalledOne(mw: int, rest: seq<int>, trace: seq<Event>, ends: seq<Event> -> bool)
    ensures var t := trace + [Before(mw)];
            Called([mw] + rest, trace, ends) ==
            if ends(t) then t + [After(mw)]
            else Called(rest, t, ends) + if Ends(rest, t, ends) then [After(mw)] else []
  {
    var t, todo := trace + [Before(mw)], [mw] + rest;
    assert todo[1..] == rest;
    if ends(t) {
      assert Begun(todo, trace, ends) == [mw];
      assert Reversed([mw]) == [mw];
      assert Befores([mw]) == [Before(mw)] && Afters([mw]) == [After(mw)];
    } else {
      var begun := Begun(rest, t, ends);
      assert Begun(todo, trace, ends) == [mw] + begun;
      assert Befores([mw] + begun) == [Before(mw)] + Befores(begun);
      assert ([mw] + begun)[1..] == begun;
      assert Afters(Reversed(begun) + [mw]) == Afters(Reversed(begun)) + [After(mw)];
      assert t + Befores(begun) == trace + ([Before(mw)] + Befores(begun));
    }
  }

  /** What is begun is a first part of the list; only its last before-handler can have ended the response. */
  lemma {:induction false} BegunIsPrefix(todo: seq<int>, trace: seq<Event>, ends: seq<Event> -> bool)
    ensures Begun(todo, trace, ends) <= todo
    ensures !Ends(todo, trace, ends) ==> Begun(todo, trace, ends) == todo
    ensures forall k :: 0 < k <= |Begun(todo, trace, ends)| ==>
              (ends(trace + Befores(Begun(todo, trace, ends)[..k])) <==>
               (Ends(todo, trace, ends) && k == |Begun(todo, trace, ends)|))
  {
    if todo != [] {
      var t := trace + [Before(todo[0])];
      var begun := Begun(todo, trace, ends);
      assert todo == [todo[0]] + todo[1..];
      if !ends(t) { BegunIsPrefix(todo[1..], t, ends); }
      forall k | 0 < k <= |begun|
        ensures ends(trace + Befores(begun[..k])) <==> (Ends(todo, trace, ends) && k == |begun|)
      {
        assert Befores(begun[..k]) == [Before(todo[0])] + Befores(begun[1..k]);
        assert trace + Befores(begun[..k]) == t + Befores(begun[1..k]);
        if k == 1 {
          assert t + Befores(begun[1..1]) == t;
          EndsHasBegun(todo[1..], t, ends);
        } else {
          assert begun[1..k] == Begun(todo[1..], t, ends)[..k - 1];
        }
      }
    }
  }

  lemma EndsHasBegun(todo: seq<int>, trace: seq<Event>, ends: seq<Event> -> bool)
    ensures Ends(todo, trace, ends) ==> Begun(todo, trace, ends) != []
  {
  }

  /** One request on its way through the middlewares: what was called, and whether the response is ended. */
  class Exchange {

    const ends: seq<Event> -> bool
    var trace: seq<Event>
    var completed: bool

    constructor (ends: seq<Event> -> bool)
      ensures this.ends == ends && trace == [] && !completed
    {
      this.ends := ends;
      trace := [];
      completed := false;
    }

    /** `middleware_call_helper` at number `n` */
    method CallBefore(cc: Criteria, n: nat, total: nat) returns (done: bool)
      requires n <= total && !cc.kind.Backward? && cc.ReadyFor(n) && !completed
      modifies this, cc
      ensures trace == Called(Up(cc.kind, n, total), old(trace), ends)
      ensures done == completed == Ends(Up(cc.kind, n, total), old(trace), ends)
      decreases total - n
    {
      hide Called;
      if n == total {
        assert trace == Called([], trace, ends) by { NoneCalled(trace, ends); }
        return false;
      }
      var enabled := cc.Enabled(n);
      ghost var rest := Up(cc.kind, n + 1, total);
      if !enabled {
        assert [] + rest == rest;
        done := CallBefore(cc, n + 1, total);
        return;
      }
      assert ([n] + rest)[1..] == rest;
      CalledOne(n, rest, trace, ends);
      trace := trace + [Before(n)];
      completed := ends(trace);
      if completed {
        trace := trace + [After(n)];
        return true;
      }
      done := CallBefore(cc, n + 1, total);
      if done {
        trace := trace + [After(n)];
      } else {
        assert Called(rest, old(trace) + [Before(n)], ends) + [] == Called(rest, old(trace) + [Before(n)], ends);
      }
    }

    /** `after_handlers_call_helper` from number `n - 1` down */
    method CallAfter(cc: Criteria, n: nat)
      requires !cc.kind.Forward? && cc.ReadyFor(n - 1)
      modifies this, cc
      ensures trace == old(trace) + Afters(Down(cc.kind, n)) && completed == old(completed)
      decreases n
    {
      hide Afters;
      if n == 0 {
        EmptyReversed();
        return;
      }
      var enabled := cc.Enabled(n - 1);
      ghost var rest := Down(cc.kind, n - 1);
      if enabled {
        AftersMore(trace, n - 1, rest);
        trace := trace + [After(n - 1)];
      } else {
        assert [] + rest == rest;
      }
      CallAfter(cc, n - 1);
    }

    /** `handle_rule`, and the after-handlers of the rule that run when its handler ends the response. What
        completes the exchange after that is the caller's. */
    method HandleRule(indices: seq<int>, total: nat)
      requires Forward(indices).Packed(total) && !completed
      modifies this
      ensures completed
      ensures trace == AroundRule(indices, total, old(trace), ends)
    {
      hide Called, Ends;
      if indices == [] {
        NoneToCall(indices, total, trace, ends);
        trace := trace + [Handler];
        completed := true;
        return;
      }
      var forward := new Criteria(Forward(indices), total);
      var done := CallBefore(forward, 0, total);
      if done { return; }
      trace := trace + [Handler];
      completed := true;
      var backward := new Criteria(Backward(indices), total);
      CallAfter(backward, total);
    }

    /** `Router::handle`, for what was found before. */
    method HandleFound(found: Found, total: nat)
      requires Fits(found, total) && !found.NoRoute? && !completed
      modifies this
      ensures completed
      ensures trace == AroundFound(found, total, old(trace), ends)
    {
      match found
      case CatchAll(handler) =>
        if handler { trace := trace + [Handler]; }
        completed := true;
      case Redirect =>
        completed := true;
      case ToRule(indices) =>
        HandleRule(indices, total);
    }

    /** `Connection::handle`: a request without `Host` is answered at once; one that upgrades passes the
        global middlewares and is handed over; any other goes to what was found, with the global
        middlewares around it. */
    method Handle(found: Found, asked: Asked, global: set<int>, total: nat)
      requires Fits(found, total) && !found.NoRoute? && !completed && trace == []
      modifies this
      ensures trace == RunOf(found, asked, global, total, ends)
    {
      hide Called, Ends, AroundFound;
      if asked.http11 {
        if !asked.host {
          completed := true;
          return;
        }
        if asked.upgrade && !asked.h2 {
          var first := new Criteria(OnlyGlobal(global), total);
          var ended := CallBefore(first, 0, total);
          return;
        }
      }
      var cc := new Criteria(OnlyGlobal(global), total);
      var done := CallBefore(cc, 0, total);
      if done { return; }
      HandleFound(found, total);
      CompleteRequest(global, total);
    }

    /** `complete_request`, with the after-handlers still to be called. */
    method CompleteRequest(global: set<int>, total: nat)
      modifies this
      ensures trace == old(trace) + Afters(Down(OnlyGlobal(global), total)) && completed == old(completed)
    {
      var cc := new Criteria(OnlyGlobal(global), total);
      CallAfter(cc, total);
    }

    /** A request from its URL on. `handle_url` completes one for which nothing was found before any
        middleware has seen it, and its connection is closed. */
    method Serve(found: Found, asked: Asked, global: set<int>, total: nat)
      requires Fits(found, total) && !completed && trace == []
      modifies this
      ensures trace == RunOf(found, asked, global, total, ends)
    {
      hide AroundFound;
      if found.NoRoute? {
        completed := true;
        CompleteRequest(global, total);
        assert [] + trace == trace;
        return;
      }
      Handle(found, asked, global, total);
    }
  }

  // ---------------------------------------------------------------- requests

  /** What `handle_initial` finds for a request: nothing, nothing but the catch-all, the redirect to a URL
      with a slash, or a rule with its middlewares. */
  datatype Found = NoRoute | CatchAll(handler: bool) | Redirect | ToRule(indices: seq<int>)

  datatype Verb = Head | Options | OtherVerb

  /** The rule number the redirect has in every trie. */
  const REDIRECT_SLASH := 1

  function Routed(rule: nat, indices: seq<int>): Found {
    if rule == REDIRECT_SLASH then Redirect else ToRule(indices)
  }

  /** `handle_initial`: `own` is the rule found under the request's method, `get` that under GET, 0 for none. */
  function Initial(verb: Verb, own: nat, ownList: seq<int>, get: nat, getList: seq<int>, catchAll: bool): Found {
    match verb
    case Head => if own != 0 then Routed(own, ownList) else if get != 0 then Routed(get, getList) else NoRoute
    case Options => NoRoute
    case OtherVerb => if own != 0 then Routed(own, ownList) else CatchAll(catchAll)
  }

  /** What `Connection::handle` asks of a request. */
  datatype Asked = Asked(http11: bool, host: bool, upgrade: bool, h2: bool)

  predicate Upgrading(asked: Asked) { asked.http11 && asked.host && asked.upgrade && !asked.h2 }

  ghost predicate Fits(found: Found, total: nat) { found.ToRule? ==> Forward(found.indices).Packed(total) }

  ghost function AroundFound(found: Found, total: nat, trace: seq<Event>, ends: seq<Event> -> bool): seq<Event> {
    match found
    case NoRoute => trace
    case CatchAll(handler) => trace + if handler then [Handler] else []
    case Redirect => trace
    case ToRule(indices) => AroundRule(indices, total, trace, ends)
  }

  ghost function AroundAll(found: Found, global: set<int>, total: nat, ends: seq<Event> -> bool): seq<Event> {
    var todo := Up(OnlyGlobal(global), 0, total);
    var called := Called(todo, [], ends);
    if Ends(todo, [], ends) then called
    else AroundFound(found, total, called, ends) + Afters(Down(OnlyGlobal(global), total))
  }

  /** Everything that is called for a request. The hand-over of an upgraded connection is not recorded. */
  ghost function RunOf(found: Found, asked: Asked, global: set<int>, total: nat, ends: seq<Event> -> bool): seq<Event> {
    if found.NoRoute? then Afters(Down(OnlyGlobal(global), total))
    else if asked.http11 && !asked.host then []
    else if Upgrading(asked) then Called(Up(OnlyGlobal(global), 0, total), [], ends)
    else AroundAll(found, global, total, ends)
  }

  lemma AftersMore(trace: seq<Event>, mw: int, rest: seq<int>)
    ensures trace + Afters([mw] + rest) == trace + [After(mw)] + Afters(rest)
  {
    assert Afters([mw] + rest) == [After(mw)] + Afters(rest);
  }

  lemma NoneCalled(trace: seq<Event>, ends: seq<Event> -> bool)
    ensures Called([], trace, ends) == trace
  {
  }

  lemma {:induction false} NoneToCall(indices: seq<int>, total: nat, trace: seq<Event>, ends: seq<Event> -> bool)
    requires indices == []
    ensures AroundRule(indices, total, trace, ends) == trace + [Handler]
  {
    hide Called, Up, Down, Reversed;
    UpIsTheList(Forward(indices), 0, total, 0);
    assert Up(Forward(indices), 0, total) == [];
    EmptyReversed();
    NoneCalled(trace, ends);
    DownIsUpReversed(Backward(indices), Forward(indices), total);
    assert Down(Backward(indices), total) == [];
    assert trace + [Handler] + Afters([]) == trace + [Handler];
  }

  ghost function AroundRule(indices: seq<int>, total: nat, trace: seq<Event>, ends: seq<Event> -> bool): seq<Event> {
    var todo := Up(Forward(indices), 0, total);
    var called := Called(todo, trace, ends);
    if Ends(todo, trace, ends) then called else called + [Handler] + Afters(Down(Backward(indices), total))
  }

  // ---------------------------------------------------------------- bracketing

  /** A run that nests: before-handlers, perhaps the handler, and the after-handlers of exactly the same
      middlewares in reverse order. */
  ghost predicate Bracketed(run: seq<Event>, mws: seq<int>, handled: bool) {
    run == Befores(mws) + (if handled then [Handler] else []) + Afters(Reversed(mws))
  }

  lemma {:induction false} RuleBracketed(indices: seq<int>, total: nat, trace: seq<Event>, ends: seq<Event> -> bool)
    requires Forward(indices).Packed(total)
    ensures AroundRule(indices, total, trace, ends) ==
            trace + Befores(Begun(indices, trace, ends)) +
            (if Ends(indices, trace, ends) then [] else [Handler]) + Afters(Reversed(Begun(indices, trace, ends)))
  {
    UpIsTheList(Forward(indices), 0, total, 0);
    assert indices[0..] == indices;
    BegunIsPrefix(indices, trace, ends);
    if Ends(indices, trace, ends) {
      var t := trace + Befores(Begun(indices, trace, ends));
      assert t + [] == t;
    } else {
      DownIsUpReversed(Backward(indices), Forward(indices), total);
      var t := trace + Befores(indices);
      assert t + [] == t;
    }
  }

  lemma {:induction false} BegunSum(a: seq<int>, b: seq<int>, trace: seq<Event>, ends: seq<Event> -> bool)
    ensures Ends(a + b, trace, ends) <==> Ends(a, trace, ends) || Ends(b, trace + Befores(a), ends)
    ensures Begun(a + b, trace, ends) ==
            if Ends(a, trace, ends) then Begun(a, trace, ends) else a + Begun(b, trace + Befores(a), ends)
  {
    if a == [] {
      assert a + b == b && trace + Befores(a) == trace;
    } else {
      hide Befores;
      var t := trace + [Before(a[0])];
      FirstBefore(a, trace);
      BegunSum(a[1..], b, t, ends);
      assert (a + b)[1..] == a[1..] + b;
      if !ends(t) && !Ends(a[1..], t, ends) {
        assert a + Begun(b, trace + Befores(a), ends) == [a[0]] + (a[1..] + Begun(b, trace + Befores(a), ends));
      }
    }
  }

  lemma FirstBefore(a: seq<int>, trace: seq<Event>)
    requires a != []
    ensures trace + [Before(a[0])] + Befores(a[1..]) == trace + Befores(a)
  {
    assert Befores(a) == [Before(a[0])] + Befores(a[1..]);
  }

  /** One bracketed run inside another. */
  lemma {:induction false} Nested(outer: seq<int>, inner: seq<int>, middle: seq<Event>)
    ensures Befores(outer) + Befores(inner) + middle + Afters(Reversed(inner)) + Afters(Reversed(outer)) ==
            Befores(outer + inner) + middle + Afters(Reversed(outer + inner))
  {
    hide Reversed;
    ReversedSum(outer, inner);
    assert Befores(outer + inner) == Befores(outer) + Befores(inner);
    assert Afters(Reversed(inner) + Reversed(outer)) == Afters(Reversed(inner)) + Afters(Reversed(outer));
  }

  /** The global middlewares and then those of the rule: everything a request can call. */
  ghost function AllOf(found: Found, global: set<int>, total: nat): seq<int> {
    Up(OnlyGlobal(global), 0, total) + if found.ToRule? then found.indices else []
  }

  predicate HasHandler(found: Found) { found.ToRule? || (found.CatchAll? && found.handler) }

  lemma {:induction false} EndedEarly(found: Found, global: set<int>, total: nat, ends: seq<Event> -> bool)
    requires Ends(Up(OnlyGlobal(global), 0, total), [], ends)
    ensures Bracketed(AroundAll(found, global, total, ends), Begun(AllOf(found, global, total), [], ends), false)
    ensures Ends(AllOf(found, global, total), [], ends)
  {
    hide Up, Begun, Ends, Reversed, AroundFound;
    var todo := Up(OnlyGlobal(global), 0, total);
    BegunSum(todo, if found.ToRule? then found.indices else [], [], ends);
    var first := Befores(Begun(todo, [], ends));
    assert [] + first == first && first + [] == first;
  }

  /** What was found, after all global before-handlers: it nests in itself. */
  lemma {:induction false} FoundBracketed(found: Found, total: nat, trace: seq<Event>, ends: seq<Event> -> bool)
    requires Fits(found, total)
    ensures
      var list := if found.ToRule? then found.indices else [];
      AroundFound(found, total, trace, ends) ==
      trace + Befores(Begun(list, trace, ends)) +
      (if !Ends(list, trace, ends) && HasHandler(found) then [Handler] else []) + Afters(Reversed(Begun(list, trace, ends)))
  {
    hide Up, Down, AroundRule;
    if found.ToRule? {
      RuleBracketed(found.indices, total, trace, ends);
    } else {
      assert Reversed<int>([]) == [] && Befores([]) == [] && Afters([]) == [];
      assert trace + [] == trace;
    }
  }

  lemma {:induction false} ReachedRule(found: Found, global: set<int>, total: nat, ends: seq<Event> -> bool)
    requires Fits(found, total)
    requires !Ends(Up(OnlyGlobal(global), 0, total), [], ends)
    ensures
      var all := AllOf(found, global, total);
      Bracketed(AroundAll(found, global, total, ends), Begun(all, [], ends), !Ends(all, [], ends) && HasHandler(found))
  {
    hide Up, Down, Begun, Ends, Reversed, AroundFound, Befores, Afters, HasHandler;
    var todo := Up(OnlyGlobal(global), 0, total);
    var list := if found.ToRule? then found.indices else [];
    BegunIsPrefix(todo, [], ends);
    BegunSum(todo, list, [], ends);
    var trace := Befores(todo);
    assert [] + trace == trace;
    assert trace + [] == trace;
    FoundBracketed(found, total, trace, ends);
    DownIsUpReversed(OnlyGlobal(global), OnlyGlobal(global), total);
    Nested(todo, Begun(list, trace, ends), if !Ends(list, trace, ends) && HasHandler(found) then [Handler] else []);
  }

  /** Requests that pass the global middlewares to what was found: the after-handlers that run are those
      of the middlewares whose before-handlers ran, last first; a handler runs just when no before-handler
      ends the response and there is one. */
  lemma {:induction false} RoutedBracketed(found: Found, global: set<int>, total: nat, ends: seq<Event> -> bool)
    requires Fits(found, total)
    ensures
      var all := AllOf(found, global, total);
      Bracketed(AroundAll(found, global, total, ends), Begun(all, [], ends), !Ends(all, [], ends) && HasHandler(found))
  {
    hide Up, Begun, Ends, Bracketed, AroundAll, AllOf;
    if Ends(Up(OnlyGlobal(global), 0, total), [], ends) {
      EndedEarly(found, global, total, ends);
    } else {
      ReachedRule(found, global, total, ends);
    }
  }

  ghost predicate Nests(run: seq<Event>) { exists mws, handled :: Bracketed(run, mws, handled) }

  /** After-handlers alone do not nest. */
  lemma {:induction false} OnlyAfters(mws: seq<int>)
    ensures Nests(Afters(mws)) <==> mws == []
  {
    hide Reversed;
    var run := Afters(mws);
    if mws == [] {
      EmptyBracket();
      assert run == [];
    } else {
      forall begun, handled
        ensures !Bracketed(run, begun, handled)
      {
        var nested := Befores(begun) + (if handled then [Handler] else []) + Afters(Reversed(begun));
        if begun != [] {
          assert nested[0] == Before(begun[0]);
        } else {
          EmptyReversed();
          assert |nested| <= 1 && (handled ==> nested[0] == Handler) && (!handled ==> nested == []);
        }
        assert run[0] == After(mws[0]);
      }
    }
  }

  /** Nor do before-handlers alone. */
  lemma {:induction false} OnlyBefores(mws: seq<int>)
    ensures Nests(Befores(mws)) <==> mws == []
  {
    hide Reversed;
    var run := Befores(mws);
    if mws == [] {
      EmptyBracket();
      assert run == [];
    } else {
      forall begun, handled
        ensures !Bracketed(run, begun, handled)
      {
        var afters := Afters(Reversed(begun));
        var nested := Befores(begun) + (if handled then [Handler] else []) + afters;
        if begun != [] {
          assert nested[|nested| - 1] == afters[|afters| - 1];
        } else {
          EmptyReversed();
          assert |nested| <= 1 && (handled ==> nested[0] == Handler) && (!handled ==> nested == []);
        }
        assert run[|run| - 1] == Before(mws[|mws| - 1]) && run[0] == Before(mws[0]);
      }
    }
  }

  lemma EmptyReversed()
    ensures Reversed<int>([]) == [] && Afters([]) == [] && Befores([]) == []
  {
  }

  lemma EmptyBracket()
    ensures Bracketed([], [], false)
  {
    EmptyReversed();
  }

  lemma {:induction false} UpgradeBracketed(global: set<int>, total: nat, ends: seq<Event> -> bool)
    ensures
      var todo := Up(OnlyGlobal(global), 0, total);
      Nests(Called(todo, [], ends)) <==> todo == [] || Ends(todo, [], ends)
  {
    var todo := Up(OnlyGlobal(global), 0, total);
    hide Up, Reversed, Nests;
    BegunIsPrefix(todo, [], ends);
    var first := Befores(Begun(todo, [], ends));
    assert [] + first == first && first + [] == first;
    if Ends(todo, [], ends) {
      assert Bracketed(Called(todo, [], ends), Begun(todo, [], ends), false);
      ThenNests(Called(todo, [], ends), Begun(todo, [], ends), false);
    } else {
      OnlyBefores(todo);
    }
  }

  lemma ThenNests(run: seq<Event>, mws: seq<int>, handled: bool)
    requires Bracketed(run, mws, handled)
    ensures Nests(run)
  {
  }

  /** For every request: the before- and after-handlers nest, if and only if there is no global
      middleware, or something was found for the request and it is not handed over to an upgraded
      connection, or it is and a before-handler has ended the response. */
  lemma {:induction false} RequestBracketed(found: Found, asked: Asked, global: set<int>, total: nat,
                                            ends: seq<Event> -> bool)
    requires Fits(found, total)
    ensures
      var todo := Up(OnlyGlobal(global), 0, total);
      Nests(RunOf(found, asked, global, total, ends)) <==>
      todo == [] || (!found.NoRoute? && (!Upgrading(asked) || Ends(todo, [], ends)))
  {
    var todo := Up(OnlyGlobal(global), 0, total);
    hide Up, Down, Ends, Nests, Bracketed, Called, AroundAll;
    if found.NoRoute? {
      DownIsUpReversed(OnlyGlobal(global), OnlyGlobal(global), total);
      OnlyAfters(Down(OnlyGlobal(global), total));
    } else if asked.http11 && !asked.host {
      EmptyBracket();
      ThenNests([], [], false);
    } else if Upgrading(asked) {
      UpgradeBracketed(global, total, ends);
    } else {
      RoutedBracketed(found, global, total, ends);
      var all := AllOf(found, global, total);
      ThenNests(AroundAll(found, global, total, ends), Begun(all, [], ends), !Ends(all, [], ends) && HasHandler(found));
    }
  }

  /** An OPTIONS request, whatever is routed: one global middleware's after-handler runs and nothing else. */
  lemma {:induction false} OptionsUnbracketed(own: nat, ownList: seq<int>, get: nat, getList: seq<int>, catchAll: bool,
                                              asked: Asked, ends: seq<Event> -> bool)
    ensures
      var run := RunOf(Initial(Options, own, ownList, get, getList, catchAll), asked, {0}, 1, ends);
      run == [After(0)] && !Nests(run)
  {
    var kind := OnlyGlobal({0});
    assert Down(kind, 0) == [] && Down(kind, 1) == [0];
    assert Afters([0]) == [After(0)];
    OnlyAfters([0]);
  }
}
