/** The routing tree and its backtracking search. */
module RoutingSearch {
  import opened RoutingPatterns

  datatype Node = Node(ruleIndex: nat, key: string, param: ParamType, children: seq<Node>)

  const NEW_NODE := Node(0, "", MAX, [])

  datatype Found = Found(ruleIndex: nat, ps: Params)

  /** Every rule the search can end in from node `n` at position `pos`, with its captures. */
  function Cands(d: Strtod, n: Node, url: string, pos: nat, ps: Params): set<Found>
    requires pos <= |url|
    decreases n, 1
  {
    if pos == |url| then (if n.ruleIndex != 0 then {Found(n.ruleIndex, ps)} else {})
    else CandsOf(d, n.children, url, pos, ps)
  }

  function CandsOf(d: Strtod, cs: seq<Node>, url: string, pos: nat, ps: Params): set<Found>
    requires pos < |url|
    decreases cs, 0
  {
    if cs == [] then {}
    else Enter(d, cs[0], url, pos, ps) + CandsOf(d, cs[1..], url, pos, ps)
  }

  function Enter(d: Strtod, n: Node, url: string, pos: nat, ps: Params): set<Found>
    requires pos < |url|
    decreases n, 2
  {
    if n.param.MAX? then
      if SpelledAt(url, pos, n.key) then Cands(d, n, url, pos + |n.key|, ps) else {}
    else
      match Consume(n.param, d, url, pos)
      case Miss => {}
      case Hit(v, e) => Cands(d, n, url, e, Push(ps, v))
  }

  /** A best candidate: one of lowest rule index, or index 0 if there is no candidate. */
  predicate Best(r: Found, cands: set<Found>) {
    if cands == {} then r.ruleIndex == 0
    else r in cands && r.ruleIndex != 0 && forall c :: c in cands ==> r.ruleIndex <= c.ruleIndex
  }

  lemma {:induction false} CandsOfAppend(d: Strtod, xs: seq<Node>, ys: seq<Node>, url: string, pos: nat, ps: Params)
    requires pos < |url|
    ensures CandsOf(d, xs + ys, url, pos, ps) == CandsOf(d, xs, url, pos, ps) + CandsOf(d, ys, url, pos, ps)
    decreases |xs|
  {
    if xs == [] {
      assert xs + ys == ys;
    } else {
      assert (xs + ys)[1..] == xs[1..] + ys;
      CandsOfAppend(d, xs[1..], ys, url, pos, ps);
    }
  }

  lemma CandsOfOne(d: Strtod, n: Node, url: string, pos: nat, ps: Params)
    requires pos < |url|
    ensures CandsOf(d, [n], url, pos, ps) == Enter(d, n, url, pos, ps)
  {
    assert [n][1..] == [];
  }

  /** The mutable `routing_params` a search pushes to and pops from. */
  class RoutingParams {
    var ps: Params

    constructor ()
      ensures ps == NO_PARAMS
    {
      ps := NO_PARAMS;
    }

    method PushValue(v: Value)
      modifies this
      ensures ps == Push(old(ps), v)
    {
      ps := Push(ps, v);
    }

    method PopValue(v: Value, ghost before: Params)
      requires ps == Push(before, v)
      modifies this
      ensures ps == before
    {
      match v
      case IntValue(_) => ps := ps.(ints := ps.ints[..|ps.ints| - 1]);
      case UintValue(_) => ps := ps.(uints := ps.uints[..|ps.uints| - 1]);
      case DoubleValue(_) => ps := ps.(doubles := ps.doubles[..|ps.doubles| - 1]);
      case StringValue(_) => ps := ps.(strings := ps.strings[..|ps.strings| - 1]);
    }
  }

  /** `update_found` */
  function UpdateFound(found: Found, ret: Found): Found {
    if ret.ruleIndex != 0 && (found.ruleIndex == 0 || found.ruleIndex > ret.ruleIndex) then ret else found
  }

  /** What one recursive call may report: a best candidate, or the index 0 of the node the URL ends in. */
  predicate Reports(r: Found, cands: set<Found>) {
    Best(r, cands) || (r.ruleIndex == 0 && cands == {})
  }

  lemma UpdateBest(found: Found, a: set<Found>, ret: Found, b: set<Found>)
    requires Best(found, a) && Reports(ret, b)
    ensures Best(UpdateFound(found, ret), a + b)
  {
    if a != {} && b != {} {
      assert found in a + b;
    }
  }

  /** `Trie::find`: the backtracking search. It returns a best candidate and leaves the shared
      parameters as it found them. */
  method Find(d: Strtod, url: string, node: Node, pos: nat, params: RoutingParams) returns (r: Found)
    requires pos <= |url|
    modifies params
    ensures params.ps == old(params.ps)
    ensures Best(r, Cands(d, node, url, pos, params.ps))
    decreases node
  {
    if pos == |url| {
      return Found(node.ruleIndex, params.ps);
    }
    ghost var ps := params.ps;
    r := Found(0, NO_PARAMS);
    var i := 0;
    while i < |node.children|
      invariant i <= |node.children| && params.ps == ps
      invariant Best(r, CandsOf(d, node.children[..i], url, pos, ps))
    {
      var child := node.children[i];
      ghost var before, cands := r, CandsOf(d, node.children[..i], url, pos, ps);
      if !child.param.MAX? {
        var hit := Consume(child.param, d, url, pos);
        if hit.Hit? {
          params.PushValue(hit.value);
          var ret := Find(d, url, child, hit.end, params);
          r := UpdateFound(r, ret);
          params.PopValue(hit.value, ps);
          UpdateBest(before, cands, ret, Enter(d, child, url, pos, ps));
        }
      } else if SpelledAt(url, pos, child.key) {
        var ret := Find(d, url, child, pos + |child.key|, params);
        r := UpdateFound(r, ret);
        UpdateBest(before, cands, ret, Enter(d, child, url, pos, ps));
      }
      assert node.children[..i + 1] == node.children[..i] + [child];
      CandsOfAppend(d, node.children[..i], [child], url, pos, ps);
      CandsOfOne(d, child, url, pos, ps);
      i := i + 1;
    }
    assert node.children[..i] == node.children;
  }

  // ---------------------------------------------------------------- path compression

  /** `IsSimpleNode` */
  predicate IsSimple(n: Node) {
    n.ruleIndex == 0 && |n.children| < 2 && n.param.MAX? && forall c :: c in n.children ==> c.param.MAX?
  }

  function Size(n: Node): (s: nat)
    ensures s == 1 + Sizes(n.children)
    decreases n, 1
  {
    1 + Sizes(n.children)
  }

  function Sizes(cs: seq<Node>): nat
    decreases cs, 0
  {
    if cs == [] then 0 else Size(cs[0]) + Sizes(cs[1..])
  }

  /** A simple node takes over its only child. */
  function Merged(n: Node): (m: Node)
    requires IsSimple(n) && n.children != []
    ensures Size(m) < Size(n)
  {
    var c := n.children[0];
    assert n.children == [c] && Sizes([c]) == Size(c);
    Node(c.ruleIndex, n.key + c.key, n.param, c.children)
  }

  function Optimized(n: Node): Node
    decreases Size(n), 0
  {
    if n.children == [] then n
    else if IsSimple(n) then Optimized(Merged(n))
    else n.(children := OptimizedAll(n.children))
  }

  function OptimizedAll(cs: seq<Node>): (r: seq<Node>)
    ensures |r| == |cs|
    decreases Sizes(cs), 1
  {
    if cs == [] then [] else [Optimized(cs[0])] + OptimizedAll(cs[1..])
  }

  lemma {:induction false} SizeAt(cs: seq<Node>, i: nat)
    requires i < |cs|
    ensures Size(cs[i]) <= Sizes(cs)
  {
    if i > 0 { SizeAt(cs[1..], i - 1); }
  }

  lemma {:induction false} OptimizedAllAt(cs: seq<Node>, i: nat)
    requires i < |cs|
    ensures OptimizedAll(cs)[i] == Optimized(cs[i])
  {
    if i > 0 { OptimizedAllAt(cs[1..], i - 1); }
  }

  /** `Trie::optimizeNode`: ends, because every merge and every descent leaves fewer nodes. */
  method OptimizeNode(node: Node) returns (r: Node)
    ensures r == Optimized(node)
    decreases Size(node)
  {
    r := node;
    if r.children == [] { return; }
    if IsSimple(r) {
      var child := r.children[0];
      r := r.(key := r.key + child.key);
      r := r.(ruleIndex := child.ruleIndex);
      r := r.(children := child.children);
      assert r == Merged(node);
      r := OptimizeNode(r);
    } else {
      r := OptimizeChildren(node);
    }
  }

  /** The loop over the children, shared by `optimizeNode` and `optimize`. */
  method OptimizeChildren(node: Node) returns (r: Node)
    ensures r == node.(children := OptimizedAll(node.children))
    decreases Size(node), 0
  {
    r := node;
    var i := 0;
    while i < |r.children|
      invariant i <= |r.children| == |node.children|
      invariant r == node.(children := r.children)
      invariant forall k :: 0 <= k < i ==> r.children[k] == OptimizedAll(node.children)[k]
      invariant forall k :: i <= k < |node.children| ==> r.children[k] == node.children[k]
    {
      SizeAt(node.children, i);
      var c := OptimizeNode(r.children[i]);
      OptimizedAllAt(node.children, i);
      r := r.(children := r.children[i := c]);
      i := i + 1;
    }
  }

  /** Below the root a node either has a literal key or is a parameter. */
  predicate Keyed(n: Node) {
    (n.param.MAX? ==> n.key != "") && forall c :: c in n.children ==> Keyed(c)
  }

  /** Compression changes nothing a search can see: the same rules with the same captures are
      reached from every position of every URL. */
  lemma {:induction false} OptimizedEnter(d: Strtod, n: Node, url: string, pos: nat, ps: Params)
    requires pos < |url| && Keyed(n)
    ensures Enter(d, Optimized(n), url, pos, ps) == Enter(d, n, url, pos, ps)
    decreases Size(n), 0
  {
    if n.children == [] {
    } else if IsSimple(n) {
      MergedEnter(d, n, url, pos, ps);
      OptimizedEnter(d, Merged(n), url, pos, ps);
    } else if n.param.MAX? {
      if SpelledAt(url, pos, n.key) && pos + |n.key| < |url| {
        OptimizedAllCands(d, n.children, url, pos + |n.key|, ps);
      }
    } else {
      var h := Consume(n.param, d, url, pos);
      if h.Hit? && h.end < |url| {
        OptimizedAllCands(d, n.children, url, h.end, Push(ps, h.value));
      }
    }
  }

  lemma {:induction false} OptimizedAllCands(d: Strtod, cs: seq<Node>, url: string, pos: nat, ps: Params)
    requires pos < |url| && forall c :: c in cs ==> Keyed(c)
    ensures CandsOf(d, OptimizedAll(cs), url, pos, ps) == CandsOf(d, cs, url, pos, ps)
    decreases Sizes(cs), 1
  {
    if cs != [] {
      assert cs[0] in cs && forall c :: c in cs[1..] ==> c in cs;
      OptimizedEnter(d, cs[0], url, pos, ps);
      OptimizedAllCands(d, cs[1..], url, pos, ps);
    }
  }

  lemma MergedEnter(d: Strtod, n: Node, url: string, pos: nat, ps: Params)
    requires pos < |url| && Keyed(n) && IsSimple(n) && n.children != []
    ensures Keyed(Merged(n))
    ensures Enter(d, Merged(n), url, pos, ps) == Enter(d, n, url, pos, ps)
  {
    var c, m := n.children[0], Merged(n);
    assert n.children == [c] && c in n.children;
    var p := pos + |n.key|;
    if SpelledAt(url, pos, n.key) && p < |url| {
      CandsOfOne(d, c, url, p, ps);
      assert url[pos..p] == n.key;
      if p + |c.key| <= |url| {
        assert url[pos..p + |c.key|] == url[pos..p] + url[p..p + |c.key|];
      }
    } else if p + |c.key| <= |url| {
      assert url[pos..p + |c.key|][..|n.key|] == url[pos..p];
    }
  }

  /** No node is left that could be merged with its child. */
  predicate Compressed(n: Node) {
    (n.children == [] || !IsSimple(n)) && forall c :: c in n.children ==> Compressed(c)
  }

  lemma {:induction false} OptimizedIsCompressed(n: Node)
    ensures Compressed(Optimized(n))
    ensures Optimized(n).param == n.param
    decreases Size(n), 1
  {
    if n.children == [] {
    } else if IsSimple(n) {
      OptimizedIsCompressed(Merged(n));
    } else {
      var r := OptimizedAll(n.children);
      forall i | 0 <= i < |r|
        ensures Compressed(r[i]) && r[i].param == n.children[i].param
      {
        SizeAt(n.children, i);
        OptimizedAllAt(n.children, i);
        OptimizedIsCompressed(n.children[i]);
      }
      if |n.children| == 1 {
        assert forall c :: c in n.children ==> c == n.children[0];
        assert r[0] in r;
      }
    }
  }
}
