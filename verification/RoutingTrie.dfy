/** Building the routing trie, and the theorem that searching the compressed trie is the same as
    trying every registered pattern. */
module RoutingTrie {
  import opened RoutingPatterns
  import opened RoutingSearch

  // ---------------------------------------------------------------- what adding a pattern means

  /** Whether a child is the one a step of a pattern leads to, in a tree not yet compressed. */
  predicate Leads(t: Token, child: Node) {
    match t
    case Char(c) => child.key != "" && child.key[0] == c
    case Param(p) => child.param == p
  }

  function NewChild(t: Token): Node {
    match t
    case Char(c) => NEW_NODE.(key := [c])
    case Param(p) => NEW_NODE.(param := p)
  }

  /** The first child a step leads to, or the number of children. */
  function ChildFor(cs: seq<Node>, t: Token, from: nat): (k: nat)
    requires from <= |cs|
    ensures from <= k <= |cs| && (k < |cs| ==> Leads(t, cs[k]))
    decreases |cs| - from
  {
    if from == |cs| || Leads(t, cs[from]) then from else ChildFor(cs, t, from + 1)
  }

  function Insert(n: Node, ts: seq<Token>, rule: nat): Node
    decreases |ts|
  {
    if ts == [] then n.(ruleIndex := rule)
    else
      var k := ChildFor(n.children, ts[0], 0);
      if k < |n.children| then n.(children := n.children[k := Insert(n.children[k], ts[1..], rule)])
      else n.(children := n.children + [Insert(NewChild(ts[0]), ts[1..], rule)])
  }

  /** The rule already at the end of a pattern, or 0. */
  function RuleAt(n: Node, ts: seq<Token>): nat
    decreases |ts|
  {
    if ts == [] then n.ruleIndex
    else
      var k := ChildFor(n.children, ts[0], 0);
      if k < |n.children| then RuleAt(n.children[k], ts[1..]) else 0
  }

  // ---------------------------------------------------------------- the pointer into the tree

  /** `path` lists the child numbers from the root to the node the loop stands at. */
  predicate InTree(n: Node, path: seq<nat>)
    decreases |path|
  {
    path == [] || (path[0] < |n.children| && InTree(n.children[path[0]], path[1..]))
  }

  function At(n: Node, path: seq<nat>): Node
    requires InTree(n, path)
    decreases |path|
  {
    if path == [] then n else At(n.children[path[0]], path[1..])
  }

  function Replace(n: Node, path: seq<nat>, m: Node): Node
    requires InTree(n, path)
    decreases |path|
  {
    if path == [] then m
    else n.(children := n.children[path[0] := Replace(n.children[path[0]], path[1..], m)])
  }

  lemma {:induction false} ReplaceAt(n: Node, path: seq<nat>, m: Node, x: Node)
    requires InTree(n, path)
    ensures InTree(Replace(n, path, m), path) && At(Replace(n, path, m), path) == m
    ensures Replace(Replace(n, path, m), path, x) == Replace(n, path, x)
    ensures Replace(n, path, At(n, path)) == n
    decreases |path|
  {
    if path != [] { ReplaceAt(n.children[path[0]], path[1..], m, x); }
  }

  lemma {:induction false} StepDown(n: Node, path: seq<nat>, k: nat, x: Node)
    requires InTree(n, path) && k < |At(n, path).children|
    ensures InTree(n, path + [k]) && At(n, path + [k]) == At(n, path).children[k]
    ensures Replace(n, path + [k], x) ==
            Replace(n, path, At(n, path).(children := At(n, path).children[k := x]))
    decreases |path|
  {
    if path != [] {
      assert (path + [k])[1..] == path[1..] + [k];
      StepDown(n.children[path[0]], path[1..], k, x);
    }
  }

  // ---------------------------------------------------------------- the class

  /** Every key below the root is one character, or empty at a parameter. */
  predicate Unoptimized(n: Node) {
    forall c :: c in n.children ==>
      && (if c.param.MAX? then |c.key| == 1 && c.key[0] != '\0' else c.key == "")
      && Unoptimized(c)
  }

  class Trie {
    var head: Node

    constructor ()
      ensures head == NEW_NODE
    {
      head := NEW_NODE;
    }

    /** `Trie::add`: one walk down the tree, adding the nodes that are missing. It fails exactly
        when the pattern is already there, and then changes nothing. */
    method Add(url: string, ruleIndex: nat) returns (added: bool)
      requires WellFormed(url) && Unoptimized(head)
      modifies this
      ensures added <==> RuleAt(old(head), Tokens(url, 0)) == 0
      ensures head == if added then Insert(old(head), Tokens(url, 0), ruleIndex) else old(head)
    {
      hide Insert, RuleAt, Replace, At, InTree, Unoptimized, ChildFor, Tokens;
      var idx: seq<nat> := [];
      var i := 0;
      ghost var ts := Tokens(url, 0);
      AtRoot(head, Insert(head, ts, ruleIndex));
      while i < |url|
        invariant i <= |url| && InTree(head, idx)
        invariant Unoptimized(At(head, idx))
        invariant RuleAt(old(head), ts) == RuleAt(At(head, idx), Tokens(url, i))
        invariant Insert(old(head), ts, ruleIndex) ==
                  Replace(head, idx, Insert(At(head, idx), Tokens(url, i), ruleIndex))
        invariant head == old(head) || RuleAt(At(head, idx), Tokens(url, i)) == 0
        decreases |url| - i
      {
        if url[i] == '<' {
          var k := FindTrait(url, i);
          TraitLength(k);
          TokensStep(url, i);
          var child := FindChild(At(head, idx).children, Param(PARAM_TRAITS[k].0));
          idx := Descend(idx, child, Param(PARAM_TRAITS[k].0), Tokens(url, i), ruleIndex);
          i := i + |PARAM_TRAITS[k].1|;
        } else {
          assert url[i] in url;
          TokensStep(url, i);
          var child := FindChild(At(head, idx).children, Char(url[i]));
          idx := Descend(idx, child, Char(url[i]), Tokens(url, i), ruleIndex);
          i := i + 1;
        }
      }
      var n := At(head, idx);
      ReplaceAt(head, idx, n, n);
      TokensStep(url, i);
      AtEnd(n, Tokens(url, i), ruleIndex);
      if n.ruleIndex != 0 { return false; }
      head := Replace(head, idx, n.(ruleIndex := ruleIndex));
      return true;
    }

    /** `Trie::validate`: it fails if the root is not simple, and else compresses the tree. */
    method Validate() returns (ok: bool)
      modifies this
      ensures ok <==> IsSimple(old(head))
      ensures head == if ok then old(head).(children := OptimizedAll(old(head).children)) else old(head)
    {
      if !IsSimple(head) { return false; }
      var optimized := OptimizeChildren(head);
      head := optimized;
      return true;
    }

    /** The loop over the parameter traits. */
    method FindTrait(url: string, i: nat) returns (k: nat)
      requires TraitAt(url, i, 0) < |PARAM_TRAITS|
      ensures k == TraitAt(url, i, 0)
    {
      k := 0;
      while !SpelledAt(url, i, PARAM_TRAITS[k].1)
        invariant k <= TraitAt(url, i, 0) == TraitAt(url, i, k) < |PARAM_TRAITS|
        decreases |PARAM_TRAITS| - k
      {
        k := k + 1;
      }
    }

    /** The loop over the children of the current node. */
    method FindChild(children: seq<Node>, t: Token) returns (k: nat)
      ensures k == ChildFor(children, t, 0)
    {
      k := 0;
      while k < |children| && !Leads(t, children[k])
        invariant k <= |children| && ChildFor(children, t, 0) == ChildFor(children, t, k)
      {
        k := k + 1;
      }
    }

    /** Moves to the child found, or to a new one. */
    method Descend(idx: seq<nat>, child: nat, t: Token, ghost ts: seq<Token>, ghost rule: nat) returns (r: seq<nat>)
      requires InTree(head, idx) && Unoptimized(At(head, idx))
      requires ts != [] && ts[0] == t && (t.Param? ==> !t.t.MAX?) && (t.Char? ==> t.c != '\0')
      requires child == ChildFor(At(head, idx).children, t, 0)
      modifies this
      ensures InTree(head, r) && Unoptimized(At(head, r))
      ensures RuleAt(At(head, r), ts[1..]) == RuleAt(At(old(head), idx), ts)
      ensures Replace(head, r, Insert(At(head, r), ts[1..], rule)) ==
              Replace(old(head), idx, Insert(At(old(head), idx), ts, rule))
      ensures head == old(head) || RuleAt(At(head, r), ts[1..]) == 0
    {
      var n := At(head, idx);
      r := idx + [child];
      if child == |n.children| {
        var m := n.(children := n.children + [NewChild(t)]);
        head := Replace(head, idx, m);
        ReplaceAt(old(head), idx, m, m);
        var x := Insert(NewChild(t), ts[1..], rule);
        StepDown(head, idx, child, x);
        assert m.children[child := x] == n.children + [x];
        ReplaceAt(old(head), idx, m, m.(children := m.children[child := x]));
        RuleAtFresh(NewChild(t), ts[1..]);
      } else {
        StepDown(head, idx, child, Insert(n.children[child], ts[1..], rule));
      }
    }
  }

  lemma AtRoot(n: Node, m: Node)
    ensures InTree(n, []) && At(n, []) == n && Replace(n, [], m) == m
  {
  }

  lemma AtEnd(n: Node, ts: seq<Token>, rule: nat)
    requires ts == []
    ensures RuleAt(n, ts) == n.ruleIndex && Insert(n, ts, rule) == n.(ruleIndex := rule)
  {
  }

  lemma RuleAtFresh(n: Node, ts: seq<Token>)
    requires n.children == [] && n.ruleIndex == 0
    ensures RuleAt(n, ts) == 0
  {
  }
}
