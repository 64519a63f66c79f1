/** Searching the compressed trie is trying every registered pattern and taking the lowest index. */
module RoutingCorrect {
  import opened RoutingPatterns
  import opened RoutingSearch
  import opened RoutingTrie

  datatype Rule = Rule(pattern: string, index: nat)

  predicate Usable(rules: seq<Rule>) {
    forall k :: 0 <= k < |rules| ==> WellFormed(rules[k].pattern) && rules[k].index != 0
  }

  /** No two patterns take the same steps; "<str>" and "<string>" are the same step. */
  predicate Distinct(rules: seq<Rule>)
    requires Usable(rules)
  {
    forall j, k :: 0 <= j < k < |rules| ==> Tokens(rules[j].pattern, 0) != Tokens(rules[k].pattern, 0)
  }

  // ---------------------------------------------------------------- one insertion

  lemma {:induction false} InsertUnoptimized(n: Node, ts: seq<Token>, rule: nat)
    requires Unoptimized(n) && forall t :: t in ts ==> Proper(t)
    ensures Unoptimized(Insert(n, ts, rule))
    ensures Insert(n, ts, rule).key == n.key && Insert(n, ts, rule).param == n.param
    decreases |ts|
  {
    if ts != [] {
      assert ts[0] in ts && forall t :: t in ts[1..] ==> t in ts;
      var k := ChildFor(n.children, ts[0], 0);
      InsertUnoptimized(if k < |n.children| then n.children[k] else NewChild(ts[0]), ts[1..], rule);
    }
  }

  predicate Proper(t: Token) {
    match t
    case Char(c) => c != '\0'
    case Param(p) => !p.MAX?
  }

  lemma {:induction false} TokensProper(pattern: string, i: nat)
    requires i <= |pattern| && WellFormed(pattern)
    ensures forall t :: t in Tokens(pattern, i) ==> Proper(t)
    decreases |pattern| - i
  {
    if i < |pattern| {
      TokensStep(pattern, i);
      assert pattern[i] in pattern;
      if pattern[i] == '<' {
        TraitLength(TraitAt(pattern, i, 0));
        TokensProper(pattern, i + |PARAM_TRAITS[TraitAt(pattern, i, 0)].1|);
      } else {
        TokensProper(pattern, i + 1);
      }
    }
  }

  /** Different steps lead to different children. */
  lemma OneLeads(n: Node, k: nat, t: Token, u: Token)
    requires Unoptimized(n) && k < |n.children| && Leads(t, n.children[k]) && t != u
    requires Proper(t) && Proper(u)
    ensures !Leads(u, n.children[k])
  {
    assert n.children[k] in n.children;
  }

  lemma {:induction false} ChildForChanged(cs: seq<Node>, cs2: seq<Node>, t: Token, from: nat)
    requires from <= |cs| <= |cs2|
    requires forall i :: 0 <= i < |cs| ==> Leads(t, cs2[i]) == Leads(t, cs[i])
    ensures ChildFor(cs, t, from) < |cs| ==> ChildFor(cs2, t, from) == ChildFor(cs, t, from)
    ensures ChildFor(cs, t, from) == |cs| ==> ChildFor(cs2, t, from) == ChildFor(cs2, t, |cs|)
    decreases |cs| - from
  {
    if from < |cs| && !Leads(t, cs[from]) { ChildForChanged(cs, cs2, t, from + 1); }
  }

  /** Insertion changes the rule of its own pattern and of no other. */
  lemma {:induction false} RuleAfterInsert(n: Node, ts: seq<Token>, rule: nat, us: seq<Token>)
    requires Unoptimized(n) && (forall t :: t in ts ==> Proper(t)) && forall t :: t in us ==> Proper(t)
    ensures RuleAt(Insert(n, ts, rule), us) == if us == ts then rule else RuleAt(n, us)
    decreases |ts|
  {
    if ts == [] || us == [] {
    } else {
      assert ts[0] in ts && forall t :: t in ts[1..] ==> t in ts;
      assert us[0] in us && forall t :: t in us[1..] ==> t in us;
      assert us == ts <==> us[0] == ts[0] && us[1..] == ts[1..];
      var k := ChildFor(n.children, ts[0], 0);
      var c := if k < |n.children| then n.children[k] else NewChild(ts[0]);
      var m := Insert(c, ts[1..], rule);
      var after := Insert(n, ts, rule).children;
      InsertUnoptimized(c, ts[1..], rule);
      assert after[k] == m;
      forall i | 0 <= i < |n.children|
        ensures Leads(us[0], after[i]) == Leads(us[0], n.children[i])
      {
      }
      ChildForChanged(n.children, after, us[0], 0);
      RuleAfterInsert(c, ts[1..], rule, us[1..]);
      if us[0] == ts[0] {
        assert Leads(us[0], after[k]);
        if k == |n.children| { RuleAtFresh(c, us[1..]); }
      } else if k < |n.children| {
        OneLeads(n, k, ts[0], us[0]);
      } else {
        assert !Leads(us[0], m);
      }
    }
  }

  // ---------------------------------------------------------------- insertion and search

  /** The candidate one pattern contributes. */
  function Single(rule: nat, m: Match): set<Found> {
    match m
    case NoMatch => {}
    case Match(ps) => {Found(rule, ps)}
  }

  /** Adding a pattern adds exactly its own match to what a search can find. */
  lemma {:induction false} InsertCands(d: Strtod, n: Node, ts: seq<Token>, rule: nat, url: string, pos: nat, ps: Params)
    requires pos <= |url| && rule != 0 && Unoptimized(n) && RuleAt(n, ts) == 0
    requires forall t :: t in ts ==> Proper(t)
    ensures Cands(d, Insert(n, ts, rule), url, pos, ps) ==
            Cands(d, n, url, pos, ps) + Single(rule, MatchFrom(d, ts, url, pos, ps))
    decreases |ts|
  {
    if ts != [] && pos < |url| {
      assert ts[0] in ts && forall t :: t in ts[1..] ==> t in ts;
      var k := ChildFor(n.children, ts[0], 0);
      if k < |n.children| {
        assert n.children[k] in n.children;
        InsertEnter(d, n.children[k], ts, rule, url, pos, ps);
        CandsOfUpdate(d, n.children, k, Insert(n.children[k], ts[1..], rule), url, pos, ps);
      } else {
        var c := NewChild(ts[0]);
        RuleAtFresh(c, ts[1..]);
        InsertEnter(d, c, ts, rule, url, pos, ps);
        CandsOfAppend(d, n.children, [Insert(c, ts[1..], rule)], url, pos, ps);
        CandsOfOne(d, Insert(c, ts[1..], rule), url, pos, ps);
        FreshEnter(d, c, url, pos, ps);
      }
    }
  }

  lemma {:induction false} InsertEnter(d: Strtod, c: Node, ts: seq<Token>, rule: nat, url: string, pos: nat, ps: Params)
    requires ts != [] && pos < |url| && rule != 0 && Leads(ts[0], c) && Unoptimized(c) && RuleAt(c, ts[1..]) == 0
    requires if c.param.MAX? then |c.key| == 1 && c.key[0] != '\0' else c.key == ""
    requires forall t :: t in ts ==> Proper(t)
    ensures Enter(d, Insert(c, ts[1..], rule), url, pos, ps) ==
            Enter(d, c, url, pos, ps) + Single(rule, MatchFrom(d, ts, url, pos, ps))
    decreases |ts|, 0
  {
    var m := Insert(c, ts[1..], rule);
    assert ts[0] in ts && forall t :: t in ts[1..] ==> t in ts;
    InsertUnoptimized(c, ts[1..], rule);
    match ts[0] {
      case Char(x) =>
        assert SpelledAt(url, pos, c.key) <==> url[pos] == x;
        InsertCands(d, c, ts[1..], rule, url, pos + 1, ps);
      case Param(t) =>
        var h := Consume(t, d, url, pos);
        if h.Hit? { InsertCands(d, c, ts[1..], rule, url, h.end, Push(ps, h.value)); }
    }
  }

  lemma {:induction false} CandsOfUpdate(d: Strtod, cs: seq<Node>, k: nat, m: Node, url: string, pos: nat, ps: Params)
    requires pos < |url| && k < |cs| && Enter(d, cs[k], url, pos, ps) <= Enter(d, m, url, pos, ps)
    ensures CandsOf(d, cs[k := m], url, pos, ps) == CandsOf(d, cs, url, pos, ps) + Enter(d, m, url, pos, ps)
    ensures Enter(d, cs[k], url, pos, ps) <= CandsOf(d, cs, url, pos, ps)
  {
    if k == 0 {
      assert cs[0 := m][1..] == cs[1..];
    } else {
      assert cs[k := m][1..] == cs[1..][k - 1 := m];
      CandsOfUpdate(d, cs[1..], k - 1, m, url, pos, ps);
    }
  }

  lemma FreshEnter(d: Strtod, c: Node, url: string, pos: nat, ps: Params)
    requires pos < |url| && c.children == [] && c.ruleIndex == 0
    ensures Enter(d, c, url, pos, ps) == {}
  {
    if c.param.MAX? {
      if SpelledAt(url, pos, c.key) { assert Cands(d, c, url, pos + |c.key|, ps) == {}; }
    } else {
      var h := Consume(c.param, d, url, pos);
      if h.Hit? { assert Cands(d, c, url, h.end, Push(ps, h.value)) == {}; }
    }
  }

  // ---------------------------------------------------------------- whole lists of patterns

  /** The tree the patterns build, one after the other. */
  function TreeOf(rules: seq<Rule>): Node
    requires Usable(rules)
  {
    if rules == [] then NEW_NODE
    else
      var n := |rules| - 1;
      Insert(TreeOf(rules[..n]), Tokens(rules[n].pattern, 0), rules[n].index)
  }

  /** Trying one pattern on a URL. */
  function Try(d: Strtod, rule: Rule, url: string): Match
    requires WellFormed(rule.pattern)
  {
    MatchFrom(d, Tokens(rule.pattern, 0), url, 0, NO_PARAMS)
  }

  /** Trying them all: each rule that matches, with what it captures. */
  function Matches(d: Strtod, rules: seq<Rule>, url: string): set<Found>
    requires Usable(rules)
  {
    set k | 0 <= k < |rules| && Try(d, rules[k], url).Match? :: Found(rules[k].index, Try(d, rules[k], url).ps)
  }

  lemma {:induction false} TreeRules(rules: seq<Rule>, us: seq<Token>)
    requires Usable(rules) && forall t :: t in us ==> Proper(t)
    ensures Unoptimized(TreeOf(rules))
    ensures RuleAt(TreeOf(rules), us) == 0 <==>
            forall k :: 0 <= k < |rules| ==> Tokens(rules[k].pattern, 0) != us
  {
    hide Tokens, Insert, RuleAt, Unoptimized, WellFormed;
    EmptyTree(us);
    if rules != [] {
      var n := |rules| - 1;
      var ts := Tokens(rules[n].pattern, 0);
      TokensProper(rules[n].pattern, 0);
      TreeRules(rules[..n], us);
      InsertUnoptimized(TreeOf(rules[..n]), ts, rules[n].index);
      RuleAfterInsert(TreeOf(rules[..n]), ts, rules[n].index, us);
      assert forall k :: 0 <= k < n ==> rules[..n][k] == rules[k];
    }
  }

  lemma EmptyTree(us: seq<Token>)
    ensures Unoptimized(NEW_NODE) && RuleAt(NEW_NODE, us) == 0
  {
  }

  lemma {:induction false} TreeCands(d: Strtod, rules: seq<Rule>, url: string)
    requires Usable(rules) && Distinct(rules)
    ensures Cands(d, TreeOf(rules), url, 0, NO_PARAMS) == Matches(d, rules, url)
  {
    if rules == [] {
    } else {
      var n := |rules| - 1;
      var ts := Tokens(rules[n].pattern, 0);
      TokensProper(rules[n].pattern, 0);
      TreeCands(d, rules[..n], url);
      TreeRules(rules[..n], ts);
      assert forall k :: 0 <= k < n ==> rules[..n][k] == rules[k];
      InsertCands(d, TreeOf(rules[..n]), ts, rules[n].index, url, 0, NO_PARAMS);
      MatchesMore(d, rules, url);
    }
  }

  lemma MatchesMore(d: Strtod, rules: seq<Rule>, url: string)
    requires Usable(rules) && rules != []
    ensures Matches(d, rules, url) ==
            Matches(d, rules[..|rules| - 1], url) +
            Single(rules[|rules| - 1].index, Try(d, rules[|rules| - 1], url))
  {
    var n := |rules| - 1;
    var a, b, c := Matches(d, rules, url), Matches(d, rules[..n], url), Single(rules[n].index, Try(d, rules[n], url));
    forall f | f in a
      ensures f in b + c
    {
      var k :| 0 <= k < |rules| && Try(d, rules[k], url).Match? && f == Found(rules[k].index, Try(d, rules[k], url).ps);
      if k < n { assert rules[..n][k] == rules[k]; }
    }
    forall f | f in b + c
      ensures f in a
    {
      if f in b {
        var k :| 0 <= k < n && Try(d, rules[..n][k], url).Match? &&
          f == Found(rules[..n][k].index, Try(d, rules[..n][k], url).ps);
        assert rules[..n][k] == rules[k];
      } else {
        assert Try(d, rules[n], url).Match?;
      }
    }
  }

  /** `Trie::optimize`, as a function: the nodes below the root are compressed. */
  function OptimizedTree(head: Node): Node {
    head.(children := OptimizedAll(head.children))
  }

  lemma {:induction false} UnoptimizedKeyed(n: Node)
    requires Unoptimized(n)
    ensures forall c :: c in n.children ==> Keyed(c)
    decreases n
  {
    forall c | c in n.children
      ensures Keyed(c)
    {
      UnoptimizedKeyed(c);
    }
  }

  /** The theorem: what the compressed tree can find is what trying every pattern finds. */
  lemma SearchIsScan(d: Strtod, rules: seq<Rule>, url: string)
    requires Usable(rules) && Distinct(rules)
    ensures Cands(d, OptimizedTree(TreeOf(rules)), url, 0, NO_PARAMS) == Matches(d, rules, url)
  {
    var head := TreeOf(rules);
    TreeRules(rules, []);
    UnoptimizedKeyed(head);
    if url != "" { OptimizedAllCands(d, head.children, url, 0, NO_PARAMS); }
    TreeCands(d, rules, url);
  }

  /** When the winning index is that of one pattern only, the captures are that pattern's. */
  lemma WinnerCaptures(d: Strtod, rules: seq<Rule>, url: string, r: Found, k: nat)
    requires Usable(rules) && Best(r, Matches(d, rules, url))
    requires k < |rules| && rules[k].index == r.ruleIndex
    requires forall j :: 0 <= j < |rules| && j != k ==> rules[j].index != r.ruleIndex
    ensures Try(d, rules[k], url) == Match(r.ps)
  {
    assert r in Matches(d, rules, url);
  }

  /** Index 0 is the answer exactly when no pattern matches. */
  lemma NotFound(d: Strtod, rules: seq<Rule>, url: string, r: Found)
    requires Usable(rules) && Best(r, Matches(d, rules, url))
    ensures r.ruleIndex == 0 <==> forall k :: 0 <= k < |rules| ==> Try(d, rules[k], url).NoMatch?
    ensures forall k :: 0 <= k < |rules| && Try(d, rules[k], url).Match? ==> 0 < r.ruleIndex <= rules[k].index
  {
    forall k | 0 <= k < |rules| && Try(d, rules[k], url).Match?
      ensures 0 < r.ruleIndex <= rules[k].index
    {
      assert Found(rules[k].index, Try(d, rules[k], url).ps) in Matches(d, rules, url);
    }
    if r.ruleIndex != 0 {
      assert r in Matches(d, rules, url);
    }
  }

  // ---------------------------------------------------------------- the router

  lemma TreeNone()
    ensures TreeOf([]) == NEW_NODE
  {
  }

  lemma TreeMore(rules: seq<Rule>, i: nat)
    requires Usable(rules) && i < |rules|
    ensures TreeOf(rules[..i + 1]) == Insert(TreeOf(rules[..i]), Tokens(rules[i].pattern, 0), rules[i].index)
  {
    assert rules[..i + 1][..i] == rules[..i];
  }

  /** What the rules themselves check before they are added. */
  predicate Slashed(rules: seq<Rule>) {
    forall k :: 0 <= k < |rules| ==> rules[k].pattern != "" && rules[k].pattern[0] == '/'
  }

  /** At the root there is at most the step "/". */
  predicate SlashRoot(n: Node) {
    && n.ruleIndex == 0 && n.param.MAX? && |n.children| <= 1
    && forall c :: c in n.children ==> c.key == "/" && c.param.MAX?
  }

  lemma {:induction false} InsertKeyed(n: Node, ts: seq<Token>, rule: nat)
    ensures Insert(n, ts, rule).key == n.key && Insert(n, ts, rule).param == n.param
  {
  }

  lemma {:induction false} InsertAtRoot(n: Node, ts: seq<Token>, rule: nat)
    requires SlashRoot(n) && ts != [] && ts[0] == Char('/')
    ensures SlashRoot(Insert(n, ts, rule))
  {
    hide Insert;
    var k := ChildFor(n.children, ts[0], 0);
    InsertKeyed(if k < |n.children| then n.children[k] else NewChild(ts[0]), ts[1..], rule);
    InsertStep(n, ts, rule);
  }

  lemma InsertStep(n: Node, ts: seq<Token>, rule: nat)
    requires ts != []
    ensures
      var k := ChildFor(n.children, ts[0], 0);
      Insert(n, ts, rule) ==
      n.(children := if k < |n.children| then n.children[k := Insert(n.children[k], ts[1..], rule)]
                     else n.children + [Insert(NewChild(ts[0]), ts[1..], rule)])
  {
  }

  /** The root stays simple, so its check never fails. */
  lemma {:induction false} TreeSlashed(rules: seq<Rule>)
    requires Usable(rules) && Slashed(rules)
    ensures SlashRoot(TreeOf(rules))
  {
    hide Tokens, Insert, WellFormed;
    if rules == [] {
      TreeNone();
    } else {
      var n := |rules| - 1;
      assert forall k :: 0 <= k < n ==> rules[..n][k] == rules[k];
      TreeSlashed(rules[..n]);
      TokensStep(rules[n].pattern, 0);
      InsertAtRoot(TreeOf(rules[..n]), Tokens(rules[n].pattern, 0), rules[n].index);
    }
  }

  /** Registers patterns in order and compresses the tree. The source throws at the first rule that does
      not begin with "/" and at the first duplicate; that the root is not simple cannot happen. */
  method BuildTrie(rules: seq<Rule>) returns (trie: Trie, ok: bool)
    requires Usable(rules)
    ensures ok <==> Slashed(rules) && Distinct(rules)
    ensures ok ==> trie.head == OptimizedTree(TreeOf(rules))
  {
    hide Tokens, Insert, RuleAt, Unoptimized, WellFormed, TreeOf, OptimizedAll;
    trie := new Trie();
    TreeNone();
    var i := 0;
    while i < |rules|
      invariant i <= |rules| && fresh(trie)
      invariant Slashed(rules[..i]) && Distinct(rules[..i]) && trie.head == TreeOf(rules[..i])
    {
      assert forall k :: 0 <= k < i ==> rules[..i][k] == rules[k];
      if rules[i].pattern == "" || rules[i].pattern[0] != '/' { return trie, false; }
      ghost var ts := Tokens(rules[i].pattern, 0);
      TokensProper(rules[i].pattern, 0);
      TreeRules(rules[..i], ts);
      TreeMore(rules, i);
      ok := trie.Add(rules[i].pattern, rules[i].index);
      if !ok { return; }
      i := i + 1;
    }
    assert rules[..i] == rules;
    TreeSlashed(rules);
    ok := trie.Validate();
  }

  /** One request against a built trie. */
  method FindRule(d: Strtod, trie: Trie, ghost rules: seq<Rule>, url: string) returns (r: Found)
    requires Usable(rules) && Distinct(rules) && trie.head == OptimizedTree(TreeOf(rules))
    ensures Best(r, Matches(d, rules, url))
  {
    var params := new RoutingParams();
    r := Find(d, url, trie.head, 0, params);
    SearchIsScan(d, rules, url);
  }
}
