/** Compiling a mustache text: one pass that reads tags and links blocks, then the removal of
    standalone lines. */
module MustacheParse {
  import opened MustacheTemplates
  import opened MustacheScan

  // ---------------------------------------------------------------- linking, declaratively

  /** `a` is the tag, with a link if it opens or closes a block. */
  predicate IsLink(a: Action, tag: Action) {
    if Opens(tag) then a == tag.(pos := a.pos, hasEnd := true)
    else if tag.kind.CloseBlock? then a == tag.(pos := a.pos)
    else a == tag
  }

  predicate IsLinking(actions: seq<Action>, tags: seq<Action>) {
    |actions| == |tags| && forall i :: 0 <= i < |tags| ==> IsLink(actions[i], tags[i])
  }

  /** The blocks of a text can be matched up: some linking of its tags is nested. */
  ghost predicate Matched(body: string, tags: seq<Action>, actions: seq<Action>) {
    && IsLinking(actions, tags)
    && InText(body, actions)
    && |tags| > 0
    && Nested(body, actions, 0, |actions| - 1)
    && !Opens(tags[|tags| - 1]) && !tags[|tags| - 1].kind.CloseBlock?
  }

  ghost predicate Compiles(body: string) {
    var scan := ScanFrom(body, 0);
    scan.Scan? && exists actions :: Matched(body, scan.tags, actions)
  }

  // ---------------------------------------------------------------- linking, by a stack

  datatype Link = Unmatched | Linked(actions: seq<Action>)

  predicate Below(blocks: seq<nat>, n: nat) { forall i :: 0 <= i < |blocks| ==> blocks[i] < n }

  function LinkRest(body: string, rest: seq<Action>, actions: seq<Action>, blocks: seq<nat>): Link
    requires InText(body, rest) && InText(body, actions)
    requires Below(blocks, |actions|)
    decreases |rest|, 0
  {
    if rest == [] then if blocks == [] then Linked(actions) else Unmatched
    else
      assert rest[0] in rest && forall a :: a in rest[1..] ==> a in rest;
      LinkNext(body, rest[0], rest[1..], actions, blocks)
  }

  /** Links the block opened at `b` and the closing tag with each other. */
  function ClosedAt(actions: seq<Action>, b: nat, tag: Action): (r: seq<Action>)
    requires b < |actions|
    ensures |r| == |actions| + 1
  {
    actions[b := actions[b].(pos := |actions|, hasEnd := true)] + [tag.(pos := b)]
  }

  lemma ClosedInText(body: string, actions: seq<Action>, b: nat, tag: Action)
    requires InText(body, actions) && b < |actions| && tag.start <= |body|
    ensures InText(body, ClosedAt(actions, b, tag))
  {
    assert actions[b] in actions;
    forall a | a in ClosedAt(actions, b, tag)
      ensures a.start <= |body|
    {
      if a !in actions { assert a.start == tag.start || a.start == actions[b].start; }
    }
  }

  /** One tag, and then the rest. */
  function LinkNext(body: string, tag: Action, rest: seq<Action>, actions: seq<Action>, blocks: seq<nat>): Link
    requires tag.start <= |body| && InText(body, rest) && InText(body, actions)
    requires Below(blocks, |actions|)
    decreases |rest|, 1
  {
    if Opens(tag) then LinkRest(body, rest, actions + [tag], blocks + [|actions|])
    else if tag.kind.CloseBlock? then
      if blocks == [] then Unmatched
      else
        var b := blocks[|blocks| - 1];
        assert actions[b] in actions;
        ClosedInText(body, actions, b, tag);
        if Name(body, tag) != Name(body, actions[b]) then Unmatched
        else LinkRest(body, rest, ClosedAt(actions, b, tag), blocks[..|blocks| - 1])
    else LinkRest(body, rest, actions + [tag], blocks)
  }

  /** Linking the tags from number `lo` on. */
  function LinkFrom(body: string, tags: seq<Action>, lo: nat, actions: seq<Action>, blocks: seq<nat>): Link
    requires lo <= |tags| && InText(body, tags) && InText(body, actions) && Below(blocks, |actions|)
  {
    assert forall a :: a in tags[lo..] ==> a in tags;
    LinkRest(body, tags[lo..], actions, blocks)
  }

  lemma LinkMore(body: string, tags: seq<Action>, lo: nat, actions: seq<Action>, blocks: seq<nat>)
    requires lo < |tags| && InText(body, tags) && InText(body, actions) && Below(blocks, |actions|)
    requires !tags[lo].kind.CloseBlock?
    ensures var after := if Opens(tags[lo]) then blocks + [|actions|] else blocks;
      && Below(after, |actions| + 1) && InText(body, actions + [tags[lo]])
      && LinkFrom(body, tags, lo, actions, blocks) == LinkFrom(body, tags, lo + 1, actions + [tags[lo]], after)
  {
    assert tags[lo] in tags;
    assert tags[lo..][0] == tags[lo] && tags[lo..][1..] == tags[lo + 1..];
    assert LinkFrom(body, tags, lo, actions, blocks) == LinkNext(body, tags[lo], tags[lo + 1..], actions, blocks);
  }

  lemma LinkClose(body: string, tags: seq<Action>, lo: nat, actions: seq<Action>, blocks: seq<nat>, b: nat)
    requires lo < |tags| && InText(body, tags) && InText(body, actions) && b < |actions| && Below(blocks, b)
    requires tags[lo].start <= |body| && actions[b].start <= |body|
    requires tags[lo].kind.CloseBlock? && Name(body, tags[lo]) == Name(body, actions[b])
    ensures Below(blocks + [b], |actions|) && InText(body, ClosedAt(actions, b, tags[lo]))
    ensures LinkFrom(body, tags, lo, actions, blocks + [b]) ==
            LinkFrom(body, tags, lo + 1, ClosedAt(actions, b, tags[lo]), blocks)
  {
    ClosedInText(body, actions, b, tags[lo]);
    assert tags[lo] in tags;
    assert tags[lo..][0] == tags[lo] && tags[lo..][1..] == tags[lo + 1..];
    assert (blocks + [b])[..|blocks|] == blocks;
    assert LinkFrom(body, tags, lo, actions, blocks + [b]) ==
           LinkNext(body, tags[lo], tags[lo + 1..], actions, blocks + [b]);
  }

  /** The linked actions up to `hi`, after those already there. */
  function Joined(actions: seq<Action>, links: seq<Action>, hi: nat): (r: seq<Action>)
    requires |actions| <= hi <= |links|
    ensures |r| == hi
  {
    actions + links[|actions|..hi]
  }

  lemma JoinedSame(body: string, actions: seq<Action>, links: seq<Action>, mid: nat, hi: nat)
    requires |actions| <= mid <= hi <= |links| && InText(body, actions) && InText(body, links)
    ensures Joined(actions, links, |actions|) == actions
    ensures Joined(Joined(actions, links, mid), links, hi) == Joined(actions, links, hi)
    ensures InText(body, Joined(actions, links, hi))
  {
    forall a | a in Joined(actions, links, hi)
      ensures a.start <= |body|
    {
      if a !in actions { assert a in links; }
    }
  }

  /** Opening tag, inside and closing tag together are the linked actions. */
  lemma ClosedIs(body: string, tags: seq<Action>, links: seq<Action>, p: nat, actions: seq<Action>)
    requires IsLinking(links, tags) && |actions| < p < |tags| && Opens(links[|actions|])
    requires links[|actions|].pos == p && links[p].kind.CloseBlock? && links[p].pos == |actions|
    ensures
      var lo := |actions|;
      var inner := Joined(actions + [tags[lo]], links, p);
      && Opens(tags[lo]) && tags[p].kind.CloseBlock?
      && inner[lo] == tags[lo]
      && ClosedAt(inner, lo, tags[p]) == Joined(actions, links, p + 1)
  {
    var lo := |actions|;
    var inner := Joined(actions + [tags[lo]], links, p);
    assert IsLink(links[lo], tags[lo]) && IsLink(links[p], tags[p]);
    var closed := ClosedAt(inner, lo, tags[p]);
    assert closed[lo] == links[lo] && closed[p] == links[p];
  }

  lemma SameName(body: string, links: seq<Action>, tags: seq<Action>, lo: nat, p: nat)
    requires InText(body, tags) && InText(body, links) && IsLinking(links, tags) && lo < |tags| && p < |tags|
    requires Name(body, links[p]) == Name(body, links[lo])
    ensures Name(body, tags[p]) == Name(body, tags[lo])
  {
  }

  lemma NestedCase(body: string, a: seq<Action>, lo: nat, hi: nat)
    requires hi <= |a| && InText(body, a) && Nested(body, a, lo, hi)
    ensures lo <= hi
    ensures lo < hi && Opens(a[lo]) ==>
              var p := a[lo].pos;
              && lo < p < hi && a[lo].hasEnd && a[p].kind.CloseBlock? && a[p].pos == lo
              && a[p].start <= |body| && a[lo].start <= |body| && Name(body, a[p]) == Name(body, a[lo])
              && Nested(body, a, lo + 1, p) && Nested(body, a, p + 1, hi)
    ensures lo < hi && !Opens(a[lo]) ==> !a[lo].kind.CloseBlock? && Nested(body, a, lo + 1, hi)
  {
  }

  /** Any nested linking is the one the stack finds: over a nested stretch the stack comes back and
      the links come out. */
  lemma {:induction false} LinkNested(body: string, tags: seq<Action>, links: seq<Action>, hi: nat,
                                      actions: seq<Action>, blocks: seq<nat>)
    requires InText(body, tags) && InText(body, links) && IsLinking(links, tags)
    requires hi <= |tags| && Nested(body, links, |actions|, hi)
    requires InText(body, actions) && Below(blocks, |actions|)
    ensures |actions| <= hi <= |links| && InText(body, Joined(actions, links, hi)) && Below(blocks, hi)
    ensures LinkFrom(body, tags, |actions|, actions, blocks) ==
            LinkFrom(body, tags, hi, Joined(actions, links, hi), blocks)
    decreases hi - |actions|
  {
    hide LinkFrom, Nested, Name, InText, Joined, ClosedAt;
    var lo := |actions|;
    NestedCase(body, links, lo, hi);
    JoinedSame(body, actions, links, lo, hi);
    if lo < hi {
      if Opens(links[lo]) {
        var p := links[lo].pos;
        var inner := Joined(actions + [tags[lo]], links, p);
        ClosedIs(body, tags, links, p, actions);
        LinkMore(body, tags, lo, actions, blocks);
        LinkNested(body, tags, links, p, actions + [tags[lo]], blocks + [lo]);
        SameName(body, links, tags, lo, p);
        LinkClose(body, tags, p, inner, blocks, lo);
        LinkNested(body, tags, links, hi, Joined(actions, links, p + 1), blocks);
        JoinedSame(body, actions, links, p + 1, hi);
      } else {
        LinkMore(body, tags, lo, actions, blocks);
        LinkNested(body, tags, links, hi, actions + [tags[lo]], blocks);
        JoinedSame(body, actions, links, lo + 1, hi);
        JoinedOne(actions, links);
      }
    }
  }

  lemma JoinedOne(actions: seq<Action>, links: seq<Action>)
    requires |actions| < |links|
    ensures Joined(actions, links, |actions| + 1) == actions + [links[|actions|]]
  {
  }

  lemma SameLength(tags: seq<Action>, links: seq<Action>)
    requires IsLinking(links, tags)
    ensures |links| == |tags|
  {
  }

  lemma LastLink(tags: seq<Action>, links: seq<Action>)
    requires IsLinking(links, tags) && |tags| > 0
    requires !Opens(tags[|tags| - 1]) && !tags[|tags| - 1].kind.CloseBlock?
    ensures Joined([], links, |tags| - 1) + [tags[|tags| - 1]] == links
  {
    assert IsLink(links[|tags| - 1], tags[|tags| - 1]);
  }

  lemma {:induction false} LinkFinds(body: string, tags: seq<Action>, links: seq<Action>)
    requires InText(body, tags) && Matched(body, tags, links)
    ensures LinkRest(body, tags, [], []) == Linked(links)
  {
    hide Nested, Name, IsLinking;
    SameLength(tags, links);
    var n := |tags| - 1;
    LinkNested(body, tags, links, n, [], []);
    assert tags[0..] == tags;
    LinkMore(body, tags, n, Joined([], links, n), []);
    LastLink(tags, links);
    assert tags[n + 1..] == [];
  }

  /** There is at most one way to link the tags of a text. */
  lemma LinksAreUnique(body: string, tags: seq<Action>, a: seq<Action>, b: seq<Action>)
    requires InText(body, tags) && Matched(body, tags, a) && Matched(body, tags, b)
    ensures a == b
  {
    LinkFinds(body, tags, a);
    LinkFinds(body, tags, b);
  }

  // ---------------------------------------------------------------- the state of the pass

  /** The actions so far, with the positions of the blocks still open. */
  ghost predicate OpenBlocks(body: string, actions: seq<Action>, blocks: seq<nat>, hi: nat)
    requires hi <= |actions| && InText(body, actions)
    decreases |blocks|
  {
    if blocks == [] then Nested(body, actions, 0, hi)
    else
      var b := blocks[|blocks| - 1];
      && b < hi && Opens(actions[b])
      && Nested(body, actions, b + 1, hi)
      && OpenBlocks(body, actions, blocks[..|blocks| - 1], b)
  }

  lemma {:induction false} OpenBlocksFrame(body: string, a: seq<Action>, b: seq<Action>, blocks: seq<nat>, hi: nat)
    requires hi <= |a| && hi <= |b| && InText(body, a) && InText(body, b) && a[..hi] == b[..hi]
    requires OpenBlocks(body, a, blocks, hi)
    ensures OpenBlocks(body, b, blocks, hi)
    decreases |blocks|
  {
    if blocks == [] {
      NestedFrame(body, a, b, 0, hi);
    } else {
      var k := blocks[|blocks| - 1];
      assert a[k] == a[..hi][k] == b[..hi][k] == b[k];
      assert a[k + 1..hi] == a[..hi][k + 1..] == b[k + 1..hi];
      NestedFrame(body, a, b, k + 1, hi);
      assert a[..k] == a[..hi][..k] == b[..k];
      OpenBlocksFrame(body, a, b, blocks[..|blocks| - 1], k);
    }
  }

  /** A nested stretch at the end belongs to the innermost open block. */
  lemma OpenBlocksJoin(body: string, actions: seq<Action>, blocks: seq<nat>, mid: nat, hi: nat)
    requires mid <= hi <= |actions| && InText(body, actions)
    requires OpenBlocks(body, actions, blocks, mid) && Nested(body, actions, mid, hi)
    ensures OpenBlocks(body, actions, blocks, hi)
  {
    if blocks == [] {
      NestedJoin(body, actions, 0, mid, hi);
    } else {
      NestedJoin(body, actions, blocks[|blocks| - 1] + 1, mid, hi);
    }
  }

  lemma AddSimple(body: string, actions: seq<Action>, blocks: seq<nat>, tag: Action)
    requires InText(body, actions) && tag.start <= |body| && OpenBlocks(body, actions, blocks, |actions|)
    requires !Opens(tag) && !tag.kind.CloseBlock?
    ensures InText(body, actions + [tag])
    ensures OpenBlocks(body, actions + [tag], blocks, |actions| + 1)
  {
    OpenBlocksFrame(body, actions, actions + [tag], blocks, |actions|);
    OpenBlocksJoin(body, actions + [tag], blocks, |actions|, |actions| + 1);
  }

  lemma AddOpen(body: string, actions: seq<Action>, blocks: seq<nat>, tag: Action)
    requires InText(body, actions) && tag.start <= |body| && OpenBlocks(body, actions, blocks, |actions|)
    requires Opens(tag)
    ensures InText(body, actions + [tag])
    ensures OpenBlocks(body, actions + [tag], blocks + [|actions|], |actions| + 1)
  {
    OpenBlocksFrame(body, actions, actions + [tag], blocks, |actions|);
    assert (blocks + [|actions|])[..|blocks|] == blocks;
  }

  lemma AddClose(body: string, actions: seq<Action>, blocks: seq<nat>, tag: Action)
    requires InText(body, actions) && tag.start <= |body| && OpenBlocks(body, actions, blocks, |actions|)
    requires tag.kind.CloseBlock? && blocks != []
    requires Name(body, tag) == Name(body, actions[blocks[|blocks| - 1]])
    ensures
      var b := blocks[|blocks| - 1];
      var after := ClosedAt(actions, b, tag);
      InText(body, after) && OpenBlocks(body, after, blocks[..|blocks| - 1], |actions| + 1)
  {
    var b, n := blocks[|blocks| - 1], |actions|;
    var after := ClosedAt(actions, b, tag);
    assert actions[b] in actions;
    ClosedInText(body, actions, b, tag);
    assert after[b + 1..n] == actions[b + 1..n];
    NestedFrame(body, actions, after, b + 1, n);
    assert after[..b] == actions[..b];
    OpenBlocksFrame(body, actions, after, blocks[..|blocks| - 1], b);
    assert Nested(body, after, n + 1, n + 1);
    OpenBlocksJoin(body, after, blocks[..|blocks| - 1], b, n + 1);
  }

  /** Exactly the open blocks wait for their end. */
  predicate Waiting(actions: seq<Action>, tags: seq<Action>, blocks: seq<nat>) {
    && |actions| == |tags|
    && Below(blocks, |actions|)
    && (forall i :: 0 <= i < |blocks| ==> Opens(actions[blocks[i]]))
    && (forall i :: 0 <= i < |tags| ==>
          if i in blocks then actions[i] == tags[i] && !actions[i].hasEnd else IsLink(actions[i], tags[i]))
    && (forall i, j :: 0 <= i < j < |blocks| ==> blocks[i] < blocks[j])
  }

  lemma WaitMore(actions: seq<Action>, tags: seq<Action>, blocks: seq<nat>, tag: Action)
    requires Waiting(actions, tags, blocks) && !tag.hasEnd
    ensures Opens(tag) ==> Waiting(actions + [tag], tags + [tag], blocks + [|actions|])
    ensures !Opens(tag) && !tag.kind.CloseBlock? ==> Waiting(actions + [tag], tags + [tag], blocks)
  {
    assert |actions| !in blocks;
    var more := blocks + [|actions|];
    assert forall i :: i in more <==> i in blocks || i == |actions|;
    assert forall i :: 0 <= i < |blocks| ==> more[i] == blocks[i] < |actions|;
  }

  lemma WaitLess(actions: seq<Action>, tags: seq<Action>, blocks: seq<nat>, tag: Action)
    requires Waiting(actions, tags, blocks) && blocks != [] && tag.kind.CloseBlock?
    ensures
      var b := blocks[|blocks| - 1];
      b < |actions| &&
      Waiting(ClosedAt(actions, b, tag), tags + [tag],
              blocks[..|blocks| - 1])
  {
    var n := |blocks| - 1;
    var b, less := blocks[n], blocks[..n];
    assert b in blocks;
    assert blocks == less + [b];
    assert b !in less;
    assert |actions| !in blocks;
    assert forall i :: i in blocks <==> i in less || i == b;
  }

  /** What the pass keeps: blocks are either linked or waiting, and whatever follows a waiting block
      is nested in it. */
  ghost predicate State(body: string, actions: seq<Action>, tags: seq<Action>, blocks: seq<nat>) {
    && InText(body, actions) && InText(body, tags) && Below(blocks, |actions|)
    && Waiting(actions, tags, blocks)
    && OpenBlocks(body, actions, blocks, |actions|)
  }

  lemma InTextAt(body: string, actions: seq<Action>, i: nat)
    requires InText(body, actions) && i < |actions|
    ensures actions[i].start <= |body|
  {
    assert actions[i] in actions;
  }

  lemma StateFacts(body: string, actions: seq<Action>, tags: seq<Action>, blocks: seq<nat>)
    requires State(body, actions, tags, blocks)
    ensures InText(body, actions) && InText(body, tags) && Below(blocks, |actions|) && |actions| == |tags|
    ensures blocks == [] ==> Nested(body, actions, 0, |actions|) && IsLinking(actions, tags)
  {
  }

  lemma {:induction false} StateMore(body: string, actions: seq<Action>, tags: seq<Action>, blocks: seq<nat>, tag: Action, rest: seq<Action>)
    requires State(body, actions, tags, blocks) && tag.start <= |body| && !tag.hasEnd && !tag.kind.CloseBlock?
    requires InText(body, rest)
    ensures
      var after := if Opens(tag) then blocks + [|actions|] else blocks;
      && State(body, actions + [tag], tags + [tag], after)
      && LinkNext(body, tag, rest, actions, blocks) == LinkRest(body, rest, actions + [tag], after)
  {
    hide Waiting, OpenBlocks, LinkRest;
    WaitMore(actions, tags, blocks, tag);
    if Opens(tag) {
      AddOpen(body, actions, blocks, tag);
    } else {
      AddSimple(body, actions, blocks, tag);
    }
  }

  lemma {:induction false} StateLess(body: string, actions: seq<Action>, tags: seq<Action>, blocks: seq<nat>, tag: Action, rest: seq<Action>)
    requires State(body, actions, tags, blocks) && tag.start <= |body| && tag.kind.CloseBlock? && blocks != []
    requires InText(body, rest)
    ensures
      var b := blocks[|blocks| - 1];
      b < |actions| && actions[b].start <= |body| &&
      if Name(body, tag) != Name(body, actions[b]) then
        LinkNext(body, tag, rest, actions, blocks) == Unmatched
      else
        var after := ClosedAt(actions, b, tag);
        && State(body, after, tags + [tag], blocks[..|blocks| - 1])
        && LinkNext(body, tag, rest, actions, blocks) == LinkRest(body, rest, after, blocks[..|blocks| - 1])
  {
    hide Waiting, OpenBlocks, LinkRest, Name, InText, ClosedAt;
    var b := blocks[|blocks| - 1];
    InTextAt(body, actions, b);
    WaitLess(actions, tags, blocks, tag);
    if Name(body, tag) == Name(body, actions[b]) {
      AddClose(body, actions, blocks, tag);
      InTextMore(body, tags, tag);
    }
  }

  lemma InTextMore(body: string, tags: seq<Action>, tag: Action)
    requires InText(body, tags) && tag.start <= |body|
    ensures InText(body, tags + [tag])
  {
  }

  // ---------------------------------------------------------------- the compiler

  datatype Parsed = Invalid | Compiled(template: Template)

  /** Everything a compiled template is. */
  ghost predicate IsCompiled(body: string, t: Template) {
    var scan := ScanFrom(body, 0);
    && scan.Scan?
    && t.body == body
    && Pieces(body, scan.fragments)
    && t.fragments == Trimmed(body, scan.fragments, scan.tags)
    && exists links :: Matched(body, scan.tags, links) && Partials(body, scan, links, t.actions)
  }

  ghost predicate Partials(body: string, scan: Scan, links: seq<Action>, actions: seq<Action>)
    requires scan.Scan? && |scan.fragments| == |scan.tags| && Pieces(body, scan.fragments)
  {
    && |actions| == |links| == |scan.tags|
    && forall i :: 0 <= i < |links| ==> actions[i] == Indented(body, scan.fragments, scan.tags, links[i], i)
  }

  class Parser {
    var fragments: seq<Range>
    var actions: seq<Action>
    var blockPositions: seq<nat>
    ghost var tags: seq<Action>

    constructor ()
      ensures fragments == [] && actions == [] && blockPositions == [] && tags == []
    {
      fragments, actions, blockPositions, tags := [], [], [], [];
    }

    ghost predicate Valid(body: string)
      reads this
    {
      |fragments| == |tags| && State(body, actions, tags, blockPositions)
    }

    /** Adds one tag that has been read, `rest` being those still to come; fails on a close without
        its block. */
    method Add(body: string, fragment: Range, tag: Action, ghost rest: seq<Action>) returns (ok: bool)
      requires Valid(body) && tag.start <= |body| && !tag.hasEnd && InText(body, rest)
      modifies this
      ensures ok ==> Valid(body) && tags == old(tags) + [tag] && fragments == old(fragments) + [fragment]
      ensures InText(body, old(actions)) && Below(old(blockPositions), |old(actions)|)
      ensures ok ==> InText(body, actions) && Below(blockPositions, |actions|)
      ensures LinkNext(body, tag, rest, old(actions), old(blockPositions)) ==
              if ok then LinkRest(body, rest, actions, blockPositions) else Unmatched
    {
      hide State, Name, LinkRest, LinkNext;
      StateFacts(body, actions, tags, blockPositions);
      ok := true;
      if tag.kind.CloseBlock? {
        if blockPositions == [] {
          NoBlock(body, tag, rest, actions);
          return false;
        }
        StateLess(body, actions, tags, blockPositions, tag, rest);
        var b := blockPositions[|blockPositions| - 1];
        if Name(body, tag) != Name(body, actions[b]) { return false; }
        actions := ClosedAt(actions, b, tag);
        blockPositions := blockPositions[..|blockPositions| - 1];
      } else {
        StateMore(body, actions, tags, blockPositions, tag, rest);
        if Opens(tag) { blockPositions := blockPositions + [|actions|]; }
        actions := actions + [tag];
      }
      fragments := fragments + [fragment];
      tags := tags + [tag];
      StateFacts(body, actions, tags, blockPositions);
    }
  }

  lemma NoBlock(body: string, tag: Action, rest: seq<Action>, actions: seq<Action>)
    requires InText(body, rest) && InText(body, actions) && tag.start <= |body| && tag.kind.CloseBlock?
    ensures LinkNext(body, tag, rest, actions, []) == Unmatched
  {
  }

  lemma NotCompiled(body: string)
    requires var scan := ScanFrom(body, 0);
             scan.Scan? ==> InText(body, scan.tags) && LinkRest(body, scan.tags, [], []) == Unmatched
    ensures !Compiles(body)
  {
    var scan := ScanFrom(body, 0);
    if scan.Scan? {
      forall links | Matched(body, scan.tags, links)
        ensures false
      {
        LinkFinds(body, scan.tags, links);
      }
    }
  }

  method SkipOn(body: string, i: nat) returns (r: nat)
    ensures r == SkipSpaces(body, i)
  {
    r := i;
    while CharAt(body, r) == ' '
      invariant SkipSpaces(body, i) == SkipSpaces(body, r)
      decreases |body| - r
    {
      r := r + 1;
    }
  }

  method SkipBack(body: string, e: nat) returns (r: nat)
    requires e <= |body|
    ensures r == BackSpaces(body, e)
  {
    r := e;
    while r > 0 && body[r - 1] == ' '
      invariant r <= e && BackSpaces(body, e) == BackSpaces(body, r)
    {
      r := r - 1;
    }
  }

  /** The switch on the first character of a tag. */
  method ReadTag(body: string, idx: nat, endIdx: nat) returns (r: Step)
    requires idx < endIdx < |body| && SpelledAt(body, endIdx, CLOSE)
    ensures r == TagAt(body, idx, endIdx)
  {
    var inner := SkipOn(body, idx + 1);
    var outer := SkipOn(body, idx);
    var end := SkipBack(body, endIdx);
    match body[idx] {
      case '#' => return Step(NewAction(OpenBlock, inner, end), endIdx + 2);
      case '/' => return Step(NewAction(CloseBlock, inner, end), endIdx + 2);
      case '^' => return Step(NewAction(ElseBlock, inner, end), endIdx + 2);
      case '!' => return Step(NewAction(Ignore, idx + 1, endIdx), endIdx + 2);
      case '>' => return Step(NewAction(Partial, inner, end), endIdx + 2);
      case '{' =>
        if CharAt(body, endIdx + 2) != '}' { return BadTag; }
        return Step(NewAction(UnescapeTag, inner, end), endIdx + 3);
      case '&' => return Step(NewAction(UnescapeTag, inner, end), endIdx + 2);
      case '=' => return BadTag;
      case _ => return Step(NewAction(Tag, outer, end), endIdx + 2);
    }
  }

  /** "ensure no unmatched tags" */
  method AllMatched(parser: Parser, body: string) returns (ok: bool)
    requires parser.Valid(body)
    ensures ok <==> parser.blockPositions == []
  {
    hide OpenBlocks;
    if parser.blockPositions != [] {
      ghost var b := parser.blockPositions[0];
      assert b in parser.blockPositions;
    }
    for i := 0 to |parser.actions|
      invariant forall k :: 0 <= k < i ==> k !in parser.blockPositions
    {
      assert if i in parser.blockPositions then Opens(parser.actions[i]) && !parser.actions[i].hasEnd
             else Opens(parser.actions[i]) ==> parser.actions[i].hasEnd;
      if Opens(parser.actions[i]) && !parser.actions[i].hasEnd { return false; }
    }
    return true;
  }

  /** "removing standalones": from the last tag to the first, each cutting the piece before it and
      the piece behind it; together exactly the standalone lines of the text as it was. */
  method RemoveStandalones(body: string, fragments: seq<Range>, actions: seq<Action>, ghost tags: seq<Action>)
    returns (f: seq<Range>, a: seq<Action>)
    requires |fragments| == |actions| == |tags| && Pieces(body, fragments)
    requires forall i :: 0 <= i < |tags| ==> actions[i].kind == tags[i].kind
    ensures f == Trimmed(body, fragments, tags)
    ensures |a| == |actions| && forall i :: 0 <= i < |a| ==> a[i] == Indented(body, fragments, tags, actions[i], i)
  {
    hide SpacesBack, SpacesOn, CutFrom, IsStandalone;
    f, a := fragments, actions;
    if |actions| == 0 { return; }
    var i := |actions| - 1;
    CutNone(body, fragments, tags, actions);
    while i > 0
      invariant 0 <= i < |actions| == |f| == |a|
      invariant CutFrom(body, fragments, tags, actions, f, a, i)
    {
      i := i - 1;
      Uncut(body, fragments, tags, actions, f, a, i);
      var j := SkipBackTo(body, f[i].first, f[i].second);
      var k := SkipOnTo(body, f[i + 1].first, f[i + 1].second);
      ghost var wasF, wasA := f, a;
      if IsStandalone(body, a[i].kind, i, |actions|, f[i], f[i + 1], j, k) {
        if a[i].kind.Partial? { a := a[i := a[i].(pos := f[i].second - j)]; }
        f := f[i := f[i].(second := j)];
        if k != f[i + 1].second {
          f := f[i + 1 := f[i + 1].(first := if body[k] == '\n' then k + 1 else k + 2)];
        }
      }
      CutStep(body, fragments, tags, actions, wasF, wasA, f, a, i);
    }
    CutAll(body, fragments, tags, actions, f, a);
  }

  /** The rounds down to tag `i` are done. */
  ghost predicate CutFrom(body: string, fragments: seq<Range>, tags: seq<Action>, actions: seq<Action>,
                          f: seq<Range>, a: seq<Action>, i: nat)
    requires |fragments| == |tags| == |actions| && Pieces(body, fragments)
  {
    && |f| == |a| == |fragments|
    && CutFirsts(body, fragments, tags, f, i)
    && CutSeconds(body, fragments, tags, f, i)
    && (forall k :: 0 <= k < |a| ==>
          a[k] == if k < i then actions[k] else Indented(body, fragments, tags, actions[k], k))
  }

  ghost predicate CutFirsts(body: string, fragments: seq<Range>, tags: seq<Action>, f: seq<Range>, i: nat)
    requires |fragments| == |tags| == |f| && Pieces(body, fragments)
  {
    forall k :: 0 <= k < |f| ==>
      f[k].first == if k <= i then fragments[k].first else TrimmedFirst(body, fragments, tags, k)
  }

  ghost predicate CutSeconds(body: string, fragments: seq<Range>, tags: seq<Action>, f: seq<Range>, i: nat)
    requires |fragments| == |tags| == |f| && Pieces(body, fragments)
  {
    forall k :: 0 <= k < |f| ==>
      f[k].second == if k < i then fragments[k].second else TrimmedSecond(body, fragments, tags, k)
  }

  lemma CutNone(body: string, fragments: seq<Range>, tags: seq<Action>, actions: seq<Action>)
    requires |fragments| == |tags| == |actions| > 0 && Pieces(body, fragments)
    ensures CutFrom(body, fragments, tags, actions, fragments, actions, |tags| - 1)
  {
  }

  lemma CutAll(body: string, fragments: seq<Range>, tags: seq<Action>, actions: seq<Action>,
               f: seq<Range>, a: seq<Action>)
    requires |fragments| == |tags| == |actions| && Pieces(body, fragments)
    requires CutFrom(body, fragments, tags, actions, f, a, 0)
    ensures f == Trimmed(body, fragments, tags)
    ensures |a| == |actions| && forall i :: 0 <= i < |a| ==> a[i] == Indented(body, fragments, tags, actions[i], i)
  {
    if |f| > 0 { assert TrimmedFirst(body, fragments, tags, 0) == fragments[0].first; }
  }

  lemma Uncut(body: string, fragments: seq<Range>, tags: seq<Action>, actions: seq<Action>,
              f: seq<Range>, a: seq<Action>, i: nat)
    requires |fragments| == |tags| == |actions| && Pieces(body, fragments) && i + 1 < |f|
    requires CutFrom(body, fragments, tags, actions, f, a, i + 1)
    ensures f[i] == fragments[i] && a[i] == actions[i]
    ensures f[i + 1] == Range(fragments[i + 1].first, TrimmedSecond(body, fragments, tags, i + 1))
    ensures f[i].first <= f[i].second <= |body| && f[i + 1].first <= f[i + 1].second <= |body|
  {
    ShorterPiece(body, fragments, tags, i + 1);
  }

  /** One round. */
  lemma {:induction false} CutStep(body: string, fragments: seq<Range>, tags: seq<Action>, actions: seq<Action>,
                f: seq<Range>, a: seq<Action>, f2: seq<Range>, a2: seq<Action>, i: nat)
    requires |fragments| == |tags| == |actions| == |f| == |a| && Pieces(body, fragments) && i + 1 < |f|
    requires actions[i].kind == tags[i].kind
    requires CutFrom(body, fragments, tags, actions, f, a, i + 1)
    requires f[i].first <= f[i].second <= |body| && f[i + 1].first <= f[i + 1].second <= |body|
    requires
      var j, k := SpacesBack(body, f[i].first, f[i].second), SpacesOn(body, f[i + 1].first, f[i + 1].second);
      if IsStandalone(body, a[i].kind, i, |f|, f[i], f[i + 1], j, k) then
        && a2 == (if a[i].kind.Partial? then a[i := a[i].(pos := f[i].second - j)] else a)
        && f2 == f[i := f[i].(second := j)]
                  [i + 1 := if k == f[i + 1].second then f[i + 1]
                            else f[i + 1].(first := if CharAt(body, k) == '\n' then k + 1 else k + 2)]
      else f2 == f && a2 == a
    ensures CutFrom(body, fragments, tags, actions, f2, a2, i)
  {
    hide SpacesBack, SpacesOn, IsStandalone, Standalone, CutFirsts, CutSeconds;
    Uncut(body, fragments, tags, actions, f, a, i);
    ShorterPiece(body, fragments, tags, i + 1);
    StandaloneMeans(body, fragments, tags, i);
    IsStandaloneSame(body, a[i].kind, i, |f|, f[i], f[i + 1], fragments[i + 1],
                     SpacesBack(body, f[i].first, f[i].second), SpacesOn(body, f[i + 1].first, f[i + 1].second));
    CutFirstsStep(body, fragments, tags, f, f2, i);
    CutSecondsStep(body, fragments, tags, f, f2, i);
  }

  lemma {:induction false} CutFirstsStep(body: string, fragments: seq<Range>, tags: seq<Action>, f: seq<Range>, f2: seq<Range>, i: nat)
    requires |fragments| == |tags| == |f| == |f2| && Pieces(body, fragments) && i + 1 < |f|
    requires CutFirsts(body, fragments, tags, f, i + 1)
    requires forall k :: 0 <= k < |f| && k != i + 1 ==> f2[k].first == f[k].first
    requires f2[i + 1].first == TrimmedFirst(body, fragments, tags, i + 1)
    ensures CutFirsts(body, fragments, tags, f2, i)
  {
    hide TrimmedFirst;
  }

  lemma {:induction false} CutSecondsStep(body: string, fragments: seq<Range>, tags: seq<Action>, f: seq<Range>, f2: seq<Range>, i: nat)
    requires |fragments| == |tags| == |f| == |f2| && Pieces(body, fragments) && i + 1 < |f|
    requires CutSeconds(body, fragments, tags, f, i + 1)
    requires forall k :: 0 <= k < |f| && k != i ==> f2[k].second == f[k].second
    requires f2[i].second == TrimmedSecond(body, fragments, tags, i)
    ensures CutSeconds(body, fragments, tags, f2, i)
  {
    hide TrimmedSecond;
  }

  lemma IsStandaloneSame(body: string, kind: Kind, i: nat, n: nat, before: Range, after: Range, after2: Range, j: nat, k: nat)
    requires j <= |body| && k <= |body| && (k == after.second <==> k == after2.second)
    ensures IsStandalone(body, kind, i, n, before, after, j, k) == IsStandalone(body, kind, i, n, before, after2, j, k)
  {
  }

  method SkipBackTo(body: string, first: nat, e: nat) returns (r: nat)
    requires first <= e <= |body|
    ensures r == SpacesBack(body, first, e)
  {
    r := e;
    while r > first && body[r - 1] == ' '
      invariant first <= r <= e && SpacesBack(body, first, e) == SpacesBack(body, first, r)
    {
      r := r - 1;
    }
  }

  method SkipOnTo(body: string, k: nat, second: nat) returns (r: nat)
    requires k <= second <= |body|
    ensures r == SpacesOn(body, k, second)
  {
    r := k;
    while r < second && body[r] == ' '
      invariant k <= r <= second && SpacesOn(body, k, second) == SpacesOn(body, r, second)
    {
      r := r + 1;
    }
  }

  /** The tests of one round, on the pieces as they are by then. */
  predicate IsStandalone(body: string, kind: Kind, i: nat, n: nat, before: Range, after: Range, j: nat, k: nat)
    requires j <= |body| && k <= |body|
  {
    && !kind.Tag? && !kind.UnescapeTag?
    && (if j == before.first then i == 0 else 0 < j && body[j - 1] == '\n')
    && (if k == after.second then i + 2 == n else NewlineAt(body, k))
  }

  lemma StandaloneMeans(body: string, f: seq<Range>, tags: seq<Action>, i: nat)
    requires i + 1 < |f| == |tags| && Pieces(body, f)
    ensures Standalone(body, f, tags, i) <==>
            IsStandalone(body, tags[i].kind, i, |f|, f[i], f[i + 1],
                         SpacesBack(body, f[i].first, f[i].second), SpacesOn(body, f[i + 1].first, f[i + 1].second))
  {
  }

  /** A piece already cut at its end shows the same line break at its start. */
  lemma ShorterPiece(body: string, f: seq<Range>, tags: seq<Action>, i: nat)
    requires 0 < i < |f| == |tags| && Pieces(body, f)
    ensures var e := TrimmedSecond(body, f, tags, i);
      && f[i].first <= e <= f[i].second
      && SpacesOn(body, f[i].first, e) == SpacesOn(body, f[i].first, f[i].second)
      && (SpacesOn(body, f[i].first, f[i].second) == f[i].second <==> SpacesOn(body, f[i].first, e) == e)
  {
    var e := TrimmedSecond(body, f, tags, i);
    if e < f[i].second { SpacesOnShorter(body, f[i].first, e, f[i].second); }
  }

  /** The loop of `parse`: reads the text up to its end, or fails. */
  method ReadTags(body: string) returns (parser: Parser, current: nat, ok: bool)
    ensures fresh(parser)
    ensures !ok ==> !Compiles(body)
    ensures ok ==> current <= |body| && parser.Valid(body)
    ensures ok ==> AtTheEnd(body, current, parser.fragments, parser.tags, parser.actions, parser.blockPositions)
  {
    hide ScanFrom, LinkRest, LinkNext, TagAt, FindFrom, State, Reading, Compiles, InText, Below;
    parser := new Parser();
    StateStart(body);
    current := 0;
    ReadNothing(body);
    while true
      invariant fresh(parser) && current <= |body| && parser.Valid(body)
      invariant Reading(body, current, parser.fragments, parser.tags, parser.actions, parser.blockPositions)
      decreases |body| - current
    {
      ScanStep(body, current);
      var idx := FindFrom(body, OPEN, current);
      if idx == |body| { break; }
      var endIdx := FindFrom(body, CLOSE, idx + 2);
      if endIdx == idx + 2 || endIdx == |body| {
        ReadFails(body, current, parser.fragments, parser.tags, parser.actions, parser.blockPositions);
        return parser, current, false;
      }
      var step := ReadTag(body, idx + 2, endIdx);
      if step.BadTag? {
        ReadFails(body, current, parser.fragments, parser.tags, parser.actions, parser.blockPositions);
        return parser, current, false;
      }
      ghost var rest := TagsFrom(body, step.next);
      ghost var tags, fragments, actions, blocks := parser.tags, parser.fragments, parser.actions, parser.blockPositions;
      ok := parser.Add(body, Range(current, idx), step.action, rest);
      if !ok {
        AddFails(body, current, idx, step, fragments, tags, actions, blocks);
        return;
      }
      ReadOne(body, current, idx, step, fragments, tags, actions, blocks, parser.actions, parser.blockPositions);
      current := step.next;
    }
    EndOfText(body, current, parser.fragments, parser.tags, parser.actions, parser.blockPositions);
    return parser, current, true;
  }

  /** `parse`: succeeds exactly when every tag can be read and the blocks can be matched up, and then
      gives the pieces of text without standalone lines and the actions linked both ways. */
  method Parse(body: string) returns (r: Parsed)
    ensures r.Compiled? <==> Compiles(body)
    ensures r.Compiled? ==> IsCompiled(body, r.template) && MustacheTemplates.Linked(r.template)
  {
    hide ScanFrom, State, LinkRest, InText, Compiles, IsCompiled, MustacheTemplates.Linked, Nested;
    var parser, current, ok := ReadTags(body);
    if !ok { return Invalid; }
    var matched := AllMatched(parser, body);
    if !matched {
      NotCompiled(body);
      return Invalid;
    }
    var all := parser.actions + [END];
    AllLinked(body, current, parser.fragments, parser.tags, parser.actions);
    var f, a := RemoveStandalones(body, parser.fragments + [Range(current, |body|)], all, parser.tags + [END]);
    r := Compiled(Template(body, f, a));
    IsLinkedTemplate(body, ScanFrom(body, 0), all, r.template);
  }

  /** The tags still to come, if they can be read. */
  ghost function TagsFrom(body: string, current: nat): (tags: seq<Action>)
    requires current <= |body|
    ensures InText(body, tags)
  {
    var scan := ScanFrom(body, current);
    if scan.Scan? then (ScanPieces(body, current); scan.tags) else []
  }

  /** Half way: what has been read and what is still to come make up the whole text. */
  ghost predicate Reading(body: string, current: nat, fragments: seq<Range>, tags: seq<Action>,
                          actions: seq<Action>, blocks: seq<nat>)
    requires current <= |body|
  {
    var whole, here := ScanFrom(body, 0), ScanFrom(body, current);
    && InText(body, actions) && Below(blocks, |actions|)
    && (whole.Scan? <==> here.Scan?)
    && (whole.Scan? ==>
          && whole.fragments == fragments + here.fragments
          && whole.tags == tags + here.tags
          && LinkRest(body, TagsFrom(body, 0), [], []) == LinkRest(body, TagsFrom(body, current), actions, blocks))
  }

  ghost predicate AtTheEnd(body: string, current: nat, fragments: seq<Range>, tags: seq<Action>,
                           actions: seq<Action>, blocks: seq<nat>)
    requires current <= |body|
  {
    var whole := ScanFrom(body, 0);
    && whole == Scan(fragments + [Range(current, |body|)], tags + [END])
    && InText(body, whole.tags)
    && LinkRest(body, whole.tags, [], []) == if blocks == [] then Linked(actions + [END]) else Unmatched
  }

  lemma StateStart(body: string)
    ensures State(body, [], [], [])
  {
  }

  lemma ReadNothing(body: string)
    ensures Reading(body, 0, [], [], [], [])
  {
  }

  lemma ReadFails(body: string, current: nat, fragments: seq<Range>, tags: seq<Action>,
                  actions: seq<Action>, blocks: seq<nat>)
    requires current <= |body| && Reading(body, current, fragments, tags, actions, blocks)
    requires ScanFrom(body, current).BadScan?
    ensures !Compiles(body)
  {
  }

  lemma {:induction false} AddFails(body: string, current: nat, idx: nat, step: Step, fragments: seq<Range>, tags: seq<Action>,
                 actions: seq<Action>, blocks: seq<nat>)
    requires current <= |body| && Reading(body, current, fragments, tags, actions, blocks)
    requires Follows(body, current, idx, step) && InText(body, actions) && Below(blocks, |actions|)
    requires step.action.start <= |body|
    requires LinkNext(body, step.action, TagsFrom(body, step.next), actions, blocks) == Unmatched
    ensures !Compiles(body)
  {
    hide ScanFrom, LinkNext;
    if ScanFrom(body, step.next).Scan? {
      LinkHead(body, step.action, TagsFrom(body, step.next), actions, blocks);
    }
    NotCompiled(body);
  }

  lemma {:induction false} ReadOne(body: string, current: nat, idx: nat, step: Step, fragments: seq<Range>, tags: seq<Action>,
                actions: seq<Action>, blocks: seq<nat>, actions2: seq<Action>, blocks2: seq<nat>)
    requires current <= |body| && Reading(body, current, fragments, tags, actions, blocks)
    requires Follows(body, current, idx, step) && InText(body, actions) && Below(blocks, |actions|)
    requires step.action.start <= |body| && InText(body, actions2) && Below(blocks2, |actions2|)
    requires LinkNext(body, step.action, TagsFrom(body, step.next), actions, blocks) ==
             LinkRest(body, TagsFrom(body, step.next), actions2, blocks2)
    ensures Reading(body, step.next, fragments + [Range(current, idx)], tags + [step.action], actions2, blocks2)
  {
    hide ScanFrom, LinkNext, LinkRest, InText;
    var next := ScanFrom(body, step.next);
    if next.Scan? {
      LinkHead(body, step.action, TagsFrom(body, step.next), actions, blocks);
      assert tags + ([step.action] + next.tags) == tags + [step.action] + next.tags;
      assert fragments + ([Range(current, idx)] + next.fragments) ==
             fragments + [Range(current, idx)] + next.fragments;
    }
  }

  /** One tag read is the head of what was to come. */
  ghost predicate Follows(body: string, current: nat, idx: nat, step: Step)
    requires current <= |body|
  {
    && step.Step? && step.next <= |body|
    && var here, next := ScanFrom(body, current), ScanFrom(body, step.next);
       if next.BadScan? then here.BadScan?
       else here == Scan([Range(current, idx)] + next.fragments, [step.action] + next.tags)
  }

  lemma ScanStep(body: string, current: nat)
    requires current <= |body|
    ensures var here, idx := ScanFrom(body, current), FindFrom(body, OPEN, current);
      if idx == |body| then here == Scan([Range(current, idx)], [END])
      else
        idx + 2 <= |body| &&
        var endIdx := FindFrom(body, CLOSE, idx + 2);
        if endIdx == idx + 2 || endIdx == |body| then here.BadScan?
        else
          var step := TagAt(body, idx + 2, endIdx);
          if step.BadTag? then here.BadScan? else !step.action.hasEnd && Follows(body, current, idx, step)
  {
  }

  lemma LinkHead(body: string, tag: Action, rest: seq<Action>, actions: seq<Action>, blocks: seq<nat>)
    requires InText(body, rest) && tag.start <= |body| && InText(body, actions) && Below(blocks, |actions|)
    ensures InText(body, [tag] + rest)
    ensures LinkRest(body, [tag] + rest, actions, blocks) == LinkNext(body, tag, rest, actions, blocks)
  {
    assert ([tag] + rest)[0] == tag && ([tag] + rest)[1..] == rest;
  }

  lemma {:induction false} EndOfText(body: string, current: nat, fragments: seq<Range>, tags: seq<Action>,
                  actions: seq<Action>, blocks: seq<nat>)
    requires current <= |body| && Reading(body, current, fragments, tags, actions, blocks)
    requires ScanFrom(body, current) == Scan([Range(current, |body|)], [END])
    ensures AtTheEnd(body, current, fragments, tags, actions, blocks)
  {
    hide ScanFrom;
    assert TagsFrom(body, current) == [END] && [END][1..] == [];
    assert LinkRest(body, [END], actions, blocks) == LinkNext(body, END, [], actions, blocks);
  }

  lemma {:induction false} AllLinked(body: string, current: nat, fragments: seq<Range>, tags: seq<Action>, actions: seq<Action>)
    requires current <= |body| && AtTheEnd(body, current, fragments, tags, actions, [])
    requires State(body, actions, tags, []) && |fragments| == |tags|
    ensures Pieces(body, fragments + [Range(current, |body|)])
    ensures InText(body, actions + [END]) && IsLinking(actions + [END], tags + [END])
    ensures Nested(body, actions + [END], 0, |actions|)
    ensures forall i :: 0 <= i < |tags + [END]| ==> (actions + [END])[i].kind == (tags + [END])[i].kind
  {
    hide ScanFrom;
    ScanPieces(body, 0);
    StateFacts(body, actions, tags, []);
    NestedFrame(body, actions, actions + [END], 0, |actions|);
  }

  lemma KindsKept(links: seq<Action>, tags: seq<Action>)
    requires IsLinking(links, tags)
    ensures forall i :: 0 <= i < |tags| ==> links[i].kind == tags[i].kind
  {
  }

  lemma {:induction false} IsLinkedTemplate(body: string, whole: Scan, links: seq<Action>, t: Template)
    requires whole == ScanFrom(body, 0) && whole.Scan? && |whole.fragments| == |whole.tags| > 0
    requires Pieces(body, whole.fragments) && InText(body, links)
    requires IsLinking(links, whole.tags) && whole.tags[|whole.tags| - 1] == END
    requires Nested(body, links, 0, |links| - 1)
    requires t.body == body && t.fragments == Trimmed(body, whole.fragments, whole.tags)
    requires Partials(body, whole, links, t.actions)
    ensures Compiles(body) && IsCompiled(body, t) && MustacheTemplates.Linked(t)
  {
    hide ScanFrom, Nested, TrimmedFirst, TrimmedSecond, Standalone;
    assert Matched(body, whole.tags, links);
    forall a | a in t.actions
      ensures a.start <= |body|
    {
      var i :| 0 <= i < |t.actions| && t.actions[i] == a;
      assert links[i] in links;
    }
    forall f | f in t.fragments
      ensures f.first <= |body|
    {
      var i :| 0 <= i < |t.fragments| && t.fragments[i] == f;
      TrimmedIsBlank(body, whole.fragments, whole.tags, i);
    }
    KindsKept(links, whole.tags);
    NestedSame(body, links, t.actions, 0, |links| - 1);
  }

  /** The indentation noted at partials changes no block. */
  lemma {:induction false} NestedSame(body: string, a: seq<Action>, b: seq<Action>, lo: nat, hi: nat)
    requires |a| == |b| && hi <= |a| && InText(body, a) && InText(body, b) && Nested(body, a, lo, hi)
    requires forall i :: 0 <= i < |a| ==> a[i] == b[i] || (a[i].kind.Partial? && b[i].kind.Partial?)
    ensures Nested(body, b, lo, hi)
    decreases hi - lo
  {
    if lo < hi {
      if Opens(a[lo]) {
        NestedSame(body, a, b, lo + 1, a[lo].pos);
        NestedSame(body, a, b, a[lo].pos + 1, hi);
      } else {
        NestedSame(body, a, b, lo + 1, hi);
      }
    }
  }
}
