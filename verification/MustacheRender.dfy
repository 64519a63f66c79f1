/** The interpreter that runs a compiled template by jumping along its links, with one explicit
    stack of contexts. */
module MustacheRender {
  import opened MustacheContexts
  import opened MustacheTemplates

  /** The shared context stack. `floor` is the depth below which nobody may pop. */
  class ContextStack {
    var items: seq<Value>
    ghost var floor: nat

    constructor (context: Value)
      ensures items == [context] && floor == 1
    {
      items := [context];
      floor := 1;
    }

    method Push(v: Value)
      modifies this`items
      ensures items == old(items) + [v]
    {
      items := items + [v];
    }

    method Pop()
      requires |items| > floor
      modifies this`items
      ensures items == old(items)[..|old(items)| - 1]
    {
      items := items[..|items| - 1];
    }
  }

  /** `isTagInsideObjectBlock`, walking back over the actions before `i`. */
  function InsideObject(actions: seq<Action>, i: nat, openedBlock: int, topIsObject: bool): bool
    requires i <= |actions|
  {
    i > 0 &&
    if actions[i - 1].kind.OpenBlock? then
      (openedBlock == 0 && topIsObject) || InsideObject(actions, i - 1, openedBlock - 1, topIsObject)
    else
      InsideObject(actions, i - 1, if actions[i - 1].kind.CloseBlock? then openedBlock + 1 else openedBlock, topIsObject)
  }

  method IsTagInsideObjectBlock(t: Template, current: nat, stack: ContextStack) returns (inside: bool)
    requires current <= |t.actions| && stack.items != []
    ensures inside == InsideObject(t.actions, current, 0, stack.items[|stack.items| - 1].Object?)
  {
    var openedBlock: int := 0;
    var topIsObject := stack.items[|stack.items| - 1].Object?;
    var i := current;
    while i > 0
      invariant 0 <= i <= current
      invariant InsideObject(t.actions, current, 0, topIsObject) == InsideObject(t.actions, i, openedBlock, topIsObject)
    {
      if t.actions[i - 1].kind.OpenBlock? {
        if openedBlock == 0 && topIsObject { return true; }
        openedBlock := openedBlock - 1;
      } else if t.actions[i - 1].kind.CloseBlock? {
        openedBlock := openedBlock + 1;
      }
      i := i - 1;
    }
    return false;
  }

  /** The interpreter stands at `current` inside blocks that end at `ends`, innermost last. */
  ghost predicate Pending(t: Template, ends: seq<nat>, current: nat, hi: nat)
    requires Linked(t) && hi < |t.actions|
    decreases |ends|
  {
    if ends == [] then Nested(t.body, t.actions, current, hi)
    else
      var e := ends[|ends| - 1];
      && e < hi
      && Nested(t.body, t.actions, current, e)
      && t.actions[e].kind.CloseBlock?
      && Pending(t, ends[..|ends| - 1], e + 1, hi)
  }

  /** What the reference still has to show from there. */
  ghost function Rest(t: Template, ends: seq<nat>, current: nat, hi: nat, stack: seq<Value>): Rendered
    requires Linked(t) && hi < |t.actions| && Pending(t, ends, current, hi) && |stack| > |ends|
    decreases |ends|
  {
    if ends == [] then Render(TreeOf(t, current, hi), stack)
    else
      var n := |ends| - 1;
      Then(Render(TreeOf(t, current, ends[n]), stack),
           Rest(t, ends[..n], ends[n] + 1, hi, stack[..|stack| - 1]))
  }

  lemma ThenAssoc(a: Rendered, b: Rendered, c: Rendered)
    ensures Then(Then(a, b), c) == Then(a, Then(b, c))
  {
    if a.Output? && b.Output? && c.Output? { assert (a.text + b.text) + c.text == a.text + (b.text + c.text); }
  }

  /** The action the interpreter stands at, and how far the innermost block reaches. */
  ghost function Reach(ends: seq<nat>, hi: nat): nat {
    if ends == [] then hi else ends[|ends| - 1]
  }

  ghost function After(t: Template, ends: seq<nat>, hi: nat, stack: seq<Value>): Rendered
    requires Linked(t) && hi < |t.actions| && Reach(ends, hi) < |t.actions| && |stack| > |ends|
    requires ends != [] ==> Pending(t, ends[..|ends| - 1], Reach(ends, hi) + 1, hi)
  {
    if ends == [] then Output("")
    else Rest(t, ends[..|ends| - 1], Reach(ends, hi) + 1, hi, stack[..|stack| - 1])
  }

  lemma {:induction false} RestSplits(t: Template, ends: seq<nat>, current: nat, hi: nat, stack: seq<Value>)
    requires Linked(t) && hi < |t.actions| && Pending(t, ends, current, hi) && |stack| > |ends|
    ensures current <= Reach(ends, hi) <= hi && Nested(t.body, t.actions, current, Reach(ends, hi))
    ensures Rest(t, ends, current, hi, stack) ==
            Then(Render(TreeOf(t, current, Reach(ends, hi)), stack), After(t, ends, hi, stack))
  {
    hide Render, TreeOf, Nested, Linked;
    NestedOrder(t, current, Reach(ends, hi));
    if ends == [] { ThenNothing(Render(TreeOf(t, current, hi), stack)); }
  }

  lemma NestedOrder(t: Template, lo: nat, hi: nat)
    requires Linked(t) && hi < |t.actions|
    ensures Nested(t.body, t.actions, lo, hi) ==> lo <= hi
  {
  }

  lemma ThenNothing(a: Rendered)
    ensures Then(a, Output("")) == a && Then(Output(""), a) == a
  {
    if a.Output? { assert a.text + "" == a.text == "" + a.text; }
  }

  lemma {:induction false} NotAtClose(t: Template, ends: seq<nat>, current: nat, hi: nat)
    requires Linked(t) && hi < |t.actions| && Pending(t, ends, current, hi)
    requires current < hi && !t.actions[current].kind.CloseBlock?
    ensures current < Reach(ends, hi) <= hi < |t.actions|
  {
    hide Linked, Nested;
    NestedOrder(t, current, Reach(ends, hi));
  }

  lemma PendingStep(t: Template, ends: seq<nat>, current: nat, next: nat, hi: nat)
    requires Linked(t) && hi < |t.actions| && Pending(t, ends, current, hi)
    requires next <= Reach(ends, hi) < |t.actions| && Nested(t.body, t.actions, next, Reach(ends, hi))
    ensures Pending(t, ends, next, hi)
  {
  }

  /** A tag or a comment shows itself and moves on. */
  lemma StepLeaf(t: Template, ends: seq<nat>, current: nat, hi: nat, stack: seq<Value>)
    requires Linked(t) && hi < |t.actions| && Pending(t, ends, current, hi) && |stack| > |ends|
    requires current < hi && !Opens(t.actions[current]) && !t.actions[current].kind.CloseBlock?
    ensures Pending(t, ends, current + 1, hi)
    ensures Rest(t, ends, current, hi, stack) ==
            Then(Output(Text(t, current)),
                 Then(RenderItem(ItemOf(t.body, t.actions[current]), stack), Rest(t, ends, current + 1, hi, stack)))
  {
    RestSplits(t, ends, current, hi, stack);
    var e := Reach(ends, hi);
    assert current < e;
    PendingStep(t, ends, current, current + 1, hi);
    RestSplits(t, ends, current + 1, hi, stack);
    var text, item := Output(Text(t, current)), RenderItem(ItemOf(t.body, t.actions[current]), stack);
    var rest := Render(TreeOf(t, current + 1, e), stack);
    ThenAssoc(text, Then(item, rest), After(t, ends, hi, stack));
    ThenAssoc(item, rest, After(t, ends, hi, stack));
  }

  /** A closing action ends the innermost block and drops its context. */
  lemma StepClose(t: Template, ends: seq<nat>, current: nat, hi: nat, stack: seq<Value>)
    requires Linked(t) && hi < |t.actions| && Pending(t, ends, current, hi) && |stack| > |ends|
    requires current < hi && t.actions[current].kind.CloseBlock?
    ensures ends != [] && Pending(t, ends[..|ends| - 1], current + 1, hi)
    ensures Rest(t, ends, current, hi, stack) ==
            Then(Output(Text(t, current)),
                 Rest(t, ends[..|ends| - 1], current + 1, hi, stack[..|stack| - 1]))
  {
    RestSplits(t, ends, current, hi, stack);
  }

  /** What a block shows, by the choice made for it. */
  function Shown(content: Tree, choice: Choice, stack: seq<Value>): Rendered
    requires stack != []
  {
    match choice
    case Skip => Output("")
    case Once(c) => Render(content, stack + [c])
    case ForEach(items) => RenderEach(content, stack, items)
  }

  lemma {:induction false} RenderOpen(t: Template, current: nat, e: nat, stack: seq<Value>)
    requires Linked(t) && current < e < |t.actions| && Nested(t.body, t.actions, current, e) && stack != []
    requires Opens(t.actions[current])
    ensures var p := t.actions[current].pos;
            && current < p < e && Nested(t.body, t.actions, current + 1, p) && t.actions[p].kind.CloseBlock?
            && Nested(t.body, t.actions, p + 1, e)
            && Render(TreeOf(t, current, e), stack) ==
               Then(Output(Text(t, current)),
                    Then(Shown(TreeOf(t, current + 1, p), BlockChoice(t, current, stack), stack),
                         Render(TreeOf(t, p + 1, e), stack)))
  {
    hide Linked, FindContext, Name, SectionChoice, InvertedChoice, RenderEach;
  }

  /** An opening action shows its block as chosen and goes on behind the close. */
  lemma {:induction false} StepOpen(t: Template, ends: seq<nat>, current: nat, hi: nat, stack: seq<Value>)
    requires Linked(t) && hi < |t.actions| && Pending(t, ends, current, hi) && |stack| > |ends|
    requires current < hi && Opens(t.actions[current])
    ensures var p := t.actions[current].pos;
            && current < p < hi && Nested(t.body, t.actions, current + 1, p) && t.actions[p].kind.CloseBlock?
            && Pending(t, ends, p + 1, hi)
            && Rest(t, ends, current, hi, stack) ==
               Then(Output(Text(t, current)),
                    Then(BlockShown(t, current, stack),
                         Rest(t, ends, p + 1, hi, stack)))
  {
    hide Linked, Nested, Render, TreeOf, Shown, BlockChoice, Rest, Pending, After, Text;
    RestSplits(t, ends, current, hi, stack);
    var e := Reach(ends, hi);
    NotAtClose(t, ends, current, hi);
    InRange(t, current);
    RenderOpen(t, current, e, stack);
    var p := t.actions[current].pos;
    PendingStep(t, ends, current, p + 1, hi);
    RestSplits(t, ends, p + 1, hi, stack);
    var text := Output(Text(t, current));
    var shown := Shown(TreeOf(t, current + 1, p), BlockChoice(t, current, stack), stack);
    var rest := Render(TreeOf(t, p + 1, e), stack);
    ThenAssoc(text, Then(shown, rest), After(t, ends, hi, stack));
    ThenAssoc(shown, rest, After(t, ends, hi, stack));
  }

  function BlockChoice(t: Template, current: nat, stack: seq<Value>): Choice
    requires Linked(t) && current < |t.actions| && stack != []
  {
    ChoiceOf(Name(t.body, t.actions[current]), t.actions[current].kind.ElseBlock?, stack)
  }

  ghost function BlockShown(t: Template, current: nat, stack: seq<Value>): Rendered
    requires Linked(t) && current < |t.actions| && stack != []
    requires var p := t.actions[current].pos; current < p < |t.actions| && Nested(t.body, t.actions, current + 1, p)
  {
    Shown(TreeOf(t, current + 1, t.actions[current].pos), BlockChoice(t, current, stack), stack)
  }

  /** Going into a block with its context. */
  lemma EnterBlock(t: Template, ends: seq<nat>, current: nat, hi: nat, stack: seq<Value>, c: Value)
    requires Linked(t) && hi < |t.actions| && |stack| > |ends| && current < |t.actions|
    requires BlockChoice(t, current, stack) == Once(c)
    requires var p := t.actions[current].pos;
             && current < p < hi && Nested(t.body, t.actions, current + 1, p) && t.actions[p].kind.CloseBlock?
             && Pending(t, ends, p + 1, hi)
    ensures Pending(t, ends + [t.actions[current].pos], current + 1, hi)
    ensures Rest(t, ends + [t.actions[current].pos], current + 1, hi, stack + [c]) ==
            Then(BlockShown(t, current, stack), Rest(t, ends, t.actions[current].pos + 1, hi, stack))
  {
    assert (ends + [t.actions[current].pos])[..|ends|] == ends;
    assert (stack + [c])[..|stack|] == stack;
  }

  predicate Renderable(t: Template) {
    Linked(t) && WithoutPartials(t) && WithoutDottedTags(t)
  }

  /** `render_internal`: what it appends is what the recursive rendering of the nested blocks shows;
      it throws exactly when that does; and it leaves the context stack as it was, never popping
      below the depth it was called with. */
  method RenderInternal(t: Template, actionBegin: nat, actionEnd: nat, stack: ContextStack, out: string)
    returns (r: Rendered)
    requires Renderable(t) && actionEnd < |t.actions| && Nested(t.body, t.actions, actionBegin, actionEnd)
    requires stack.items != [] && stack.floor <= |stack.items|
    modifies stack
    ensures r == Then(Output(out), Render(TreeOf(t, actionBegin, actionEnd), old(stack.items)))
    ensures r.Output? ==> stack.items == old(stack.items) && stack.floor == old(stack.floor)
    decreases actionEnd - actionBegin, 2
  {
    hide Nested, Linked, Render, RenderEach, TreeOf, Pending, Rest, FindContext, InsideObject, WithoutDottedTags,
         BlockShown, Name;
    ghost var base, was := stack.items, stack.floor;
    stack.floor := |stack.items|;
    var current := actionBegin;
    var text := out;
    ghost var ends: seq<nat> := [];
    ghost var goal := Then(Output(out), Render(TreeOf(t, actionBegin, actionEnd), base));
    Begin(t, actionBegin, actionEnd, base);
    while current < actionEnd
      invariant current <= actionEnd && stack.floor == |base|
      invariant Pending(t, ends, current, actionEnd)
      invariant |stack.items| == |base| + |ends| && stack.items[..|base|] == base
      invariant goal == Then(Output(text), Rest(t, ends, current, actionEnd, stack.items))
      decreases actionEnd - current
    {
      ghost var items := stack.items;
      InRange(t, current);
      Bounds(t, ends, current, actionEnd);
      var a := t.actions[current];
      ghost var before := text;
      text := text + Text(t, current);
      if a.kind.Ignore? {
        StepLeaf(t, ends, current, actionEnd, items);
        Append3(before, Text(t, current), "", Rest(t, ends, current + 1, actionEnd, items));
      } else if a.kind.Tag? || a.kind.UnescapeTag? {
        var shown := RenderTag(t, current, stack);
        StepLeaf(t, ends, current, actionEnd, items);
        if shown.Thrown? { return Thrown; }
        Append3(before, Text(t, current), shown.text, Rest(t, ends, current + 1, actionEnd, items));
        text := text + shown.text;
      } else if a.kind.CloseBlock? {
        StepClose(t, ends, current, actionEnd, items);
        stack.Pop();
        ends := ends[..|ends| - 1];
        Append3(before, Text(t, current), "", Rest(t, ends, current + 1, actionEnd, stack.items));
      } else {
        StepOpen(t, ends, current, actionEnd, items);
        var enter, context, shown := OpenBlockOrElse(t, current, stack, text);
        if shown.Thrown? { return Thrown; }
        text := shown.text;
        if enter {
          EnterBlock(t, ends, current, actionEnd, items, context);
          ends := ends + [a.pos];
          stack.Push(context);
          Append3(before, Text(t, current), "", Rest(t, ends, current + 1, actionEnd, stack.items));
        } else {
          AppendShown(before, Text(t, current), BlockShown(t, current, items), Rest(t, ends, a.pos + 1, actionEnd, items));
          current := a.pos;
        }
      }
      current := current + 1;
    }
    Finish(t, ends, current, actionEnd, stack.items);
    InRange(t, actionEnd);
    r := Output(text + Text(t, actionEnd));
    stack.floor := was;
  }

  /** The cases of an opening action: go into the block with a context, or jump over it, after
      showing it for each item of a list. */
  method OpenBlockOrElse(t: Template, current: nat, stack: ContextStack, out: string)
    returns (enter: bool, context: Value, r: Rendered)
    requires Renderable(t) && current < |t.actions| && Opens(t.actions[current])
    requires var p := t.actions[current].pos; current < p < |t.actions| && Nested(t.body, t.actions, current + 1, p)
    requires stack.items != [] && stack.floor <= |stack.items|
    modifies stack
    ensures enter ==> r == Output(out) && BlockChoice(t, current, old(stack.items)) == Once(context)
    ensures !enter ==> r == Then(Output(out), BlockShown(t, current, old(stack.items)))
    ensures r.Output? ==> stack.items == old(stack.items) && stack.floor == old(stack.floor)
    decreases t.actions[current].pos - current, 1
  {
    hide Nested, Linked, Render, RenderEach, TreeOf, FindContext, WithoutDottedTags;
    InRange(t, current);
    ThenNothing(Output(out));
    enter, context, r := false, Null, Output(out);
    var a := t.actions[current];
    var found := FindContext(Name(t.body, a), stack.items, false);
    if a.kind.ElseBlock? {
      if found.NotFound? || found.value.Null? || found.value.False? || found.value == List([]) {
        enter := true;
      }
    } else if found.Found? {
      match found.value {
        case List(items) =>
          r := RenderList(t, current, stack, items, out);
        case Null =>
        case False =>
        case _ =>
          enter, context := true, found.value;
      }
    }
  }

  /** The loop over a list, one run of the block for each item. */
  method RenderList(t: Template, current: nat, stack: ContextStack, items: seq<Value>, out: string)
    returns (r: Rendered)
    requires Renderable(t) && current < |t.actions|
    requires var p := t.actions[current].pos; current < p < |t.actions| && Nested(t.body, t.actions, current + 1, p)
    requires stack.items != [] && stack.floor <= |stack.items|
    modifies stack
    ensures r == Then(Output(out),
                      RenderEach(TreeOf(t, current + 1, t.actions[current].pos), old(stack.items), items))
    ensures r.Output? ==> stack.items == old(stack.items) && stack.floor == old(stack.floor)
    decreases t.actions[current].pos - current, 0
  {
    hide Nested, Linked, Render, RenderEach, TreeOf, WithoutDottedTags;
    ghost var content, contexts := TreeOf(t, current + 1, t.actions[current].pos), stack.items;
    var text := out;
    EachNothing(content, contexts);
    ThenNothing(Output(text));
    for i := 0 to |items|
      invariant stack.items == contexts && stack.floor == old(stack.floor)
      invariant Output(text) == Then(Output(out), RenderEach(content, contexts, items[..i]))
    {
      EachStep(content, contexts, items, i, out);
      stack.Push(items[i]);
      var inner := RenderInternal(t, current + 1, t.actions[current].pos, stack, text);
      if inner.Thrown? {
        EachThrown(content, contexts, items, i + 1);
        return Thrown;
      }
      text := inner.text;
      stack.Pop();
    }
    assert items[..|items|] == items;
    return Output(text);
  }

  /** The look-up and printing of one tag. */
  method RenderTag(t: Template, current: nat, stack: ContextStack) returns (r: Rendered)
    requires Renderable(t) && current < |t.actions| && stack.items != []
    requires t.actions[current].kind.Tag? || t.actions[current].kind.UnescapeTag?
    ensures r == RenderItem(ItemOf(t.body, t.actions[current]), stack.items)
  {
    var a := t.actions[current];
    var onlyTop := IsTagInsideObjectBlock(t, current, stack);
    var found := FindContext(Name(t.body, a), stack.items, onlyTop);
    if found.NotFound? { return Output(""); }
    match found.value {
      case False => return Output("false");
      case True => return Output("true");
      case Number(text) => return Output(text);
      case String(s) =>
        if a.kind.Tag? {
          var e := Escape(s);
          return Output(e);
        } else {
          return Output(s);
        }
      case _ => return Thrown;
    }
  }

  // ---------------------------------------------------------------- small steps of the proof

  lemma Append3(before: string, text: string, shown: string, rest: Rendered)
    ensures Then(Output(before), Then(Output(text), Then(Output(shown), rest))) ==
            Then(Output(before + text + shown), rest)
    ensures Then(Output(before), Then(Output(text), rest)) == Then(Output(before + text), rest)
  {
    ThenAssoc(Output(before), Output(text), Then(Output(shown), rest));
    ThenAssoc(Output(before + text), Output(shown), rest);
    ThenAssoc(Output(before), Output(text), rest);
  }

  lemma AppendShown(before: string, text: string, shown: Rendered, rest: Rendered)
    requires Then(Output(before + text), shown).Output?
    ensures Then(Output(before), Then(Output(text), Then(shown, rest))) ==
            Then(Then(Output(before + text), shown), rest)
  {
    ThenAssoc(Output(before), Output(text), Then(shown, rest));
    ThenAssoc(Output(before + text), shown, rest);
  }

  lemma Begin(t: Template, lo: nat, hi: nat, stack: seq<Value>)
    requires Linked(t) && hi < |t.actions| && Nested(t.body, t.actions, lo, hi) && stack != []
    ensures lo <= hi && Pending(t, [], lo, hi)
    ensures Rest(t, [], lo, hi, stack) == Render(TreeOf(t, lo, hi), stack)
  {
  }

  lemma InRange(t: Template, i: nat)
    requires Linked(t) && i < |t.actions|
    ensures i < |t.fragments| && t.fragments[i].first <= |t.body| && t.actions[i].start <= |t.body|
    ensures InText(t.body, t.actions)
  {
    assert t.fragments[i] in t.fragments && t.actions[i] in t.actions;
  }

  lemma Bounds(t: Template, ends: seq<nat>, current: nat, hi: nat)
    requires Linked(t) && hi < |t.actions| && Pending(t, ends, current, hi) && WithoutPartials(t) && current < hi
    ensures !t.actions[current].kind.Partial?
  {
    assert t.actions[current] in t.actions;
  }

  lemma {:induction false} Finish(t: Template, ends: seq<nat>, current: nat, hi: nat, stack: seq<Value>)
    requires Linked(t) && hi < |t.actions| && Pending(t, ends, current, hi) && current == hi && |stack| > |ends|
    ensures ends == [] && t.fragments[hi].first <= |t.body|
    ensures Rest(t, ends, current, hi, stack) == Output(Text(t, hi))
  {
    InRange(t, hi);
    RestSplits(t, ends, current, hi, stack);
  }

  lemma EachNothing(content: Tree, stack: seq<Value>)
    requires stack != []
    ensures RenderEach(content, stack, []) == Output("")
  {
  }

  lemma EachStep(content: Tree, stack: seq<Value>, items: seq<Value>, i: nat, here: string)
    requires stack != [] && i < |items|
    ensures Then(Output(here), RenderEach(content, stack, items[..i + 1])) ==
            Then(Then(Output(here), RenderEach(content, stack, items[..i])), Render(content, stack + [items[i]]))
  {
    assert items[..i + 1][..i] == items[..i];
    ThenAssoc(Output(here), RenderEach(content, stack, items[..i]), Render(content, stack + [items[i]]));
  }

  lemma {:induction false} EachThrown(content: Tree, stack: seq<Value>, items: seq<Value>, i: nat)
    requires stack != [] && i <= |items| && RenderEach(content, stack, items[..i]).Thrown?
    ensures RenderEach(content, stack, items).Thrown?
    decreases |items| - i
  {
    if i == |items| {
      assert items[..i] == items;
    } else {
      assert items[..i + 1][..i] == items[..i];
      EachThrown(content, stack, items, i + 1);
    }
  }

  /** `render`: a whole template in one context. */
  method RenderTemplate(t: Template, context: Value) returns (r: Rendered)
    requires Renderable(t)
    ensures r == Render(TreeOf(t, 0, |t.actions| - 1), [context])
  {
    var stack := new ContextStack(context);
    r := RenderInternal(t, 0, |t.fragments| - 1, stack, "");
    ThenNothing(Render(TreeOf(t, 0, |t.actions| - 1), [context]));
  }
}
