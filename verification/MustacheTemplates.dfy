/** Compiled mustache templates: the flat list of actions with jump links, and the tree of nested
    blocks it stands for. */
module MustacheTemplates {
  import opened MustacheContexts

  datatype Kind = Ignore | Tag | UnescapeTag | OpenBlock | CloseBlock | ElseBlock | Partial

  datatype Action = Action(kind: Kind, start: nat, end: nat, pos: int, hasEnd: bool)

  datatype Range = Range(first: nat, second: nat)

  /** A compiled template; the numbers index into the text. */
  datatype Template = Template(body: string, fragments: seq<Range>, actions: seq<Action>)

  predicate Opens(a: Action) { a.kind.OpenBlock? || a.kind.ElseBlock? }

  /** `substr` with the length `end - start` taken as an unsigned number: a blank tag has its start
      after its end, and then names the rest of the text. */
  function Slice(body: string, start: nat, end: nat): string
    requires start <= |body|
  {
    if start <= end <= |body| then body[start..end] else body[start..]
  }

  function Name(body: string, a: Action): string
    requires a.start <= |body|
  {
    Slice(body, a.start, a.end)
  }

  predicate InText(body: string, actions: seq<Action>) {
    forall a :: a in actions ==> a.start <= |body|
  }

  /** Between `lo` and `hi` every opening action is linked with its close and the close with it,
      under the same name, and blocks are nested or apart. */
  predicate Nested(body: string, actions: seq<Action>, lo: nat, hi: nat)
    requires hi <= |actions| && InText(body, actions)
    decreases hi - lo
  {
    if lo >= hi then lo == hi
    else if Opens(actions[lo]) then
      var p := actions[lo].pos;
      && lo < p < hi
      && actions[lo].hasEnd
      && actions[p].kind.CloseBlock?
      && actions[p].pos == lo
      && Name(body, actions[p]) == Name(body, actions[lo])
      && Nested(body, actions, lo + 1, p)
      && Nested(body, actions, p + 1, hi)
    else !actions[lo].kind.CloseBlock? && Nested(body, actions, lo + 1, hi)
  }

  lemma {:induction false} NestedJoin(body: string, actions: seq<Action>, lo: nat, mid: nat, hi: nat)
    requires hi <= |actions| && InText(body, actions)
    requires mid <= hi && Nested(body, actions, lo, mid) && Nested(body, actions, mid, hi)
    ensures Nested(body, actions, lo, hi)
    decreases mid - lo
  {
    if lo < mid {
      if Opens(actions[lo]) {
        NestedJoin(body, actions, actions[lo].pos + 1, mid, hi);
      } else {
        NestedJoin(body, actions, lo + 1, mid, hi);
      }
    }
  }

  /** Only the actions between matter. */
  lemma {:induction false} NestedFrame(body: string, a: seq<Action>, b: seq<Action>, lo: nat, hi: nat)
    requires hi <= |a| && hi <= |b| && InText(body, a) && InText(body, b)
    requires lo <= hi ==> a[lo..hi] == b[lo..hi]
    requires Nested(body, a, lo, hi)
    ensures Nested(body, b, lo, hi)
    decreases hi - lo
  {
    if lo < hi {
      assert a[lo] == a[lo..hi][0] == b[lo..hi][0] == b[lo];
      assert a[lo + 1..hi] == a[lo..hi][1..] == b[lo..hi][1..] == b[lo + 1..hi];
      if Opens(a[lo]) {
        var p := a[lo].pos;
        assert a[p] == a[lo..hi][p - lo] == b[lo..hi][p - lo] == b[p];
        assert a[lo + 1..p] == a[lo + 1..hi][..p - lo - 1] == b[lo + 1..p];
        assert a[p + 1..hi] == a[lo + 1..hi][p - lo..] == b[p + 1..hi];
        NestedFrame(body, a, b, lo + 1, p);
        NestedFrame(body, a, b, p + 1, hi);
      } else {
        NestedFrame(body, a, b, lo + 1, hi);
      }
    }
  }

  /** A template ready to render: as many fragments as actions, and everything linked. */
  predicate Linked(t: Template) {
    && |t.fragments| == |t.actions| > 0
    && InText(t.body, t.actions)
    && (forall f :: f in t.fragments ==> f.first <= |t.body|)
    && Nested(t.body, t.actions, 0, |t.actions| - 1)
  }

  // ---------------------------------------------------------------- nested blocks

  datatype Item = Comment | Variable(name: string, escaped: bool)

  /** A template as a tree: text, then a tag or a block, and so on to a last piece of text. */
  datatype Tree =
    | Last(text: string)
    | Leaf(text: string, item: Item, rest: Tree)
    | Section(text: string, name: string, inverted: bool, content: Tree, rest: Tree)

  function Text(t: Template, i: nat): string
    requires i < |t.fragments| && t.fragments[i].first <= |t.body|
  {
    Slice(t.body, t.fragments[i].first, t.fragments[i].second)
  }

  predicate WithoutPartials(t: Template) { forall a :: a in t.actions ==> !a.kind.Partial? }

  predicate WithoutDottedTags(t: Template)
    requires InText(t.body, t.actions)
  {
    forall a :: a in t.actions && (a.kind.Tag? || a.kind.UnescapeTag?) ==> !Dotted(Name(t.body, a))
  }

  function ItemOf(body: string, a: Action): Item
    requires a.start <= |body|
  {
    if a.kind.Tag? || a.kind.UnescapeTag? then Variable(Name(body, a), a.kind.Tag?) else Comment
  }

  /** The blocks between two actions. */
  function TreeOf(t: Template, lo: nat, hi: nat): Tree
    requires Linked(t) && hi < |t.actions| && Nested(t.body, t.actions, lo, hi)
    decreases hi - lo
  {
    if lo == hi then Last(Text(t, lo))
    else
      var a := t.actions[lo];
      if Opens(a) then
        Section(Text(t, lo), Name(t.body, a), a.kind.ElseBlock?,
                TreeOf(t, lo + 1, a.pos), TreeOf(t, a.pos + 1, hi))
      else Leaf(Text(t, lo), ItemOf(t.body, a), TreeOf(t, lo + 1, hi))
  }

  // ---------------------------------------------------------------- recursive rendering

  datatype Rendered = Output(text: string) | Thrown

  function Then(a: Rendered, b: Rendered): Rendered {
    if a.Output? && b.Output? then Output(a.text + b.text) else Thrown
  }

  /** A tag shows a string, a number or a truth value; a missing name shows nothing. */
  function RenderValue(l: Lookup, escaped: bool): Rendered {
    match l
    case NotFound => Output("")
    case Found(v) =>
      match v
      case False => Output("false")
      case True => Output("true")
      case Number(text) => Output(text)
      case String(s) => Output(if escaped then Escaped(s) else s)
      case _ => Thrown
  }

  function RenderItem(item: Item, stack: seq<Value>): Rendered
    requires stack != []
  {
    match item
    case Comment => Output("")
    case Variable(name, escaped) => RenderValue(FindContext(name, stack, false), escaped)
  }

  /** What a block does with the value of its name. */
  datatype Choice = Skip | Once(context: Value) | ForEach(items: seq<Value>)

  function SectionChoice(l: Lookup): Choice {
    match l
    case NotFound => Skip
    case Found(v) =>
      match v
      case List(items) => ForEach(items)
      case Null => Skip
      case False => Skip
      case _ => Once(v)
  }

  function InvertedChoice(l: Lookup): Choice {
    match l
    case NotFound => Once(Null)
    case Found(v) =>
      match v
      case List(items) => if items == [] then Once(Null) else Skip
      case Null => Once(Null)
      case False => Once(Null)
      case _ => Skip
  }

  function ChoiceOf(name: string, inverted: bool, stack: seq<Value>): Choice
    requires stack != []
  {
    var l := FindContext(name, stack, false);
    if inverted then InvertedChoice(l) else SectionChoice(l)
  }

  /** The reference: rendering by recursion over the nested blocks. */
  function Render(t: Tree, stack: seq<Value>): Rendered
    requires stack != []
    decreases t, 0
  {
    match t
    case Last(text) => Output(text)
    case Leaf(text, item, rest) => Then(Output(text), Then(RenderItem(item, stack), Render(rest, stack)))
    case Section(text, name, inverted, content, rest) =>
      var shown :=
        match ChoiceOf(name, inverted, stack)
        case Skip => Output("")
        case Once(c) => Render(content, stack + [c])
        case ForEach(items) => RenderEach(content, stack, items);
      Then(Output(text), Then(shown, Render(rest, stack)))
  }

  function RenderEach(t: Tree, stack: seq<Value>, items: seq<Value>): Rendered
    requires stack != []
    decreases t, 1 + |items|
  {
    if items == [] then Output("")
    else
      var n := |items| - 1;
      Then(RenderEach(t, stack, items[..n]), Render(t, stack + [items[n]]))
  }
}
