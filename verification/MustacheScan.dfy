/** Reading a mustache text: its tags and the pieces of text between them, and the standalone lines
    that are dropped from those pieces. */
module MustacheScan {
  import opened MustacheTemplates

  predicate SpelledAt(s: string, i: nat, what: string) { i + |what| <= |s| && s[i..i + |what|] == what }

  /** `find`; the length of the text when there is nothing to find. */
  function FindFrom(s: string, what: string, from: nat): (r: nat)
    requires from <= |s|
    ensures from <= r <= |s| && (r < |s| ==> SpelledAt(s, r, what))
    ensures forall i :: from <= i < r ==> !SpelledAt(s, i, what)
    decreases |s| - from
  {
    if from == |s| || SpelledAt(s, from, what) then from else FindFrom(s, what, from + 1)
  }

  /** `body_[i]`; a string ends in a NUL that may be read. */
  function CharAt(s: string, i: nat): char { if i < |s| then s[i] else '\0' }

  function SkipSpaces(s: string, i: nat): (r: nat)
    ensures i <= r && (i <= |s| ==> r <= |s|)
    ensures forall k :: i <= k < r ==> k < |s| && s[k] == ' '
    ensures CharAt(s, r) != ' '
    decreases |s| - i
  {
    if i < |s| && s[i] == ' ' then SkipSpaces(s, i + 1) else i
  }

  function BackSpaces(s: string, e: nat): (r: nat)
    requires e <= |s|
    ensures r <= e && (r > 0 ==> s[r - 1] != ' ')
    ensures forall k :: r <= k < e ==> s[k] == ' '
  {
    if e > 0 && s[e - 1] == ' ' then BackSpaces(s, e - 1) else e
  }

  datatype Step = BadTag | Step(action: Action, next: nat)

  const OPEN := "{{"
  const CLOSE := "}}"

  function NewAction(kind: Kind, start: nat, end: nat): Action { Action(kind, start, end, 0, false) }

  /** The tag whose inside is `body[idx..endIdx]`. */
  function TagAt(body: string, idx: nat, endIdx: nat): (r: Step)
    requires idx < endIdx < |body| && SpelledAt(body, endIdx, CLOSE)
    ensures r.Step? ==> endIdx < r.next <= |body| && r.action.start <= endIdx
  {
    assert body[endIdx] == body[endIdx..endIdx + 2][0] == '}';
    var inner := SkipSpaces(body, idx + 1);
    var end := BackSpaces(body, endIdx);
    match body[idx]
    case '#' => Step(NewAction(OpenBlock, inner, end), endIdx + 2)
    case '/' => Step(NewAction(CloseBlock, inner, end), endIdx + 2)
    case '^' => Step(NewAction(ElseBlock, inner, end), endIdx + 2)
    case '!' => Step(NewAction(Ignore, idx + 1, endIdx), endIdx + 2)
    case '>' => Step(NewAction(Partial, inner, end), endIdx + 2)
    case '{' =>
      if CharAt(body, endIdx + 2) == '}' then Step(NewAction(UnescapeTag, inner, end), endIdx + 3) else BadTag
    case '&' => Step(NewAction(UnescapeTag, inner, end), endIdx + 2)
    case '=' => BadTag
    case _ => Step(NewAction(Tag, SkipSpaces(body, idx), end), endIdx + 2)
  }

  datatype Scan = BadScan | Scan(fragments: seq<Range>, tags: seq<Action>)

  const END := NewAction(Ignore, 0, 0)

  /** The pieces of text and the tags from position `current` on, the tags not yet linked. */
  function ScanFrom(body: string, current: nat): (r: Scan)
    requires current <= |body|
    ensures r.Scan? ==> |r.fragments| == |r.tags| > 0
    decreases |body| - current
  {
    var idx := FindFrom(body, OPEN, current);
    if idx == |body| then Scan([Range(current, idx)], [END])
    else
      var endIdx := FindFrom(body, CLOSE, idx + 2);
      if endIdx == idx + 2 || endIdx == |body| then BadScan
      else
        match TagAt(body, idx + 2, endIdx)
        case BadTag => BadScan
        case Step(action, next) =>
          match ScanFrom(body, next)
          case BadScan => BadScan
          case Scan(fragments, tags) => Scan([Range(current, idx)] + fragments, [action] + tags)
  }

  /** Pieces of text are in order and end before a tag or with the text. */
  predicate Pieces(body: string, f: seq<Range>) {
    && (forall i :: 0 <= i < |f| ==> f[i].first <= f[i].second <= |body|)
    && (forall i :: 0 <= i < |f| - 1 ==> f[i].second < |body| && body[f[i].second] == '{')
    && (|f| > 0 ==> f[|f| - 1].second == |body|)
  }

  lemma {:induction false} ScanPieces(body: string, current: nat)
    requires current <= |body| && ScanFrom(body, current).Scan?
    ensures Pieces(body, ScanFrom(body, current).fragments)
    ensures InText(body, ScanFrom(body, current).tags)
    decreases |body| - current
  {
    hide TagAt, FindFrom;
    var idx := FindFrom(body, OPEN, current);
    if idx < |body| {
      assert body[idx] == body[idx..idx + 2][0] == '{';
      var endIdx := FindFrom(body, CLOSE, idx + 2);
      ScanPieces(body, TagAt(body, idx + 2, endIdx).next);
    }
  }

  // ---------------------------------------------------------------- standalone lines

  /** Where the spaces at the end of a piece begin. */
  function SpacesBack(body: string, first: nat, e: nat): (r: nat)
    requires first <= e <= |body|
    ensures first <= r <= e && (r > first ==> body[r - 1] != ' ')
    ensures forall k :: r <= k < e ==> body[k] == ' '
    decreases e
  {
    if e > first && body[e - 1] == ' ' then SpacesBack(body, first, e - 1) else e
  }

  /** Where the spaces at the start of a piece end. */
  function SpacesOn(body: string, k: nat, second: nat): (r: nat)
    requires k <= second <= |body|
    ensures k <= r <= second && (r < second ==> body[r] != ' ')
    ensures forall i :: k <= i < r ==> body[i] == ' '
    decreases second - k
  {
    if k < second && body[k] == ' ' then SpacesOn(body, k + 1, second) else k
  }

  /** Only spaces between the start of the line, or of the text, and the tag. */
  predicate LineStart(body: string, f: seq<Range>, i: nat)
    requires i < |f| && f[i].first <= f[i].second <= |body|
  {
    var r := SpacesBack(body, f[i].first, f[i].second);
    if r == f[i].first then i == 0 else body[r - 1] == '\n'
  }

  predicate NewlineAt(body: string, k: nat) {
    k < |body| && (body[k] == '\n' || (body[k] == '\r' && k + 1 < |body| && body[k + 1] == '\n'))
  }

  /** Only spaces between the tag and the end of the line, or of the text after the last tag. */
  predicate LineEnd(body: string, f: seq<Range>, i: nat)
    requires i + 1 < |f| && f[i + 1].first <= f[i + 1].second <= |body|
  {
    var k := SpacesOn(body, f[i + 1].first, f[i + 1].second);
    if k == f[i + 1].second then i + 2 == |f| else NewlineAt(body, k)
  }

  /** The tag stands alone on its line and shows nothing itself. */
  predicate Standalone(body: string, f: seq<Range>, tags: seq<Action>, i: nat)
    requires i + 1 < |f| == |tags| && Pieces(body, f)
  {
    !tags[i].kind.Tag? && !tags[i].kind.UnescapeTag? && LineStart(body, f, i) && LineEnd(body, f, i)
  }

  /** Where piece `i` begins once a standalone tag before it has taken its line break. */
  function TrimmedFirst(body: string, f: seq<Range>, tags: seq<Action>, i: nat): nat
    requires i < |f| == |tags| && Pieces(body, f)
  {
    if i > 0 && Standalone(body, f, tags, i - 1) then
      var k := SpacesOn(body, f[i].first, f[i].second);
      if k == f[i].second then f[i].first else if body[k] == '\n' then k + 1 else k + 2
    else f[i].first
  }

  /** Where piece `i` ends once a standalone tag after it has taken its indentation. */
  function TrimmedSecond(body: string, f: seq<Range>, tags: seq<Action>, i: nat): nat
    requires i < |f| == |tags| && Pieces(body, f)
  {
    if i + 1 < |f| && Standalone(body, f, tags, i) then SpacesBack(body, f[i].first, f[i].second)
    else f[i].second
  }

  function Trimmed(body: string, f: seq<Range>, tags: seq<Action>): seq<Range>
    requires |f| == |tags| && Pieces(body, f)
  {
    seq(|f|, i requires 0 <= i < |f| =>
      Range(TrimmedFirst(body, f, tags, i), TrimmedSecond(body, f, tags, i)))
  }

  /** A partial standing alone keeps its indentation as `pos`. */
  function Indented(body: string, f: seq<Range>, tags: seq<Action>, a: Action, i: nat): Action
    requires i < |f| == |tags| && Pieces(body, f)
  {
    if i + 1 < |f| && a.kind.Partial? && Standalone(body, f, tags, i)
    then a.(pos := f[i].second - SpacesBack(body, f[i].first, f[i].second))
    else a
  }

  /** Trimming never makes a piece negative, and takes only spaces before a tag and only spaces with
      their line break behind it. */
  lemma TrimmedIsBlank(body: string, f: seq<Range>, tags: seq<Action>, i: nat)
    requires i < |f| == |tags| && Pieces(body, f)
    ensures var a, b := TrimmedFirst(body, f, tags, i), TrimmedSecond(body, f, tags, i);
      && f[i].first <= a <= b <= f[i].second
      && (forall k :: b <= k < f[i].second ==> body[k] == ' ')
      && (a > f[i].first ==>
            (body[a - 1] == '\n' &&
             forall k :: f[i].first <= k < a - 1 ==> body[k] == ' ' || (body[k] == '\r' && k == a - 2)))
  {
    var a, b := TrimmedFirst(body, f, tags, i), TrimmedSecond(body, f, tags, i);
    if a > f[i].first {
      var k := SpacesOn(body, f[i].first, f[i].second);
      assert body[k] == '\n' || k + 1 < f[i].second;
    }
  }

  lemma {:induction false} SpacesOnShorter(body: string, k: nat, e: nat, second: nat)
    requires k < e <= second <= |body| && body[e - 1] != ' '
    ensures SpacesOn(body, k, e) == SpacesOn(body, k, second) < e
    decreases second - k
  {
    if body[k] == ' ' { SpacesOnShorter(body, k + 1, e, second); }
  }
}
