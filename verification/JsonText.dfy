/** JSON texts: what the parser accepts and what it reads, as functions of the text. A character
    stands for a byte. */
module JsonText {

  /** What a text denotes; a number keeps its spelling, an object the order of its members. */
  datatype Doc =
    | Null
    | False
    | True
    | Number(text: string)
    | String(s: string)
    | List(items: seq<Doc>)
    | Object(members: seq<Member>)
  datatype Member = Member(key: string, value: Doc)

  /** The buffer is NUL-terminated. */
  function CharAt(s: string, i: nat): char { if i < |s| then s[i] else '\0' }

  // ---------------------------------------------------------------- strings

  predicate IsHex(c: char) { '0' <= c <= '9' || 'a' <= c <= 'f' || 'A' <= c <= 'F' }

  function FromHex(c: char): (r: nat)
    requires IsHex(c)
    ensures r < 16
  {
    if c >= 'a' then c as int - 'a' as int + 10
    else if c >= 'A' then c as int - 'A' as int + 10
    else c as int - '0' as int
  }

  predicate SimpleEscape(c: char) { c in "\"\\/bfnrt" }

  /** How long the string unit at `p` is: one byte, or an escape; 0 if there is none, as at the
      closing quote and at a NUL. */
  function UnitLength(s: string, p: nat): (n: nat)
    ensures p + n <= |s| || n == 0
  {
    if p >= |s| || s[p] == '\"' || s[p] == '\0' then 0
    else if s[p] != '\\' then 1
    else if SimpleEscape(CharAt(s, p + 1)) then 2
    else if CharAt(s, p + 1) == 'u' && IsHex(CharAt(s, p + 2)) && IsHex(CharAt(s, p + 3)) &&
            IsHex(CharAt(s, p + 4)) && IsHex(CharAt(s, p + 5)) then 6
    else 0
  }

  /** Where the units starting at `p` end. */
  function UnitsEnd(s: string, p: nat): (e: nat)
    requires p <= |s|
    ensures p <= e <= |s|
    decreases |s| - p
  {
    if UnitLength(s, p) == 0 then p else UnitsEnd(s, p + UnitLength(s, p))
  }

  /** A sequence of units and nothing else: the inside of a string that was accepted. */
  predicate Units(s: string)
    decreases |s|
  {
    s == "" || (UnitLength(s, 0) > 0 && Units(s[UnitLength(s, 0)..]))
  }

  /** One code unit in UTF-8; the two halves of a surrogate pair are encoded separately. */
  function Encoded(code: nat): (r: string)
    requires code < 0x1_0000
    ensures 1 <= |r| <= 3
  {
    if code >= 0x800 then
      [(0xE0 + code / 0x1000) as char, (0x80 + code / 0x40 % 0x40) as char, (0x80 + code % 0x40) as char]
    else if code >= 0x80 then [(0xC0 + code / 0x40) as char, (0x80 + code % 0x40) as char]
    else [code as char]
  }

  function CodeAt(s: string, p: nat): (r: nat)
    requires p + 4 <= |s| && IsHex(s[p]) && IsHex(s[p + 1]) && IsHex(s[p + 2]) && IsHex(s[p + 3])
    ensures r < 0x1_0000
  {
    FromHex(s[p]) * 0x1000 + FromHex(s[p + 1]) * 0x100 + FromHex(s[p + 2]) * 0x10 + FromHex(s[p + 3])
  }

  function SimpleMeaning(c: char): char {
    match c
    case 'b' => 0x08 as char
    case 'f' => 0x0c as char
    case 'n' => '\n'
    case 'r' => '\r'
    case 't' => '\t'
    case _ => c
  }

  /** What one unit stands for. */
  function UnitMeaning(s: string, p: nat): (r: string)
    requires UnitLength(s, p) > 0
    ensures 1 <= |r| <= UnitLength(s, p)
  {
    if s[p] != '\\' then [s[p]]
    else if s[p + 1] == 'u' then Encoded(CodeAt(s, p + 2))
    else [SimpleMeaning(s[p + 1])]
  }

  /** The bytes an accepted string stands for (section 7 of RFC 8259). */
  function Unescaped(s: string): string
    requires Units(s)
    decreases |s|
  {
    if s == "" then "" else UnitMeaning(s, 0) + Unescaped(s[UnitLength(s, 0)..])
  }

  datatype Text = NoText | Text(s: string, next: nat)

  /** A string at `p`: a quote, units, a quote. */
  function ParseString(s: string, p: nat): (r: Text)
    requires p <= |s|
    ensures r.Text? ==> p + 1 < r.next <= |s|
  {
    if CharAt(s, p) != '\"' then NoText
    else
      var e := UnitsEnd(s, p + 1);
      if CharAt(s, e) == '\"' then
        UnitsEndUnits(s, p + 1);
        Text(Unescaped(s[p + 1..e]), e + 1)
      else NoText
  }

  /** A unit depends on its own bytes only. */
  lemma UnitFrame(s: string, p: nat, t: string, q: nat)
    requires UnitLength(s, p) > 0 && q + UnitLength(s, p) <= |t|
    requires t[q..q + UnitLength(s, p)] == s[p..p + UnitLength(s, p)]
    ensures UnitLength(t, q) == UnitLength(s, p) && UnitMeaning(t, q) == UnitMeaning(s, p)
  {
    var n := UnitLength(s, p);
    var a, b := t[q..q + n], s[p..p + n];
    assert a[0] == t[q] && b[0] == s[p];
    if n >= 2 { assert a[1] == t[q + 1] && b[1] == s[p + 1]; }
    if n == 6 {
      assert a[2] == t[q + 2] && b[2] == s[p + 2] && a[3] == t[q + 3] && b[3] == s[p + 3];
      assert a[4] == t[q + 4] && b[4] == s[p + 4] && a[5] == t[q + 5] && b[5] == s[p + 5];
    }
  }

  lemma {:induction false} UnitsEndUnits(s: string, p: nat)
    requires p <= |s|
    ensures Units(s[p..UnitsEnd(s, p)])
    decreases |s| - p
  {
    var n := UnitLength(s, p);
    if n > 0 {
      var e := UnitsEnd(s, p + n);
      UnitsEndUnits(s, p + n);
      assert s[p..e][0..n] == s[p..p + n];
      UnitFrame(s, p, s[p..e], 0);
      assert s[p..e][n..] == s[p + n..e];
    }
  }

  // ---------------------------------------------------------------- numbers

  datatype NumberState = Minus | AfterMinus | ZeroFirst | Digits | DigitsAfterPoints | E | DigitsAfterE | Invalid

  predicate IsDigit(c: char) { '0' <= c <= '9' }

  /** The tables of `decode_number`, one column a state. */
  function AfterZero(st: NumberState): NumberState {
    match st
    case Minus => ZeroFirst case AfterMinus => ZeroFirst case ZeroFirst => Invalid case Digits => Digits
    case DigitsAfterPoints => DigitsAfterPoints case E => DigitsAfterE case DigitsAfterE => DigitsAfterE
    case Invalid => Invalid
  }

  function AfterDigit(st: NumberState): NumberState {
    match st
    case Minus => Digits case AfterMinus => Digits case ZeroFirst => Invalid case Digits => Digits
    case DigitsAfterPoints => DigitsAfterPoints case E => DigitsAfterE case DigitsAfterE => DigitsAfterE
    case Invalid => Invalid
  }

  function AfterPoint(st: NumberState): NumberState {
    if st.ZeroFirst? || st.Digits? then DigitsAfterPoints else Invalid
  }

  function AfterHyphen(st: NumberState): NumberState {
    if st.Minus? then AfterMinus else if st.E? then DigitsAfterE else Invalid
  }

  function AfterPlus(st: NumberState): NumberState { if st.E? then DigitsAfterE else Invalid }

  function AfterExponent(st: NumberState): NumberState {
    if st.Digits? || st.DigitsAfterPoints? then E else Invalid
  }

  predicate MayEnd(st: NumberState) { st.ZeroFirst? || st.Digits? || st.DigitsAfterPoints? || st.DigitsAfterE? }

  predicate InNumber(c: char) { IsDigit(c) || c == '.' || c == '-' || c == '+' || c == 'e' || c == 'E' }

  function NumberStep(st: NumberState, c: char): NumberState
    requires InNumber(c)
  {
    if c == '0' then AfterZero(st)
    else if IsDigit(c) then AfterDigit(st)
    else if c == '.' then AfterPoint(st)
    else if c == '-' then AfterHyphen(st)
    else if c == '+' then AfterPlus(st)
    else AfterExponent(st)
  }

  datatype End = NoEnd | End(next: nat)

  /** Where the number read so far in state `st` ends, one byte at a time. */
  function NumberEnd(s: string, p: nat, st: NumberState): (r: End)
    requires p <= |s|
    ensures r.End? ==> p <= r.next <= |s|
    decreases |s| - p
  {
    if st.Invalid? then NoEnd
    else if InNumber(CharAt(s, p)) then NumberEnd(s, p + 1, NumberStep(st, CharAt(s, p)))
    else if MayEnd(st) then End(p)
    else NoEnd
  }

  lemma NumberNotEmpty(s: string, p: nat)
    requires p <= |s| && NumberEnd(s, p, Minus).End?
    ensures p < NumberEnd(s, p, Minus).next
  {
  }

  // ---------------------------------------------------------------- values

  const MAX_DEPTH := 10000

  predicate IsSpace(c: char) { c == ' ' || c == '\t' || c == '\r' || c == '\n' }

  function SkipSpaces(s: string, p: nat): (r: nat)
    requires p <= |s|
    ensures p <= r <= |s| && !IsSpace(CharAt(s, r))
    decreases |s| - p
  {
    if IsSpace(CharAt(s, p)) then SkipSpaces(s, p + 1) else p
  }

  predicate At(s: string, p: nat, what: string) { p + |what| <= |s| && s[p..p + |what|] == what }

  datatype Parsed = Bad | Value(doc: Doc, next: nat)
  datatype Listed = BadList | Items(docs: seq<Doc>, next: nat)
  datatype Membered = BadObject | Members(members: seq<Member>, next: nat)

  function ParseValue(s: string, p: nat, depth: nat): (r: Parsed)
    requires p <= |s|
    ensures r.Value? ==> p < r.next <= |s|
    decreases |s| - p, 3
  {
    var c := CharAt(s, p);
    if c == '[' then
      match ParseList(s, p, depth + 1)
      case BadList => Bad
      case Items(docs, next) => Value(List(docs), next)
    else if c == '{' then
      match ParseObject(s, p, depth + 1)
      case BadObject => Bad
      case Members(members, next) => Value(Object(members), next)
    else if c == '\"' then
      match ParseString(s, p)
      case NoText => Bad
      case Text(t, next) => Value(String(t), next)
    else if c == 't' then if At(s, p, "true") then Value(True, p + 4) else Bad
    else if c == 'f' then if At(s, p, "false") then Value(False, p + 5) else Bad
    else if c == 'n' then if At(s, p, "null") then Value(Null, p + 4) else Bad
    else
      match NumberEnd(s, p, Minus)
      case NoEnd => Bad
      case End(e) =>
        NumberNotEmpty(s, p);
        Value(Number(s[p..e]), e)
  }

  function ParseList(s: string, p: nat, depth: nat): (r: Listed)
    requires p <= |s| && CharAt(s, p) == '['
    ensures r.Items? ==> p < r.next <= |s|
    decreases |s| - p, 2
  {
    if depth > MAX_DEPTH then BadList
    else
      var q := SkipSpaces(s, p + 1);
      if CharAt(s, q) == ']' then Items([], q + 1) else ParseItems(s, q, depth)
  }

  function ParseItems(s: string, p: nat, depth: nat): (r: Listed)
    requires p <= |s|
    ensures r.Items? ==> p < r.next <= |s|
    decreases |s| - p, 4
  {
    match ParseValue(s, p, depth + 1)
    case Bad => BadList
    case Value(doc, next) =>
      var q := SkipSpaces(s, next);
      if CharAt(s, q) == ']' then Items([doc], q + 1)
      else if CharAt(s, q) != ',' then BadList
      else
        match ParseItems(s, SkipSpaces(s, q + 1), depth)
        case BadList => BadList
        case Items(docs, end) => Items([doc] + docs, end)
  }

  function ParseObject(s: string, p: nat, depth: nat): (r: Membered)
    requires p <= |s| && CharAt(s, p) == '{'
    ensures r.Members? ==> p < r.next <= |s|
    decreases |s| - p, 2
  {
    if depth > MAX_DEPTH then BadObject
    else
      var q := SkipSpaces(s, p + 1);
      if CharAt(s, q) == '}' then Members([], q + 1) else ParseMembers(s, q, depth)
  }

  function ParseMembers(s: string, p: nat, depth: nat): (r: Membered)
    requires p <= |s|
    ensures r.Members? ==> p < r.next <= |s|
    decreases |s| - p, 4
  {
    match ParseString(s, p)
    case NoText => BadObject
    case Text(key, afterKey) =>
      var colon := SkipSpaces(s, afterKey);
      if CharAt(s, colon) != ':' then BadObject
      else
        match ParseValue(s, SkipSpaces(s, colon + 1), depth + 1)
        case Bad => BadObject
        case Value(doc, next) =>
          var q := SkipSpaces(s, next);
          if CharAt(s, q) == '}' then Members([Member(key, doc)], q + 1)
          else if CharAt(s, q) != ',' then BadObject
          else
            match ParseMembers(s, SkipSpaces(s, q + 1), depth)
            case BadObject => BadObject
            case Members(members, end) => Members([Member(key, doc)] + members, end)
  }

  /** A whole text: one value, and then nothing but space up to the end or a NUL. */
  function Parse(s: string): Parsed {
    match ParseValue(s, SkipSpaces(s, 0), 0)
    case Bad => Bad
    case Value(doc, next) =>
      if CharAt(s, SkipSpaces(s, next)) == '\0' then Value(doc, next) else Bad
  }
}
