/** Printing JSON values, and the theorem that the parser undoes the printer. */
module JsonPrint {
  import opened T = JsonText

  /** A value to print, without floating point; an object in the order its map is walked. */
  datatype Json =
    | JNull
    | JFalse
    | JTrue
    | JInt(n: int)
    | JString(s: string)
    | JList(items: seq<Json>)
    | JObject(entries: seq<Entry>)
  datatype Entry = Entry(key: string, value: Json)

  // ---------------------------------------------------------------- strings

  function ToHex(n: nat): (c: char)
    requires n < 16
    ensures IsHex(c) && FromHex(c) == n
  {
    if n < 10 then '0' + n as char else 'a' + (n - 10) as char
  }

  function EscapedChar(c: char): (r: string)
    ensures r != ""
  {
    if c == '\"' then "\\\""
    else if c == '\\' then "\\\\"
    else if c == '\n' then "\\n"
    else if c == 0x08 as char then "\\b"
    else if c == 0x0c as char then "\\f"
    else if c == '\r' then "\\r"
    else if c == '\t' then "\\t"
    else if c < ' ' then "\\u00" + [ToHex(c as int / 16), ToHex(c as int % 16)]
    else [c]
  }

  function Escaped(s: string): string {
    if s == "" then "" else EscapedChar(s[0]) + Escaped(s[1..])
  }

  /** The escape of a byte is one unit, whatever follows, and means that byte. */
  lemma EscapedUnit(c: char, s: string, p: nat)
    requires At(s, p, EscapedChar(c))
    ensures UnitLength(s, p) == |EscapedChar(c)| && UnitMeaning(s, p) == [c]
  {
    var e := EscapedChar(c);
    assert s[p..p + |e|][0] == s[p] == e[0];
    if |e| >= 2 { assert s[p..p + |e|][1] == s[p + 1] == e[1]; }
    if |e| == 6 {
      assert s[p..p + 6][2] == s[p + 2] == e[2] && s[p..p + 6][3] == s[p + 3] == e[3];
      assert s[p..p + 6][4] == s[p + 4] == e[4] && s[p..p + 6][5] == s[p + 5] == e[5];
    }
  }

  /** Escaping is undone by unescaping, for every byte string. */
  lemma {:induction false} EscapeRoundTrip(s: string)
    ensures Units(Escaped(s)) && Unescaped(Escaped(s)) == s
  {
    if s != "" {
      hide EscapedChar, UnitLength, UnitMeaning;
      var e, rest := EscapedChar(s[0]), Escaped(s[1..]);
      EscapeRoundTrip(s[1..]);
      assert (e + rest)[0..|e|] == e && (e + rest)[|e|..] == rest;
      EscapedUnit(s[0], e + rest, 0);
      assert s == [s[0]] + s[1..];
    }
  }

  lemma AtSplit(s: string, p: nat, a: string, b: string)
    requires At(s, p, a + b)
    ensures At(s, p, a) && At(s, p + |a|, b) && p + |a| + |b| <= |s|
  {
    assert s[p..p + |a + b|][..|a|] == s[p..p + |a|];
    assert s[p..p + |a + b|][|a|..] == s[p + |a|..p + |a + b|];
  }

  lemma AtIs(s: string, p: nat, t: string)
    requires At(s, p, t)
    ensures p + |t| <= |s| && s[p..p + |t|] == t
  {
  }

  lemma AtChar(s: string, p: nat, c: char)
    requires At(s, p, [c])
    ensures p < |s| && s[p] == c
  {
    assert s[p..p + 1][0] == s[p];
  }

  lemma EscapedHead(t: string)
    requires t != ""
    ensures Escaped(t) == EscapedChar(t[0]) + Escaped(t[1..])
  {
  }

  lemma NextUnit(s: string, p: nat)
    requires p <= |s| && UnitLength(s, p) > 0
    ensures UnitsEnd(s, p) == UnitsEnd(s, p + UnitLength(s, p))
  {
  }

  lemma {:induction false} UnitsOver(s: string, p: nat, t: string)
    requires At(s, p, Escaped(t)) && CharAt(s, p + |Escaped(t)|) == '\"'
    ensures UnitsEnd(s, p) == p + |Escaped(t)|
    decreases |t|
  {
    hide At, UnitLength, Escaped, EscapedChar, UnitMeaning, UnitsEnd;
    if t == "" {
      NoneEscaped(s, p);
    } else {
      EscapedHead(t);
      AtSplit(s, p, EscapedChar(t[0]), Escaped(t[1..]));
      EscapedUnit(t[0], s, p);
      NextUnit(s, p);
      UnitsOver(s, p + |EscapedChar(t[0])|, t[1..]);
    }
  }

  lemma NoneEscaped(s: string, p: nat)
    requires CharAt(s, p + |Escaped("")|) == '\"'
    ensures Escaped("") == "" && p < |s| && UnitsEnd(s, p) == p
  {
  }

  function Quoted(t: string): string { "\"" + Escaped(t) + "\"" }

  lemma {:induction false} StringRoundTrip(s: string, p: nat, t: string)
    requires At(s, p, Quoted(t))
    ensures ParseString(s, p) == Text(t, p + |Quoted(t)|)
  {
    hide At, Escaped, Unescaped, UnitsEnd;
    var e := Escaped(t);
    assert Quoted(t) == "\"" + (e + "\"");
    AtSplit(s, p, "\"", e + "\"");
    AtSplit(s, p + 1, e, "\"");
    AtChar(s, p, '\"');
    AtChar(s, p + 1 + |e|, '\"');
    UnitsOver(s, p + 1, t);
    AtIs(s, p + 1, e);
    EscapeRoundTrip(t);
  }

  // ---------------------------------------------------------------- numbers

  function Decimal(n: nat): (r: string)
    ensures r != "" && forall i :: 0 <= i < |r| ==> IsDigit(r[i])
  {
    if n < 10 then ['0' + n as char] else Decimal(n / 10) + ['0' + (n % 10) as char]
  }

  /** `std::to_string` */
  function NumberText(n: int): string { if n < 0 then "-" + Decimal(-n) else Decimal(n) }

  function DigitValue(c: char): nat
    requires IsDigit(c)
  {
    c as int - '0' as int
  }

  /** The number a decimal numeral stands for, read from the left. */
  function DecimalValue(s: string): nat
    requires forall i :: 0 <= i < |s| ==> IsDigit(s[i])
  {
    if s == "" then 0 else DecimalValue(s[..|s| - 1]) * 10 + DigitValue(s[|s| - 1])
  }

  predicate IsNumeral(s: string) {
    if s != "" && s[0] == '-' then forall i :: 1 <= i < |s| ==> IsDigit(s[i])
    else forall i :: 0 <= i < |s| ==> IsDigit(s[i])
  }

  function NumberValue(s: string): int
    requires IsNumeral(s)
  {
    if s != "" && s[0] == '-' then -(DecimalValue(s[1..]) as int) else DecimalValue(s)
  }

  lemma {:induction false} DecimalRoundTrip(n: nat)
    ensures DecimalValue(Decimal(n)) == n
    ensures n > 0 ==> Decimal(n)[0] != '0'
  {
    if n >= 10 {
      DecimalRoundTrip(n / 10);
      assert Decimal(n)[..|Decimal(n)| - 1] == Decimal(n / 10);
    } else {
      assert Decimal(n)[..0] == "";
    }
  }

  /** Reading back the text of an integer gives the integer. */
  lemma NumberRoundTrip(n: int)
    ensures IsNumeral(NumberText(n)) && NumberValue(NumberText(n)) == n
  {
    if n < 0 {
      DecimalRoundTrip(-n);
      assert NumberText(n)[1..] == Decimal(-n);
    } else {
      DecimalRoundTrip(n);
      assert IsDigit(NumberText(n)[0]);
    }
  }

  datatype NumType = SignedInteger | UnsignedInteger | FloatingPoint

  /** `determine_num_type` */
  function NumTypeOf(text: string): NumType {
    if '.' in text || 'e' in text || 'E' in text then FloatingPoint
    else if '-' in text then SignedInteger
    else UnsignedInteger
  }

  /** A printed integer is recognised as an integer, with a sign exactly when it is negative. */
  lemma KindOfText(n: int)
    ensures NumTypeOf(NumberText(n)) == if n < 0 then SignedInteger else UnsignedInteger
  {
    var t := NumberText(n);
    if n < 0 { assert t[0] == '-'; }
    forall c | c in t
      ensures IsDigit(c) || (n < 0 && c == '-')
    {
      var i :| 0 <= i < |t| && t[i] == c;
      if n < 0 && i > 0 { assert t[i] == Decimal(-n)[i - 1]; }
    }
  }

  lemma {:induction false} DigitsOver(s: string, p: nat, e: nat)
    requires p <= e <= |s| && (forall i :: p <= i < e ==> IsDigit(s[i])) && !InNumber(CharAt(s, e))
    ensures NumberEnd(s, p, Digits) == End(e)
    decreases e - p
  {
    if p < e { DigitsOver(s, p + 1, e); }
  }

  lemma NumberScanned(s: string, p: nat, n: int)
    requires At(s, p, NumberText(n)) && !InNumber(CharAt(s, p + |NumberText(n)|))
    ensures NumberEnd(s, p, Minus) == End(p + |NumberText(n)|)
  {
    var t := NumberText(n);
    forall i | p <= i < p + |t|
      ensures s[i] == t[i - p]
    {
      assert s[p..p + |t|][i - p] == s[i];
    }
    if n < 0 {
      DecimalRoundTrip(-n);
      DigitsOver(s, p + 2, p + |t|);
      assert s[p] == '-' && s[p + 1] == Decimal(-n)[0];
    } else if n == 0 {
      assert |t| == 1 && s[p] == '0';
    } else {
      DecimalRoundTrip(n);
      DigitsOver(s, p + 1, p + |t|);
      assert s[p] == Decimal(n)[0];
    }
  }

  // ---------------------------------------------------------------- values

  /** `indent < 0` prints on one line. */
  datatype Layout = Layout(indent: int, separator: char)

  function Repeat(c: char, n: nat): (r: string)
    ensures |r| == n && forall i :: 0 <= i < n ==> r[i] == c
  {
    if n == 0 then "" else Repeat(c, n - 1) + [c]
  }

  /** `dump_indentation_part`, if indenting. */
  function Break(l: Layout, level: nat): string {
    if l.indent >= 0 then "\n" + Repeat(l.separator, level * l.indent) else ""
  }

  function Colon(l: Layout): string { if l.indent >= 0 then ": " else ":" }

  function Dump(v: Json, l: Layout, level: nat): string
    decreases v, 0
  {
    match v
    case JNull => "null"
    case JFalse => "false"
    case JTrue => "true"
    case JInt(n) => NumberText(n)
    case JString(s) => Quoted(s)
    case JList(items) => "[" + Break(l, level + 1) + DumpItems(items, l, level + 1) + Break(l, level) + "]"
    case JObject(entries) => "{" + Break(l, level + 1) + DumpEntries(entries, l, level + 1) + Break(l, level) + "}"
  }

  function DumpItems(items: seq<Json>, l: Layout, level: nat): string
    decreases items, 1
  {
    if items == [] then ""
    else if |items| == 1 then Dump(items[0], l, level)
    else Dump(items[0], l, level) + ("," + (Break(l, level) + DumpItems(items[1..], l, level)))
  }

  function DumpEntry(e: Entry, l: Layout, level: nat): string
    decreases e, 1
  {
    Quoted(e.key) + Colon(l) + Dump(e.value, l, level)
  }

  function DumpEntries(entries: seq<Entry>, l: Layout, level: nat): string
    decreases entries, 1
  {
    if entries == [] then ""
    else if |entries| == 1 then DumpEntry(entries[0], l, level)
    else DumpEntry(entries[0], l, level) + ("," + (Break(l, level) + DumpEntries(entries[1..], l, level)))
  }

  /** What a value must be read back as. */
  function Read(v: Json): Doc
    decreases v, 0
  {
    match v
    case JNull => Null
    case JFalse => False
    case JTrue => True
    case JInt(n) => Number(NumberText(n))
    case JString(s) => String(s)
    case JList(items) => List(ReadItems(items))
    case JObject(entries) => Object(ReadEntries(entries))
  }

  function ReadItems(items: seq<Json>): seq<Doc>
    decreases items, 1
  {
    if items == [] then [] else [Read(items[0])] + ReadItems(items[1..])
  }

  function ReadEntries(entries: seq<Entry>): seq<Member>
    decreases entries, 1
  {
    if entries == [] then [] else [Member(entries[0].key, Read(entries[0].value))] + ReadEntries(entries[1..])
  }

  /** The containers of `v` pass the depth check of a parser that stands at `depth`; every level
      counts twice. */
  predicate Fits(v: Json, depth: nat)
    decreases v, 0
  {
    match v
    case JList(items) => depth + 1 <= MAX_DEPTH && FitsItems(items, depth + 2)
    case JObject(entries) => depth + 1 <= MAX_DEPTH && FitsEntries(entries, depth + 2)
    case _ => true
  }

  predicate FitsItems(items: seq<Json>, depth: nat)
    decreases items, 1
  {
    items == [] || (Fits(items[0], depth) && FitsItems(items[1..], depth))
  }

  predicate FitsEntries(entries: seq<Entry>, depth: nat)
    decreases entries, 1
  {
    entries == [] || (Fits(entries[0].value, depth) && FitsEntries(entries[1..], depth))
  }

  // ---------------------------------------------------------------- the round trip

  predicate Blank(l: Layout) { l.indent < 0 || IsSpace(l.separator) }

  lemma {:induction false} SpacesOver(s: string, p: nat, e: nat)
    requires p <= e <= |s| && (forall i :: p <= i < e ==> IsSpace(s[i])) && !IsSpace(CharAt(s, e))
    ensures SkipSpaces(s, p) == e
    decreases e - p
  {
    if p < e { SpacesOver(s, p + 1, e); }
  }

  lemma BreakIsBlank(s: string, p: nat, l: Layout, level: nat)
    requires Blank(l) && At(s, p, Break(l, level))
    ensures p + |Break(l, level)| <= |s|
    ensures forall i :: p <= i < p + |Break(l, level)| ==> IsSpace(s[i])
  {
    var b := Break(l, level);
    forall i | p <= i < p + |b|
      ensures IsSpace(s[i])
    {
      assert s[p..p + |b|][i - p] == s[i];
    }
  }

  lemma BreakOver(s: string, p: nat, l: Layout, level: nat)
    requires Blank(l) && At(s, p, Break(l, level)) && !IsSpace(CharAt(s, p + |Break(l, level)|))
    ensures SkipSpaces(s, p) == p + |Break(l, level)|
  {
    BreakIsBlank(s, p, l, level);
    SpacesOver(s, p, p + |Break(l, level)|);
  }

  predicate Starts(c: char) { c in "{[\"tfn-0123456789" }

  /** A value begins with a character that is neither space nor a bracket that closes. */
  lemma DumpStarts(v: Json, l: Layout, level: nat)
    ensures Dump(v, l, level) != "" && Starts(Dump(v, l, level)[0])
  {
    match v {
      case JInt(n) =>
        if n < 0 {} else { assert IsDigit(Decimal(n)[0]); DigitStarts(Decimal(n)[0]); }
      case JNull => case JFalse => case JTrue => case JString(_) => case JList(_) => case JObject(_) =>
    }
  }

  lemma DigitStarts(c: char)
    requires IsDigit(c)
    ensures Starts(c)
  {
    var i := c as int - '0' as int;
    assert "{[\"tfn-0123456789"[7 + i] == c;
  }

  lemma Starting(s: string, p: nat, v: Json, l: Layout, level: nat)
    requires At(s, p, Dump(v, l, level))
    ensures p < |s| && s[p] == Dump(v, l, level)[0] && Starts(s[p]) && !IsSpace(s[p])
  {
    DumpStarts(v, l, level);
    assert s[p..p + |Dump(v, l, level)|][0] == s[p];
  }

  /** Parsing a printed value inside any text: it is read back exactly, or refused exactly when it
      is nested too deep. */
  lemma {:induction false} ValueRoundTrip(s: string, p: nat, v: Json, l: Layout, level: nat, depth: nat)
    requires Blank(l) && At(s, p, Dump(v, l, level)) && !InNumber(CharAt(s, p + |Dump(v, l, level)|))
    ensures ParseValue(s, p, depth) == if Fits(v, depth) then Value(Read(v), p + |Dump(v, l, level)|) else Bad
    decreases v, 0
  {
    hide Dump, At, ParseValue, ParseList, ParseObject, Starts;
    Starting(s, p, v, l, level);
    match v {
      case JList(items) =>
        DumpList(items, l, level);
        OpensContainer(s, p, depth);
        ListRoundTrip(s, p, items, l, level, depth + 1);
      case JObject(entries) =>
        DumpObject(entries, l, level);
        OpensContainer(s, p, depth);
        ObjectRoundTrip(s, p, entries, l, level, depth + 1);
      case _ =>
        LeafRoundTrip(s, p, v, l, level, depth);
    }
  }

  lemma {:induction false} OpensContainer(s: string, p: nat, depth: nat)
    requires p < |s|
    ensures s[p] == '[' ==>
              (ParseValue(s, p, depth) ==
               match ParseList(s, p, depth + 1)
               case BadList => Bad
               case Items(docs, next) => Value(List(docs), next))
    ensures s[p] == '{' ==>
              (ParseValue(s, p, depth) ==
               match ParseObject(s, p, depth + 1)
               case BadObject => Bad
               case Members(members, next) => Value(Object(members), next))
  {
    hide ParseList, ParseObject, ParseString, NumberEnd;
  }

  lemma {:induction false} LeafRoundTrip(s: string, p: nat, v: Json, l: Layout, level: nat, depth: nat)
    requires At(s, p, Dump(v, l, level)) && !InNumber(CharAt(s, p + |Dump(v, l, level)|))
    requires !v.JList? && !v.JObject?
    ensures ParseValue(s, p, depth) == Value(Read(v), p + |Dump(v, l, level)|)
  {
    hide Quoted, NumberText, NumberEnd, ParseString, ParseList, ParseObject;
    match v {
      case JNull => AtStart(s, p, "null");
      case JFalse => AtStart(s, p, "false");
      case JTrue => AtStart(s, p, "true");
      case JInt(n) =>
        hide At;
        NumberScanned(s, p, n);
        NumberStarts(s, p, n);
      case JString(t) =>
        hide At;
        StringRoundTrip(s, p, t);
        QuoteStarts(s, p, t);
    }
  }

  lemma AtStart(s: string, p: nat, t: string)
    requires At(s, p, t) && t != ""
    ensures p < |s| && s[p] == t[0]
  {
    assert s[p..p + |t|][0] == s[p];
  }

  lemma NumberStarts(s: string, p: nat, n: int)
    requires At(s, p, NumberText(n))
    ensures p < |s| && (s[p] == '-' || IsDigit(s[p])) && s[p..p + |NumberText(n)|] == NumberText(n)
  {
    assert s[p..p + |NumberText(n)|][0] == s[p];
    if n >= 0 { assert s[p] == Decimal(n)[0]; }
  }

  lemma QuoteStarts(s: string, p: nat, t: string)
    requires At(s, p, Quoted(t))
    ensures p < |s| && s[p] == '\"'
  {
    assert s[p..p + |Quoted(t)|][0] == s[p];
  }

  lemma {:induction false} ListRoundTrip(s: string, p: nat, items: seq<Json>, l: Layout, level: nat, depth: nat)
    requires Blank(l) && At(s, p, Dump(JList(items), l, level)) && CharAt(s, p) == '['
    ensures ParseList(s, p, depth) ==
            if depth <= MAX_DEPTH && FitsItems(items, depth + 1)
            then Items(ReadItems(items), p + |Dump(JList(items), l, level)|) else BadList
    decreases items, 2
  {
    hide ParseValue, Dump, Read, Fits, At, DumpItems, DumpEntries, Break, SkipSpaces;
    var inner, tail := DumpItems(items, l, level + 1), Break(l, level) + "]";
    assert Dump(JList(items), l, level) == "[" + (Break(l, level + 1) + (inner + tail)) by { DumpList(items, l, level); }
    AtSplit(s, p, "[", Break(l, level + 1) + (inner + tail));
    AtSplit(s, p + 1, Break(l, level + 1), inner + tail);
    var q := p + 1 + |Break(l, level + 1)|;
    if items == [] {
      NoItems(l, level + 1);
      assert inner + tail == tail;
      TailOver(s, q, l, level, ']');
      EmptyOver(s, p + 1, q, l, level, ']');
    } else {
      AtSplit(s, q, inner, tail);
      FirstItem(s, q, items, l, level + 1);
      BreakOver(s, p + 1, l, level + 1);
      ItemsRoundTrip(s, q, items, l, level + 1, level, depth);
    }
  }

  lemma DumpList(items: seq<Json>, l: Layout, level: nat)
    ensures Dump(JList(items), l, level) ==
            "[" + (Break(l, level + 1) + (DumpItems(items, l, level + 1) + (Break(l, level) + "]")))
  {
  }

  lemma NoItems(l: Layout, level: nat)
    ensures DumpItems([], l, level) == "" && DumpEntries([], l, level) == ""
  {
  }

  lemma ItemsText(items: seq<Json>, l: Layout, level: nat)
    requires items != []
    ensures DumpItems(items, l, level) ==
            if |items| == 1 then Dump(items[0], l, level)
            else Dump(items[0], l, level) + ("," + (Break(l, level) + DumpItems(items[1..], l, level)))
  {
  }

  lemma EntriesText(entries: seq<Entry>, l: Layout, level: nat)
    requires entries != []
    ensures DumpEntries(entries, l, level) ==
            if |entries| == 1 then DumpEntry(entries[0], l, level)
            else DumpEntry(entries[0], l, level) + ("," + (Break(l, level) + DumpEntries(entries[1..], l, level)))
  {
  }

  lemma FirstItem(s: string, q: nat, items: seq<Json>, l: Layout, level: nat)
    requires items != [] && At(s, q, DumpItems(items, l, level))
    ensures At(s, q, Dump(items[0], l, level)) && q < |s| && Starts(s[q]) && !IsSpace(s[q])
  {
    if |items| > 1 {
      AtSplit(s, q, Dump(items[0], l, level), "," + (Break(l, level) + DumpItems(items[1..], l, level)));
    }
    Starting(s, q, items[0], l, level);
  }

  /** A line break and a closing bracket. */
  lemma TailOver(s: string, q: nat, l: Layout, level: nat, close: char)
    requires Blank(l) && At(s, q, Break(l, level) + [close]) && !IsSpace(close)
    ensures SkipSpaces(s, q) == q + |Break(l, level)| && CharAt(s, q + |Break(l, level)|) == close
    ensures CharAt(s, q) == close || IsSpace(CharAt(s, q))
  {
    AtSplit(s, q, Break(l, level), [close]);
    AtChar(s, q + |Break(l, level)|, close);
    BreakOver(s, q, l, level);
  }

  /** Two line breaks in a row, with nothing between them. */
  lemma {:induction false} EmptyOver(s: string, p: nat, q: nat, l: Layout, level: nat, close: char)
    requires Blank(l) && !IsSpace(close)
    requires At(s, p, Break(l, level + 1)) && q == p + |Break(l, level + 1)| && At(s, q, Break(l, level) + [close])
    ensures SkipSpaces(s, p) == q + |Break(l, level)|
  {
    hide At, Break;
    var a, b := Break(l, level + 1), Break(l, level);
    AtSplit(s, q, b, [close]);
    AtChar(s, q + |b|, close);
    BreakIsBlank(s, p, l, level + 1);
    BreakIsBlank(s, q, l, level);
    SpacesOver(s, p, q + |b|);
  }

  lemma {:induction false} ItemParsed(s: string, p: nat, v: Json, l: Layout, level: nat, depth: nat)
    requires Blank(l) && At(s, p, Dump(v, l, level)) && !InNumber(CharAt(s, p + |Dump(v, l, level)|))
    ensures p + |Dump(v, l, level)| <= |s|
    ensures
      var q := SkipSpaces(s, p + |Dump(v, l, level)|);
      ParseItems(s, p, depth) ==
        if !Fits(v, depth + 1) then BadList
        else if CharAt(s, q) == ']' then Items([Read(v)], q + 1)
        else if CharAt(s, q) != ',' then BadList
        else
          match ParseItems(s, SkipSpaces(s, q + 1), depth)
          case BadList => BadList
          case Items(docs, end) => Items([Read(v)] + docs, end)
    decreases v, 1
  {
    hide ParseValue, Dump, Read, Fits, SkipSpaces, At;
    AtIs(s, p, Dump(v, l, level));
    ValueRoundTrip(s, p, v, l, level, depth + 1);
  }

  lemma {:induction false} ItemsRoundTrip(s: string, p: nat, items: seq<Json>, l: Layout, level: nat, outer: nat, depth: nat)
    requires Blank(l) && items != []
    requires At(s, p, DumpItems(items, l, level))
    requires At(s, p + |DumpItems(items, l, level)|, Break(l, outer) + "]")
    ensures ParseItems(s, p, depth) ==
            if FitsItems(items, depth + 1)
            then Items(ReadItems(items), p + |DumpItems(items, l, level)| + |Break(l, outer)| + 1) else BadList
    decreases items, 1
  {
    hide ParseItems, Dump, DumpItems, Read, Fits, Break, At, SkipSpaces;
    ItemsText(items, l, level);
    var first := Dump(items[0], l, level);
    var next := p + |first|;
    if |items| == 1 {
      TailOver(s, next, l, outer, ']');
      ItemParsed(s, p, items[0], l, level, depth);
      assert items[1..] == [];
    } else {
      CommaOver(s, next, l, level, DumpItems(items[1..], l, level), p, first);
      var q := next + 1 + |Break(l, level)|;
      FirstItem(s, q, items[1..], l, level);
      BreakOver(s, next + 1, l, level);
      ItemParsed(s, p, items[0], l, level, depth);
      ItemsRoundTrip(s, q, items[1..], l, level, outer, depth);
    }
  }

  lemma {:induction false} ObjectRoundTrip(s: string, p: nat, entries: seq<Entry>, l: Layout, level: nat, depth: nat)
    requires Blank(l) && At(s, p, Dump(JObject(entries), l, level)) && CharAt(s, p) == '{'
    ensures ParseObject(s, p, depth) ==
            if depth <= MAX_DEPTH && FitsEntries(entries, depth + 1)
            then Members(ReadEntries(entries), p + |Dump(JObject(entries), l, level)|) else BadObject
    decreases entries, 2
  {
    hide ParseValue, Dump, Read, Fits, At, DumpItems, DumpEntries, Break, SkipSpaces;
    var inner, tail := DumpEntries(entries, l, level + 1), Break(l, level) + "}";
    assert Dump(JObject(entries), l, level) == "{" + (Break(l, level + 1) + (inner + tail)) by {
      DumpObject(entries, l, level);
    }
    AtSplit(s, p, "{", Break(l, level + 1) + (inner + tail));
    AtSplit(s, p + 1, Break(l, level + 1), inner + tail);
    var q := p + 1 + |Break(l, level + 1)|;
    if entries == [] {
      NoItems(l, level + 1);
      assert inner + tail == tail;
      TailOver(s, q, l, level, '}');
      EmptyOver(s, p + 1, q, l, level, '}');
    } else {
      AtSplit(s, q, inner, tail);
      FirstEntry(s, q, entries, l, level + 1);
      BreakOver(s, p + 1, l, level + 1);
      EntriesRoundTrip(s, q, entries, l, level + 1, level, depth);
    }
  }

  lemma DumpObject(entries: seq<Entry>, l: Layout, level: nat)
    ensures Dump(JObject(entries), l, level) ==
            "{" + (Break(l, level + 1) + (DumpEntries(entries, l, level + 1) + (Break(l, level) + "}")))
  {
  }

  /** The key of the first entry, the colon and its value. */
  lemma FirstEntry(s: string, q: nat, entries: seq<Entry>, l: Layout, level: nat)
    requires entries != [] && At(s, q, DumpEntries(entries, l, level))
    ensures At(s, q, DumpEntry(entries[0], l, level)) && q < |s| && s[q] == '\"'
  {
    var first := DumpEntry(entries[0], l, level);
    if |entries| > 1 {
      AtSplit(s, q, first, "," + (Break(l, level) + DumpEntries(entries[1..], l, level)));
    }
    assert first[0] == '\"' && s[q..q + |first|][0] == s[q];
  }

  /** Key, colon and value of one entry are read back. */
  lemma ColonOver(s: string, p: nat, l: Layout)
    requires At(s, p, Colon(l)) && !IsSpace(CharAt(s, p + |Colon(l)|))
    ensures SkipSpaces(s, p) == p && CharAt(s, p) == ':' && SkipSpaces(s, p + 1) == p + |Colon(l)|
  {
    assert s[p..p + |Colon(l)|][0] == s[p];
    if l.indent >= 0 { assert s[p..p + 2][1] == s[p + 1]; }
    SpacesOver(s, p + 1, p + |Colon(l)|);
  }

  lemma {:induction false} EntryRead(s: string, p: nat, e: Entry, l: Layout, level: nat)
    requires At(s, p, DumpEntry(e, l, level))
    ensures ParseString(s, p) == Text(e.key, p + |Quoted(e.key)|)
    ensures var colon := p + |Quoted(e.key)|;
      && SkipSpaces(s, colon) == colon && CharAt(s, colon) == ':'
      && SkipSpaces(s, colon + 1) == colon + |Colon(l)|
      && At(s, colon + |Colon(l)|, Dump(e.value, l, level))
      && colon + |Colon(l)| + |Dump(e.value, l, level)| == p + |DumpEntry(e, l, level)|
  {
    hide Dump, At, Escaped, ParseString, SkipSpaces, Quoted, Colon;
    var key, d := Quoted(e.key), Dump(e.value, l, level);
    assert DumpEntry(e, l, level) == key + (Colon(l) + d);
    AtSplit(s, p, key, Colon(l) + d);
    var colon := p + |key|;
    AtSplit(s, colon, Colon(l), d);
    StringRoundTrip(s, p, e.key);
    Starting(s, colon + |Colon(l)|, e.value, l, level);
    ColonOver(s, colon, l);
  }

  lemma {:induction false} EntryParsed(s: string, p: nat, e: Entry, l: Layout, level: nat, depth: nat)
    requires Blank(l) && At(s, p, DumpEntry(e, l, level)) && !InNumber(CharAt(s, p + |DumpEntry(e, l, level)|))
    ensures p + |DumpEntry(e, l, level)| <= |s|
    ensures
      var q := SkipSpaces(s, p + |DumpEntry(e, l, level)|);
      ParseMembers(s, p, depth) ==
        if !Fits(e.value, depth + 1) then BadObject
        else if CharAt(s, q) == '}' then Members([Member(e.key, Read(e.value))], q + 1)
        else if CharAt(s, q) != ',' then BadObject
        else
          match ParseMembers(s, SkipSpaces(s, q + 1), depth)
          case BadObject => BadObject
          case Members(members, end) => Members([Member(e.key, Read(e.value))] + members, end)
    decreases e
  {
    hide ParseValue, Dump, DumpEntry, Read, Fits, ParseString, SkipSpaces, Colon, Quoted, At;
    AtIs(s, p, DumpEntry(e, l, level));
    EntryRead(s, p, e, l, level);
    ValueRoundTrip(s, p + |Quoted(e.key)| + |Colon(l)|, e.value, l, level, depth + 1);
  }

  lemma {:induction false} EntriesRoundTrip(s: string, p: nat, entries: seq<Entry>, l: Layout, level: nat, outer: nat, depth: nat)
    requires Blank(l) && entries != []
    requires At(s, p, DumpEntries(entries, l, level))
    requires At(s, p + |DumpEntries(entries, l, level)|, Break(l, outer) + "}")
    ensures ParseMembers(s, p, depth) ==
            if FitsEntries(entries, depth + 1)
            then Members(ReadEntries(entries), p + |DumpEntries(entries, l, level)| + |Break(l, outer)| + 1)
            else BadObject
    decreases entries, 1
  {
    hide ParseMembers, Dump, DumpEntry, DumpEntries, Read, Fits, Break, SkipSpaces, At;
    EntriesText(entries, l, level);
    var first := DumpEntry(entries[0], l, level);
    var next := p + |first|;
    ReadFirst(entries, depth);
    if |entries| == 1 {
      TailOver(s, next, l, outer, '}');
      EntryParsed(s, p, entries[0], l, level, depth);
    } else {
      hide FitsEntries, ReadEntries;
      CommaOver(s, next, l, level, DumpEntries(entries[1..], l, level), p, first);
      var q := next + 1 + |Break(l, level)|;
      FirstEntry(s, q, entries[1..], l, level);
      BreakOver(s, next + 1, l, level);
      EntryParsed(s, p, entries[0], l, level, depth);
      EntriesRoundTrip(s, q, entries[1..], l, level, outer, depth);
    }
  }

  lemma ReadFirst(entries: seq<Entry>, depth: nat)
    requires entries != []
    ensures FitsEntries(entries, depth + 1) == (Fits(entries[0].value, depth + 1) && FitsEntries(entries[1..], depth + 1))
    ensures ReadEntries(entries) == [Member(entries[0].key, Read(entries[0].value))] + ReadEntries(entries[1..])
    ensures FitsEntries([], depth + 1) && ReadEntries([]) == []
  {
  }

  lemma {:induction false} CommaOver(s: string, next: nat, l: Layout, level: nat, rest: string, p: nat, first: string)
    requires At(s, p, first + ("," + (Break(l, level) + rest))) && next == p + |first|
    ensures At(s, p, first) && next < |s| && s[next] == ',' && SkipSpaces(s, next) == next
    ensures At(s, next + 1, Break(l, level)) && At(s, next + 1 + |Break(l, level)|, rest)
    ensures next + 1 + |Break(l, level)| + |rest| <= |s|
  {
    hide At, Break;
    AtSplit(s, p, first, "," + (Break(l, level) + rest));
    AtSplit(s, next, ",", Break(l, level) + rest);
    AtChar(s, next, ',');
    CommaStays(s, next);
    AtSplit(s, next + 1, Break(l, level), rest);
  }

  lemma CommaStays(s: string, p: nat)
    requires p < |s| && s[p] == ','
    ensures SkipSpaces(s, p) == p
  {
  }

  // ---------------------------------------------------------------- how deep

  function Max(a: nat, b: nat): nat { if a < b then b else a }

  /** How many containers are nested in one another. */
  function Depth(v: Json): nat
    decreases v, 0
  {
    match v
    case JList(items) => 1 + DepthItems(items)
    case JObject(entries) => 1 + DepthEntries(entries)
    case _ => 0
  }

  function DepthItems(items: seq<Json>): nat
    decreases items, 1
  {
    if items == [] then 0 else Max(Depth(items[0]), DepthItems(items[1..]))
  }

  function DepthEntries(entries: seq<Entry>): nat
    decreases entries, 1
  {
    if entries == [] then 0 else Max(Depth(entries[0].value), DepthEntries(entries[1..]))
  }

  lemma {:induction false} FitsDepth(v: Json, depth: nat)
    ensures Fits(v, depth) <==> Depth(v) == 0 || depth + 2 * Depth(v) - 1 <= MAX_DEPTH
    decreases v, 0
  {
    match v {
      case JList(items) => FitsDepthItems(items, depth + 2);
      case JObject(entries) => FitsDepthEntries(entries, depth + 2);
      case _ =>
    }
  }

  lemma {:induction false} FitsDepthItems(items: seq<Json>, depth: nat)
    ensures FitsItems(items, depth) <==> DepthItems(items) == 0 || depth + 2 * DepthItems(items) - 1 <= MAX_DEPTH
    decreases items, 1
  {
    if items != [] {
      FitsDepth(items[0], depth);
      FitsDepthItems(items[1..], depth);
    }
  }

  lemma {:induction false} FitsDepthEntries(entries: seq<Entry>, depth: nat)
    ensures FitsEntries(entries, depth) <==>
            DepthEntries(entries) == 0 || depth + 2 * DepthEntries(entries) - 1 <= MAX_DEPTH
    decreases entries, 1
  {
    if entries != [] {
      FitsDepth(entries[0].value, depth);
      FitsDepthEntries(entries[1..], depth);
    }
  }

  /** The theorem: what is printed is read back, compact or indented, exactly when at most 5000
      containers are nested; deeper values are refused. */
  lemma RoundTrip(v: Json, l: Layout)
    requires Blank(l)
    ensures Parse(Dump(v, l, 0)) == if Depth(v) <= 5000 then Value(Read(v), |Dump(v, l, 0)|) else Bad
  {
    var s := Dump(v, l, 0);
    assert At(s, 0, s) by { assert s[0..|s|] == s; }
    Starting(s, 0, v, l, 0);
    ValueRoundTrip(s, 0, v, l, 0, 0);
    FitsDepth(v, 0);
  }

  /** `n` lists, one inside the other. */
  function Nest(n: nat): Json { if n == 0 then JNull else JList([Nest(n - 1)]) }

  lemma {:induction false} NestDepth(n: nat)
    ensures Depth(Nest(n)) == n
  {
    if n > 0 {
      NestDepth(n - 1);
      var inner := [Nest(n - 1)];
      assert inner[0] == Nest(n - 1) && inner[1..] == [] && DepthItems([]) == 0;
      assert DepthItems(inner) == Max(n - 1, 0);
    }
  }

  /** Nested lists are refused from 5001 on. */
  lemma NestedLists(n: nat, l: Layout)
    requires Blank(l)
    ensures Parse(Dump(Nest(n), l, 0)).Bad? <==> n > 5000
  {
    RoundTrip(Nest(n), l);
    NestDepth(n);
  }

  // ---------------------------------------------------------------- the printer

  method Escape(str: string, out: string) returns (ret: string)
    ensures ret == out + Escaped(str)
  {
    ret := out;
    for i := 0 to |str|
      invariant ret + Escaped(str[i..]) == out + Escaped(str)
    {
      assert str[i..][0] == str[i] && str[i..][1..] == str[i + 1..];
      ret := ret + EscapedChar(str[i]);
    }
    assert str[|str|..] == "";
  }

  method DumpString(str: string, out: string) returns (ret: string)
    ensures ret == out + Quoted(str)
  {
    ret := Escape(str, out + "\"");
    ret := ret + "\"";
  }

  method DumpIndentationPart(l: Layout, level: nat, out: string) returns (ret: string)
    requires l.indent >= 0
    ensures ret == out + Break(l, level)
  {
    ret := out + "\n" + Repeat(l.separator, level * l.indent);
  }

  /** `dump_internal`: appends exactly the text of the value. */
  method DumpInternal(v: Json, l: Layout, level: nat, out: string) returns (ret: string)
    ensures ret == out + Dump(v, l, level)
    decreases v, 0
  {
    hide Break, DumpItems, DumpEntries, Quoted, NumberText;
    match v {
      case JNull => ret := out + "null";
      case JFalse => ret := out + "false";
      case JTrue => ret := out + "true";
      case JInt(n) => ret := out + NumberText(n);
      case JString(t) => ret := DumpString(t, out);
      case JList(items) =>
        ret := out + "[";
        if l.indent >= 0 { ret := DumpIndentationPart(l, level + 1, ret); }
        ret := DumpAll(items, l, level + 1, ret);
        if l.indent >= 0 { ret := DumpIndentationPart(l, level, ret); }
        ret := ret + "]";
        Appended(out, "[", Break(l, level + 1), DumpItems(items, l, level + 1), Break(l, level), "]");
        if l.indent < 0 { NoBreak(l, level); NoBreak(l, level + 1); }
      case JObject(entries) =>
        ret := out + "{";
        if l.indent >= 0 { ret := DumpIndentationPart(l, level + 1, ret); }
        ret := DumpMembers(entries, l, level + 1, ret);
        if l.indent >= 0 { ret := DumpIndentationPart(l, level, ret); }
        ret := ret + "}";
        Appended(out, "{", Break(l, level + 1), DumpEntries(entries, l, level + 1), Break(l, level), "}");
        if l.indent < 0 { NoBreak(l, level); NoBreak(l, level + 1); }
    }
  }

  lemma Appended(out: string, a: string, b: string, c: string, d: string, e: string)
    ensures out + a + b + c + d + e == out + (a + b + c + d + e)
  {
  }

  /** What the loop still has to print before item `i`. */
  function Left(items: seq<Json>, l: Layout, level: nat, i: nat): string
    requires i <= |items|
  {
    if i == |items| then ""
    else (if i == 0 then "" else "," + Break(l, level)) + DumpItems(items[i..], l, level)
  }

  lemma LeftStep(items: seq<Json>, l: Layout, level: nat, i: nat)
    requires i < |items|
    ensures Left(items, l, level, i) ==
            (if i == 0 then "" else "," + Break(l, level)) + Dump(items[i], l, level) + Left(items, l, level, i + 1)
  {
    assert items[i..][1..] == items[i + 1..];
  }

  method DumpAll(items: seq<Json>, l: Layout, level: nat, out: string) returns (ret: string)
    ensures ret == out + DumpItems(items, l, level)
    decreases items, 1
  {
    hide Dump, DumpItems, Left, Break;
    ret := out;
    var first := true;
    var i := 0;
    LeftEnds(items, l, level);
    while i < |items|
      invariant i <= |items| && (first <==> i == 0)
      invariant ret + Left(items, l, level, i) == out + DumpItems(items, l, level)
    {
      LeftStep(items, l, level, i);
      if !first {
        ret := ret + ",";
        if l.indent >= 0 { ret := DumpIndentationPart(l, level, ret); } else { NoBreak(l, level); }
      }
      first := false;
      ret := DumpInternal(items[i], l, level, ret);
      i := i + 1;
    }
  }

  lemma NoBreak(l: Layout, level: nat)
    requires l.indent < 0
    ensures Break(l, level) == ""
  {
  }

  lemma LeftEnds(items: seq<Json>, l: Layout, level: nat)
    ensures Left(items, l, level, 0) == DumpItems(items, l, level) && Left(items, l, level, |items|) == ""
  {
    assert items[0..] == items;
  }

  function LeftEntries(entries: seq<Entry>, l: Layout, level: nat, i: nat): string
    requires i <= |entries|
  {
    if i == |entries| then ""
    else (if i == 0 then "" else "," + Break(l, level)) + DumpEntries(entries[i..], l, level)
  }

  lemma LeftEntriesStep(entries: seq<Entry>, l: Layout, level: nat, i: nat)
    requires i < |entries|
    ensures LeftEntries(entries, l, level, i) ==
            (if i == 0 then "" else "," + Break(l, level)) + DumpEntry(entries[i], l, level) +
            LeftEntries(entries, l, level, i + 1)
  {
    assert entries[i..][1..] == entries[i + 1..];
  }

  lemma LeftEntriesEnds(entries: seq<Entry>, l: Layout, level: nat)
    ensures LeftEntries(entries, l, level, 0) == DumpEntries(entries, l, level)
    ensures LeftEntries(entries, l, level, |entries|) == ""
  {
    assert entries[0..] == entries;
  }

  method DumpMembers(entries: seq<Entry>, l: Layout, level: nat, out: string) returns (ret: string)
    ensures ret == out + DumpEntries(entries, l, level)
    decreases entries, 1
  {
    hide Dump, DumpEntries, LeftEntries, Break, Quoted;
    ret := out;
    var first := true;
    var i := 0;
    LeftEntriesEnds(entries, l, level);
    while i < |entries|
      invariant i <= |entries| && (first <==> i == 0)
      invariant ret + LeftEntries(entries, l, level, i) == out + DumpEntries(entries, l, level)
    {
      LeftEntriesStep(entries, l, level, i);
      if !first {
        ret := ret + ",";
        if l.indent >= 0 { ret := DumpIndentationPart(l, level, ret); } else { NoBreak(l, level); }
      }
      first := false;
      ret := DumpString(entries[i].key, ret);
      ret := ret + ":";
      if l.indent >= 0 { ret := ret + " "; }
      ret := DumpInternal(entries[i].value, l, level, ret);
      i := i + 1;
    }
  }
}
