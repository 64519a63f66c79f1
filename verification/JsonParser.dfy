/** The recursive-descent parser over one mutable NUL-terminated buffer: strings are ended and
    flagged in place, and unescaped in place when they are read. */
module JsonParser {
  import opened JsonText
  import P = JsonPrint

  // ---------------------------------------------------------------- values that point into the buffer

  /** `rvalue`: numbers and strings are ranges of the buffer. */
  datatype RValue =
    | RError
    | RNull
    | RFalse
    | RTrue
    | RNumber(start: nat, end: nat)
    | RString(start: nat, end: nat)
    | RList(items: seq<RValue>)
    | RObject(members: seq<RMember>)
  datatype RMember = RMember(keyStart: nat, keyEnd: nat, value: RValue)

  /** The value uses `[lo, hi)` of the buffer only; a string has its flag before and its NUL behind. */
  predicate Inside(r: RValue, lo: nat, hi: nat) {
    match r
    case RError => false
    case RNumber(start, end) => lo <= start <= end <= hi
    case RString(start, end) => lo < start <= end < hi
    case RList(items) => forall x :: x in items ==> Inside(x, lo, hi)
    case RObject(members) =>
      forall m :: m in members ==> lo <= m.keyStart <= m.keyEnd <= hi && Inside(m.value, lo, hi)
    case _ => true
  }

  function StringText(b: string, start: nat, end: nat): string
    requires 0 < start <= end <= |b|
  {
    var raw := b[start..end];
    if b[start - 1] != '\0' && Units(raw) then Unescaped(raw) else raw
  }

  /** What a value denotes while the buffer holds `b`. */
  function Denote(b: string, r: RValue): Doc
    requires Inside(r, 0, |b|)
  {
    match r
    case RFalse => False
    case RTrue => True
    case RNumber(start, end) => Number(b[start..end])
    case RString(start, end) => String(StringText(b, start, end))
    case RList(items) => List(seq(|items|, i requires 0 <= i < |items| => (assert items[i] in items; Denote(b, items[i]))))
    case RObject(members) =>
      Object(seq(|members|, i requires 0 <= i < |members| =>
        (assert members[i] in members;
         Member(b[members[i].keyStart..members[i].keyEnd], Denote(b, members[i].value)))))
    case _ => Null
  }

  lemma {:induction false} InsideWider(r: RValue, lo: nat, hi: nat, lo2: nat, hi2: nat)
    requires Inside(r, lo, hi) && lo2 <= lo && hi <= hi2
    ensures Inside(r, lo2, hi2)
    decreases r
  {
    match r {
      case RList(items) =>
        forall x | x in items ensures Inside(x, lo2, hi2) { InsideWider(x, lo, hi, lo2, hi2); }
      case RObject(members) =>
        forall m | m in members ensures Inside(m.value, lo2, hi2) { InsideWider(m.value, lo, hi, lo2, hi2); }
      case _ =>
    }
  }

  /** Writing elsewhere in the buffer changes nothing a value denotes. */
  lemma {:induction false} DenoteFrame(b: string, c: string, r: RValue, lo: nat, hi: nat)
    requires hi <= |b| == |c| && Inside(r, lo, hi) && lo <= hi && b[lo..hi] == c[lo..hi]
    ensures Inside(r, 0, |b|) && Denote(b, r) == Denote(c, r)
    decreases r
  {
    InsideWider(r, lo, hi, 0, |b|);
    match r {
      case RNumber(start, end) =>
        SliceFrame(b, c, lo, hi, start, end);
      case RString(start, end) =>
        SliceFrame(b, c, lo, hi, start, end);
        SliceFrame(b, c, lo, hi, start - 1, end);
        assert b[start - 1] == b[start - 1..end][0] == c[start - 1..end][0] == c[start - 1];
      case RList(items) =>
        forall i | 0 <= i < |items| ensures items[i] in items && Inside(items[i], 0, |b|) && Denote(b, items[i]) == Denote(c, items[i]) {
          assert items[i] in items;
          DenoteFrame(b, c, items[i], lo, hi);
        }
      case RObject(members) =>
        forall i | 0 <= i < |members|
          ensures members[i] in members && Inside(members[i].value, 0, |b|)
          ensures Denote(b, members[i].value) == Denote(c, members[i].value)
          ensures b[members[i].keyStart..members[i].keyEnd] == c[members[i].keyStart..members[i].keyEnd]
        {
          assert members[i] in members;
          DenoteFrame(b, c, members[i].value, lo, hi);
          SliceFrame(b, c, lo, hi, members[i].keyStart, members[i].keyEnd);
        }
      case _ =>
    }
  }

  lemma SliceFrame(b: string, c: string, lo: nat, hi: nat, x: nat, y: nat)
    requires hi <= |b| == |c| && lo <= x <= y <= hi && b[lo..hi] == c[lo..hi]
    ensures b[x..y] == c[x..y]
  {
    forall i | x <= i < y
      ensures b[i] == c[i]
    {
      assert b[lo..hi][i - lo] == b[i] && c[lo..hi][i - lo] == c[i];
    }
  }

  // ---------------------------------------------------------------- unescaping in place

  lemma {:induction false} PlainUnits(s: string)
    requires Units(s) && '\\' !in s
    ensures Unescaped(s) == s
    decreases |s|
  {
    if s != "" {
      assert s[0] in s && forall c :: c in s[1..] ==> c in s;
      PlainUnits(s[1..]);
    }
  }

  /** `rvalue::unescape`: rewrites the string in place. The write cursor never passes the read
      cursor; the flag in the opening quote is cleared, so that a second call changes nothing. */
  method Unescape(buf: array<char>, start: nat, end: nat) returns (newEnd: nat)
    requires 0 < start <= end < buf.Length
    requires buf[start - 1] != '\0' ==> Units(buf[start..end])
    modifies buf
    ensures start <= newEnd <= end
    ensures buf[start..newEnd] == old(StringText(buf[..], start, end))
    ensures buf[start - 1] == '\0'
    ensures old(buf[start - 1]) == '\0' ==> newEnd == end && buf[..] == old(buf[..])
    ensures old(buf[start - 1]) != '\0' ==> buf[newEnd] == '\0'
    ensures forall i :: 0 <= i < buf.Length && !(start - 1 <= i <= end) ==> buf[i] == old(buf[i])
  {
    hide Units, Unescaped, UnitMeaning, UnitLength, StringText;
    assert buf[..][start..end] == buf[start..end];
    RawOrUnescaped(buf[..], start, end);
    if buf[start - 1] == '\0' { return end; }
    ghost var was := buf[..];
    ghost var goal := Unescaped(was[start..end]);
    var head, tail := start, start;
    while head != end
      invariant start <= tail <= head <= end
      invariant forall i :: 0 <= i < buf.Length && !(start <= i < tail) ==> buf[i] == was[i]
      invariant Units(was[head..end]) && buf[start..tail] + Unescaped(was[head..end]) == goal
      decreases end - head
    {
      ghost var n, h, t, done := UnitLength(was[head..end], 0), head, tail, buf[start..tail];
      assert buf[head..end] == was[head..end];
      head, tail := CopyUnit(buf, head, tail, end);
      UnescapedStep(was, h, end);
      assert buf[start..tail] == done + UnitMeaning(was[h..end], 0) by {
        assert buf[start..t] == done && buf[start..tail] == buf[start..t] + buf[t..tail];
      }
      JoinText(done, UnitMeaning(was[h..end], 0), Unescaped(was[head..end]));
    }
    assert was[head..end] == "";
    NothingLeft();
    newEnd := tail;
    buf[newEnd] := '\0';
    buf[start - 1] := '\0';
  }

  lemma RawOrUnescaped(b: string, start: nat, end: nat)
    requires 0 < start <= end <= |b|
    ensures b[start - 1] == '\0' ==> StringText(b, start, end) == b[start..end]
    ensures b[start - 1] != '\0' && Units(b[start..end]) ==> StringText(b, start, end) == Unescaped(b[start..end])
  {
  }

  lemma NothingLeft()
    ensures Units("") && Unescaped("") == ""
  {
  }

  lemma JoinText(a: string, b: string, c: string)
    ensures a + (b + c) == (a + b) + c
  {
  }

  lemma UnescapedStep(b: string, h: nat, end: nat)
    requires h < end <= |b| && Units(b[h..end])
    ensures var n := UnitLength(b[h..end], 0);
      && 0 < n && h + n <= end && Units(b[h + n..end])
      && Unescaped(b[h..end]) == UnitMeaning(b[h..end], 0) + Unescaped(b[h + n..end])
  {
    var n := UnitLength(b[h..end], 0);
    assert b[h..end][n..] == b[h + n..end];
  }

  /** One round of the loop: one byte or one escape. */
  method CopyUnit(buf: array<char>, h: nat, t: nat, end: nat) returns (head: nat, tail: nat)
    requires t <= h < end <= buf.Length && Units(buf[h..end])
    modifies buf
    ensures head == h + old(UnitLength(buf[h..end], 0)) <= end && t <= tail <= head
    ensures buf[t..tail] == old(UnitMeaning(buf[h..end], 0))
    ensures forall i :: 0 <= i < buf.Length && !(t <= i < tail) ==> buf[i] == old(buf[i])
  {
    hide Units, UnitLength, UnitMeaning, Encoded, SimpleMeaning, IsHex;
    UnitAt(buf[..], h, end);
    assert buf[..][h..end] == buf[h..end];
    head, tail := h, t;
    if buf[head] == '\\' {
      head := head + 1;
      if buf[head] == 'u' {
        var code := FromHex(buf[head + 1]) * 0x1000 + FromHex(buf[head + 2]) * 0x100 +
                    FromHex(buf[head + 3]) * 0x10 + FromHex(buf[head + 4]);
        tail := PutCode(buf, tail, code, head + 5);
        head := head + 4;
      } else {
        buf[tail] := SimpleMeaning(buf[head]);
        tail := tail + 1;
      }
    } else {
      buf[tail] := buf[head];
      tail := tail + 1;
    }
    head := head + 1;
  }

  /** One code unit, in one to three bytes. */
  method PutCode(buf: array<char>, at: nat, code: nat, limit: nat) returns (tail: nat)
    requires at + 3 <= limit <= buf.Length && code < 0x1_0000
    modifies buf
    ensures at <= tail <= at + 3 && buf[at..tail] == Encoded(code)
    ensures forall i :: 0 <= i < buf.Length && !(at <= i < tail) ==> buf[i] == old(buf[i])
  {
    tail := at;
    if code >= 0x800 {
      buf[tail] := (0xE0 + code / 0x1000) as char;
      buf[tail + 1] := (0x80 + code / 0x40 % 0x40) as char;
      buf[tail + 2] := (0x80 + code % 0x40) as char;
      tail := tail + 3;
    } else if code >= 0x80 {
      buf[tail] := (0xC0 + code / 0x40) as char;
      buf[tail + 1] := (0x80 + code % 0x40) as char;
      tail := tail + 2;
    } else {
      buf[tail] := code as char;
      tail := tail + 1;
    }
  }

  lemma UnitAt(b: string, h: nat, end: nat)
    requires h < end <= |b| && Units(b[h..end])
    ensures var s, n := b[h..end], UnitLength(b[h..end], 0);
      && 0 < n && h + n <= end && (b[h] != '\\' ==> n == 1 && UnitMeaning(s, 0) == [b[h]])
      && (b[h] == '\\' ==> h + 2 <= end && n == if b[h + 1] == 'u' then 6 else 2)
      && (b[h] == '\\' && n == 2 ==> UnitMeaning(s, 0) == [SimpleMeaning(b[h + 1])])
      && (n == 6 ==> IsHex(b[h + 2]) && IsHex(b[h + 3]) && IsHex(b[h + 4]) && IsHex(b[h + 5]) &&
                     UnitMeaning(s, 0) == Encoded(CodeAt(b, h + 2)))
  {
  }

  // ---------------------------------------------------------------- the growing list

  /** `emplace_back`: doubles, but by 60000 at most, so that the 16-bit count of free slots holds. */
  class Growing<T(0)> {
    var slots: array<T>
    var size: nat
    var remain: nat

    ghost predicate Valid()
      reads this, slots
    {
      size + remain == slots.Length && remain < 0x1_0000
    }

    ghost function Contents(): seq<T>
      reads this, slots
      requires Valid()
    {
      slots[..size]
    }

    constructor ()
      ensures Valid() && Contents() == [] && fresh(slots)
    {
      slots := new T[0];
      size, remain := 0, 0;
    }

    method EmplaceBack(v: T)
      requires Valid()
      modifies this, slots
      ensures Valid() && Contents() == old(Contents()) + [v]
      ensures fresh(slots) || slots == old(slots)
    {
      if remain == 0 {
        var newSize := size + size;
        if newSize - size > 60000 { newSize := size + 60000; }
        if newSize < 4 { newSize := 4; }
        var p := new T[newSize];
        var i := 0;
        while i < size
          modifies p
          invariant i <= size <= slots.Length && newSize == p.Length && size < newSize
          invariant p[..i] == slots[..i]
        {
          p[i] := slots[i];
          i := i + 1;
        }
        assert p[..size] == slots[..size];
        slots := p;
        remain := newSize - size;
      }
      ghost var before := slots[..size];
      slots[size] := v;
      assert slots[..size] == before && slots[..size + 1] == before + [v];
      size := size + 1;
      remain := remain - 1;
    }
  }

  // ---------------------------------------------------------------- the parser

  class Parser {
    const buf: array<char>
    var data: nat
    ghost const text: string

    /** The part not yet read is untouched, and the NUL stands at the end. */
    ghost predicate Valid()
      reads this, buf
    {
      && buf.Length == |text| + 1 && data <= |text| && buf[|text|] == '\0'
      && forall i :: data <= i < |text| ==> buf[i] == text[i]
    }

    /** `load`: copies the text and puts a NUL behind it. */
    constructor (t: string)
      ensures Valid() && data == 0 && text == t && fresh(buf)
    {
      var b := new char[|t| + 1](i requires 0 <= i <= |t| => if i < |t| then t[i] else '\0');
      buf, data, text := b, 0, t;
    }

    method Consume(c: char) returns (ok: bool)
      requires Valid() && c != '\0'
      modifies this`data
      ensures Valid() && ok == (CharAt(text, old(data)) == c) && data == old(data) + (if ok then 1 else 0)
    {
      if buf[data] != c { return false; }
      data := data + 1;
      return true;
    }

    method WsSkip()
      requires Valid()
      modifies this`data
      ensures Valid() && data == SkipSpaces(text, old(data))
    {
      while buf[data] == ' ' || buf[data] == '\t' || buf[data] == '\r' || buf[data] == '\n'
        invariant Valid() && old(data) <= data && SkipSpaces(text, old(data)) == SkipSpaces(text, data)
        decreases |text| - data
      {
        data := data + 1;
      }
    }

    /** The closing quote is reached: it and the opening quote are overwritten. */
    method CloseString(start: nat, hasEscaping: bool)
      requires Valid() && 0 < start <= data < |text| && data < buf.Length && buf[start..data] == text[start..data]
      requires Units(text[start..data]) && (!hasEscaping ==> forall i :: start <= i < data ==> text[i] != '\\')
      requires text[data] == '\"'
      modifies this`data, buf
      ensures Valid() && data == old(data) + 1 && buf[data - 1] == '\0'
      ensures forall i :: 0 <= i < start - 1 ==> buf[i] == old(buf[i])
      ensures Units(buf[start..data - 1]) && StringText(buf[..], start, data - 1) == Unescaped(text[start..data - 1])
    {
      hide Units, Unescaped, StringText;
      buf[data] := '\0';
      buf[start - 1] := if hasEscaping then 1 as char else '\0';
      data := data + 1;
      assert buf[start..data - 1] == text[start..data - 1];
      FlagRight(buf[..], text, start, data - 1);
    }

    /** `decode_string`: the closing quote becomes a NUL, the opening quote says whether there is an
        escape. */
    method DecodeString() returns (r: RValue)
      requires Valid()
      modifies this`data, buf
      ensures Valid() && old(data) <= data
      ensures forall i :: 0 <= i < old(data) ==> buf[i] == old(buf[i])
      ensures match ParseString(text, old(data))
              case NoText => r == RError
              case Text(t, next) =>
                && r == RString(old(data) + 1, next - 1) && data == next
                && buf[next - 1] == '\0' && (buf[old(data)] != '\0' ==> Units(buf[old(data) + 1..next - 1]))
                && StringText(buf[..], old(data) + 1, next - 1) == t
    {
      hide ParseString, UnitLength, UnitsEnd, Units, Unescaped, StringText;
      ghost var open := data;
      StringShape(text, open);
      var quote := Consume('\"');
      if !quote { return RError; }
      var start := data;
      var hasEscaping := false;
      while true
        invariant Valid() && start <= data && UnitsEnd(text, start) == UnitsEnd(text, data)
        invariant buf[..] == old(buf[..])
        invariant !hasEscaping ==> forall i :: start <= i < data ==> text[i] != '\\'
        decreases |text| - data
      {
        UnitHere(text, data);
        ghost var was := data;
        if buf[data] != '\"' && buf[data] != '\\' && buf[data] != '\0' {
          data := data + 1;
        } else if buf[data] == '\"' {
          StringEnds(text, open, data);
          CloseString(start, hasEscaping);
          return RString(start, data - 1);
        } else if buf[data] == '\\' {
          hasEscaping := true;
          var ok := SkipEscape();
          if !ok {
            NoString(text, open, was);
            return RError;
          }
        } else {
          NoString(text, open, was);
          return RError;
        }
      }
    }

    /** The escapes `decode_string` lets pass. */
    method SkipEscape() returns (ok: bool)
      requires Valid() && buf[data] == '\\'
      modifies this`data
      ensures Valid() && old(data) <= data
      ensures ok <==> UnitLength(text, old(data)) > 0
      ensures ok ==> data == old(data) + UnitLength(text, old(data))
    {
      UnitHere(text, data);
      data := data + 1;
      if buf[data] == 'u' {
        if !(IsHex(buf[data + 1]) && IsHex(buf[data + 2]) && IsHex(buf[data + 3]) && IsHex(buf[data + 4])) {
          return false;
        }
        data := data + 5;
        return true;
      } else if SimpleEscape(buf[data]) {
        data := data + 1;
        return true;
      } else {
        return false;
      }
    }

    /** `decode_number`: a table-driven automaton that skips over runs of digits. */
    method DecodeNumber() returns (r: RValue)
      requires Valid()
      modifies this`data
      ensures Valid() && old(data) <= data
      ensures match NumberEnd(text, old(data), Minus)
              case NoEnd => r == RError
              case End(e) => r == RNumber(old(data), e) && data == e
    {
      var start := data;
      var state := Minus;
      while !state.Invalid?
        invariant Valid() && start <= data <= |text|
        invariant NumberEnd(text, start, Minus) == NumberEnd(text, data, state)
        decreases !state.Invalid?, |text| - data
      {
        ValidHere();
        var c := buf[data];
        if !InNumber(c) {
          if MayEnd(state) { return RNumber(start, data); }
          return RError;
        }
        if c == '0' {
          state := AfterZero(state);
        } else if IsDigit(c) {
          state := AfterDigit(state);
          SkipDigits(state);
        } else if c == '.' {
          state := AfterPoint(state);
        } else if c == '-' {
          state := AfterHyphen(state);
        } else if c == '+' {
          state := AfterPlus(state);
        } else {
          state := AfterExponent(state);
        }
        Advance();
      }
      return RError;
    }

    ghost method ValidHere()
      requires Valid()
      ensures buf.Length == |text| + 1 && data <= |text| && buf[data] == CharAt(text, data)
    {
    }

    /** data++ inside the text. */
    method Advance()
      requires Valid() && data < |text|
      modifies this`data
      ensures Valid() && data == old(data) + 1
    {
      data := data + 1;
    }

    /** The inner loop over digits, which leaves `data` on the last of them. */
    method SkipDigits(state: NumberState)
      requires Valid() && data < |text| && IsDigit(text[data])
      requires state.Digits? || state.DigitsAfterPoints? || state.DigitsAfterE? || state.Invalid?
      modifies this`data
      ensures Valid() && old(data) <= data < |text|
      ensures NumberEnd(text, data + 1, state) == NumberEnd(text, old(data) + 1, state)
    {
      while '0' <= buf[data + 1] <= '9'
        invariant Valid() && old(data) <= data < |text|
        invariant NumberEnd(text, data + 1, state) == NumberEnd(text, old(data) + 1, state)
        decreases |text| - data
      {
        data := data + 1;
      }
    }

    /** `decode_value`: reads exactly the value the text denotes at this place, or fails exactly when
        the text does; writes nothing before the value and nothing behind it. */
    method DecodeValue(depth: nat) returns (r: RValue)
      requires Valid()
      modifies this`data, buf
      ensures Valid() && old(data) <= data
      ensures forall i :: 0 <= i < old(data) ==> buf[i] == old(buf[i])
      ensures Outcome(ParseValue(text, old(data), depth), r, old(data), data, buf[..])
      decreases |text| - data, 3
    {
      hide ParseList, ParseObject, ParseString, NumberEnd, Inside, Denote, Units, StringText, Unescaped;
      var p := data;
      ValueCases(text, p, depth);
      if buf[data] == '[' {
        r := DecodeList(depth + 1);
      } else if buf[data] == '{' {
        r := DecodeObject(depth + 1);
      } else if buf[data] == '\"' {
        r := DecodeString();
        if r.RString? { StringOutcome(buf[..], p, data); }
      } else if buf[data] == 't' {
        if buf[data + 1] == 'r' && buf[data + 2] == 'u' && buf[data + 3] == 'e' {
          data := data + 4;
          r := RTrue;
        } else {
          r := RError;
        }
        LiteralOutcome(buf[..], p);
      } else if buf[data] == 'f' {
        if buf[data + 1] == 'a' && buf[data + 2] == 'l' && buf[data + 3] == 's' && buf[data + 4] == 'e' {
          data := data + 5;
          r := RFalse;
        } else {
          r := RError;
        }
        LiteralOutcome(buf[..], p);
      } else if buf[data] == 'n' {
        if buf[data + 1] == 'u' && buf[data + 2] == 'l' && buf[data + 3] == 'l' {
          data := data + 4;
          r := RNull;
        } else {
          r := RError;
        }
        LiteralOutcome(buf[..], p);
      } else {
        r := DecodeNumber();
        if r.RNumber? {
          assert forall i :: p <= i < data ==> buf[..][i] == text[i];
          assert buf[..][p..data] == text[p..data];
          NumberOutcome(buf[..], text, p, data);
        }
      }
    }

    /** `decode_list` */
    method DecodeList(depth: nat) returns (r: RValue)
      requires Valid() && CharAt(text, data) == '['
      modifies this`data, buf
      ensures Valid() && old(data) <= data
      ensures forall i :: 0 <= i < old(data) ==> buf[i] == old(buf[i])
      ensures ListOutcome(ParseList(text, old(data), depth), r, old(data), data, buf[..])
      decreases |text| - data, 2
    {
      hide ParseItems, ParseValue, SkipSpaces, Inside, Denote, Outcome;
      ghost var p := data;
      var ok := Consume('[');
      if depth > MAX_DEPTH { return RError; }
      WsSkip();
      if buf[data] == ']' {
        data := data + 1;
        NoItems(buf[..]);
        return RList([]);
      }
      ghost var q := data;
      r := DecodeItems(depth);
      ListOutcomeWider(ParseItems(text, q, depth), r, q, data, buf[..], p);
    }

    /** `decode_object` */
    method DecodeObject(depth: nat) returns (r: RValue)
      requires Valid() && CharAt(text, data) == '{'
      modifies this`data, buf
      ensures Valid() && old(data) <= data
      ensures forall i :: 0 <= i < old(data) ==> buf[i] == old(buf[i])
      ensures ObjectOutcome(ParseObject(text, old(data), depth), r, old(data), data, buf[..])
      decreases |text| - data, 2
    {
      hide ParseMembers, ParseValue, SkipSpaces, Inside, Denote, Outcome;
      ghost var p := data;
      var ok := Consume('{');
      if depth > MAX_DEPTH { return RError; }
      WsSkip();
      if buf[data] == '}' {
        data := data + 1;
        NoItems(buf[..]);
        return RObject([]);
      }
      ghost var q := data;
      r := DecodeMembers(depth);
      ObjectOutcomeWider(ParseMembers(text, q, depth), r, q, data, buf[..], p);
    }

    /** The loop over the items of a list. */
    method DecodeItems(depth: nat) returns (r: RValue)
      requires Valid()
      modifies this`data, buf
      ensures Valid() && old(data) <= data
      ensures forall i :: 0 <= i < old(data) ==> buf[i] == old(buf[i])
      ensures ListOutcome(ParseItems(text, old(data), depth), r, old(data), data, buf[..])
      decreases |text| - data, 5
    {
      hide ParseItems, ParseValue, SkipSpaces, Inside, Denote, Outcome, Holds, Before;
      ghost var first := data;
      ghost var docs: seq<Doc> := [];
      var ret := new Growing<RValue>();
      HoldsNone(buf[..], first);
      NothingBefore(ParseItems(text, first, depth));
      while true
        invariant Valid() && first <= data && ret.Valid() && fresh(ret) && fresh(ret.slots)
        invariant forall i :: 0 <= i < first ==> buf[i] == old(buf[i])
        invariant Holds(buf[..], ret.Contents(), docs, first, data)
        invariant ParseItems(text, first, depth) == Before(docs, ParseItems(text, data, depth))
        decreases |text| - data
      {
        ghost var p := data;
        ItemsFail(text, first, p, depth, docs);
        var v, doc, end := DecodeItem(depth, first, ret.Contents(), docs);
        if v == RError { return RError; }
        ret.EmplaceBack(v);
        if buf[data] == ']' {
          data := data + 1;
          ItemsClose(text, first, p, depth, docs, doc, end);
          HoldsList(buf[..], ret.Contents(), docs + [doc], first, end, data);
          return RList(ret.slots[..ret.size]);
        }
        var comma := Consume(',');
        if !comma { return RError; }
        WsSkip();
        ItemsGoOn(text, first, p, depth, docs, doc, end);
        HoldsWider(buf[..], ret.Contents(), docs + [doc], first, end, data);
        docs := docs + [doc];
      }
    }

    /** One item and the blanks behind it. */
    method DecodeItem(depth: nat, ghost first: nat, ghost items: seq<RValue>, ghost docs: seq<Doc>)
      returns (v: RValue, ghost doc: Doc, ghost end: nat)
      requires Valid() && first <= data && Holds(buf[..], items, docs, first, data)
      modifies this`data, buf
      ensures Valid() && old(data) <= data
      ensures forall i :: 0 <= i < old(data) ==> buf[i] == old(buf[i])
      ensures v == RError ==> ParseValue(text, old(data), depth + 1) == Bad
      ensures v != RError ==>
                && ParseValue(text, old(data), depth + 1) == Value(doc, end) && data == SkipSpaces(text, end)
                && Holds(buf[..], items + [v], docs + [doc], first, end)
      decreases |text| - data, 4
    {
      hide ParseValue, SkipSpaces, Inside, Denote, Outcome, Holds;
      ghost var p, was := data, buf[..];
      v := DecodeValue(depth + 1);
      end := data;
      if v == RError {
        BadOutcome(ParseValue(text, p, depth + 1), v, p, data, buf[..]);
        doc := Null;
        return;
      }
      doc := GoodOutcome(ParseValue(text, p, depth + 1), v, p, data, buf[..]);
      assert was[first..p] == buf[..][first..p];
      HoldsMore(was, buf[..], items, docs, v, doc, first, p, data);
      WsSkip();
    }

    /** The loop over the members of an object. A key is unescaped as soon as it has been read. */
    method DecodeMembers(depth: nat) returns (r: RValue)
      requires Valid()
      modifies this`data, buf
      ensures Valid() && old(data) <= data
      ensures forall i :: 0 <= i < old(data) ==> buf[i] == old(buf[i])
      ensures ObjectOutcome(ParseMembers(text, old(data), depth), r, old(data), data, buf[..])
      decreases |text| - data, 4
    {
      hide ParseMembers, ParseMember, SkipSpaces, Inside, Denote, Outcome, HoldsMembers, MemberHolds, MembersBefore;
      ghost var first := data;
      ghost var docs: seq<Member> := [];
      var ret := new Growing<RMember>();
      HoldsNoMembers(buf[..], first);
      NoMembersBefore(ParseMembers(text, first, depth));
      while true
        invariant Valid() && first <= data && ret.Valid() && fresh(ret) && fresh(ret.slots)
        invariant forall i :: 0 <= i < first ==> buf[i] == old(buf[i])
        invariant HoldsMembers(buf[..], ret.Contents(), docs, first, data)
        invariant ParseMembers(text, first, depth) == MembersBefore(docs, ParseMembers(text, data, depth))
        decreases |text| - data
      {
        ghost var p, was, so := data, buf[..], ret.Contents();
        MembersFail(text, first, p, depth, docs);
        var m, ok := DecodeMember(depth);
        if !ok { return RError; }
        ghost var doc, end := ParseMember(text, p, depth).member, data;
        assert was[first..p] == buf[..][first..p];
        HoldsMoreMembers(was, buf[..], so, docs, m, doc, first, p, data);
        WsSkip();
        ret.EmplaceBack(m);
        if buf[data] == '}' {
          data := data + 1;
          MembersClose(text, first, p, depth, docs, doc, end);
          HoldsObject(buf[..], ret.Contents(), docs + [doc], first, end, data);
          return RObject(ret.slots[..ret.size]);
        }
        var comma := Consume(',');
        if !comma { return RError; }
        WsSkip();
        MembersGoOn(text, first, p, depth, docs, doc, end);
        HoldsMembersWider(buf[..], ret.Contents(), docs + [doc], first, end, data);
        docs := docs + [doc];
      }
    }

    /** Key, colon and value of one member. */
    method DecodeMember(depth: nat) returns (m: RMember, ok: bool)
      requires Valid()
      modifies this`data, buf
      ensures Valid() && old(data) <= data
      ensures forall i :: 0 <= i < old(data) ==> buf[i] == old(buf[i])
      ensures match ParseMember(text, old(data), depth)
              case NoMember => !ok
              case One(doc, next) => ok && data == next && MemberHolds(buf[..], m, doc, old(data), data)
      decreases |text| - data, 3
    {
      hide ParseValue, ParseString, SkipSpaces, Inside, Denote, Outcome, Units, StringText;
      m := RMember(0, 0, RNull);
      ghost var p := data;
      var keyStart, keyEnd;
      keyStart, keyEnd, ok := DecodeKey();
      if !ok { return; }
      ghost var q, keyed := data, buf[..];
      var v := DecodeValue(depth + 1);
      if v == RError {
        BadOutcome(ParseValue(text, q, depth + 1), v, q, data, buf[..]);
        return m, false;
      }
      ghost var doc := GoodOutcome(ParseValue(text, q, depth + 1), v, q, data, buf[..]);
      assert buf[..][keyStart..keyEnd] == keyed[keyStart..keyEnd];
      m := RMember(keyStart, keyEnd, v);
      InsideFrom(v, q, data, p);
    }

    /** A key with its colon: where its bytes stand once unescaped. */
    method DecodeKey() returns (keyStart: nat, keyEnd: nat, ok: bool)
      requires Valid()
      modifies this`data, buf
      ensures Valid() && old(data) <= data
      ensures forall i :: 0 <= i < old(data) ==> buf[i] == old(buf[i])
      ensures match ParseString(text, old(data))
              case NoText => !ok
              case Text(key, afterKey) =>
                var colon := SkipSpaces(text, afterKey);
                && (ok <==> CharAt(text, colon) == ':')
                && (ok ==> data == SkipSpaces(text, colon + 1) && old(data) < keyStart <= keyEnd < data
                           && buf[keyStart..keyEnd] == key)
    {
      hide ParseString, SkipSpaces, StringText, Units, Unescaped;
      ghost var p := data;
      keyStart, keyEnd := 0, 0;
      var t := DecodeString();
      if t == RError { return 0, 0, false; }
      WsSkip();
      ok := Consume(':');
      if !ok { return; }
      keyStart := t.start;
      keyEnd := Unescape(buf, t.start, t.end);
      WsSkip();
    }

    /** `parse`: one value and then the end of the text. */
    method Parse() returns (r: RValue)
      requires Valid() && data == 0
      modifies this`data, buf
      ensures Valid()
      ensures match JsonText.Parse(text)
              case Bad => r == RError
              case Value(doc, _) => Inside(r, 0, buf.Length) && Denote(buf[..], r) == doc
    {
      hide ParseValue, SkipSpaces, Inside, Denote;
      WsSkip();
      ghost var p := data;
      r := DecodeValue(0);
      if r == RError {
        BadOutcome(ParseValue(text, p, 0), r, p, data, buf[..]);
        return;
      }
      ghost var doc := GoodOutcome(ParseValue(text, p, 0), r, p, data, buf[..]);
      WsSkip();
      if buf[data] != '\0' { return RError; }
    }
  }

  // ---------------------------------------------------------------- what decoding must establish

  predicate Outcome(want: Parsed, r: RValue, from: nat, data: nat, b: string) {
    match want
    case Bad => r == RError
    case Value(doc, next) => data == next && from <= next <= |b| && Inside(r, from, next) && Inside(r, 0, |b|) && Denote(b, r) == doc
  }

  predicate ListOutcome(want: Listed, r: RValue, from: nat, data: nat, b: string) {
    match want
    case BadList => r == RError
    case Items(docs, next) => Outcome(Value(List(docs), next), r, from, data, b)
  }

  predicate ObjectOutcome(want: Membered, r: RValue, from: nat, data: nat, b: string) {
    match want
    case BadObject => r == RError
    case Members(members, next) => Outcome(Value(Object(members), next), r, from, data, b)
  }

  lemma {:induction false} ListOutcomeWider(want: Listed, r: RValue, from: nat, data: nat, b: string, from2: nat)
    requires ListOutcome(want, r, from, data, b) && from2 <= from
    ensures ListOutcome(want, r, from2, data, b)
  {
    if want.Items? { InsideWider(r, from, data, from2, data); }
  }

  lemma {:induction false} ObjectOutcomeWider(want: Membered, r: RValue, from: nat, data: nat, b: string, from2: nat)
    requires ObjectOutcome(want, r, from, data, b) && from2 <= from
    ensures ObjectOutcome(want, r, from2, data, b)
  {
    if want.Members? { InsideWider(r, from, data, from2, data); }
  }

  // ---------------------------------------------------------------- items read so far

  predicate Holds(b: string, items: seq<RValue>, docs: seq<Doc>, lo: nat, hi: nat) {
    && lo <= hi <= |b| && |items| == |docs|
    && forall i :: 0 <= i < |items| ==>
         Inside(items[i], lo, hi) && Inside(items[i], 0, |b|) && Denote(b, items[i]) == docs[i]
  }

  lemma HoldsNone(b: string, lo: nat)
    requires lo <= |b|
    ensures Holds(b, [], [], lo, lo)
  {
  }

  lemma {:induction false} HoldsWider(b: string, items: seq<RValue>, docs: seq<Doc>, lo: nat, hi: nat, hi2: nat)
    requires Holds(b, items, docs, lo, hi) && hi <= hi2 <= |b|
    ensures Holds(b, items, docs, lo, hi2)
  {
    forall i | 0 <= i < |items| ensures Inside(items[i], lo, hi2) { InsideWider(items[i], lo, hi, lo, hi2); }
  }

  /** A new item behind the others, which it leaves as they were. */
  lemma {:induction false} HoldsMore(b: string, c: string, items: seq<RValue>, docs: seq<Doc>, v: RValue, doc: Doc,
                                     lo: nat, hi: nat, next: nat)
    requires Holds(b, items, docs, lo, hi) && |b| == |c| && b[lo..hi] == c[lo..hi]
    requires hi <= next <= |c| && Inside(v, hi, next) && Inside(v, 0, |c|) && Denote(c, v) == doc
    ensures Holds(c, items + [v], docs + [doc], lo, next)
  {
    hide Denote, Inside;
    forall i | 0 <= i <= |items|
      ensures Inside((items + [v])[i], lo, next) && Inside((items + [v])[i], 0, |c|)
      ensures Denote(c, (items + [v])[i]) == (docs + [doc])[i]
    {
      if i < |items| {
        DenoteFrame(b, c, items[i], lo, hi);
        InsideWider(items[i], lo, hi, lo, next);
      } else {
        InsideWider(v, hi, next, lo, next);
      }
    }
  }

  lemma {:induction false} HoldsList(b: string, items: seq<RValue>, docs: seq<Doc>, lo: nat, hi: nat, end: nat)
    requires Holds(b, items, docs, lo, hi) && hi <= end <= |b|
    ensures Outcome(Value(List(docs), end), RList(items), lo, end, b)
  {
    HoldsWider(b, items, docs, lo, hi, end);
    forall x | x in items
      ensures Inside(x, lo, end) && Inside(x, 0, |b|)
    {
      var i :| 0 <= i < |items| && items[i] == x;
    }
    assert Inside(RList(items), lo, end) && Inside(RList(items), 0, |b|);
    var d := Denote(b, RList(items));
    assert d.items == docs;
  }

  function Before(docs: seq<Doc>, rest: Listed): Listed {
    match rest
    case BadList => BadList
    case Items(more, next) => Items(docs + more, next)
  }

  lemma NothingBefore(rest: Listed)
    ensures Before([], rest) == rest
  {
    if rest.Items? { assert [] + rest.docs == rest.docs; }
  }

  lemma BeforeOne(docs: seq<Doc>, doc: Doc, next: nat)
    ensures Before(docs, Items([doc], next)) == Items(docs + [doc], next)
  {
  }

  lemma BeforeMore(docs: seq<Doc>, doc: Doc, rest: Listed)
    ensures Before(docs, Before([doc], rest)) == Before(docs + [doc], rest)
  {
    if rest.Items? { assert docs + ([doc] + rest.docs) == docs + [doc] + rest.docs; }
  }

  /** One step of `ParseItems`. */
  lemma ItemsStep(s: string, p: nat, depth: nat)
    requires p <= |s|
    ensures ParseItems(s, p, depth) ==
      match ParseValue(s, p, depth + 1)
      case Bad => BadList
      case Value(doc, next) =>
        var q := SkipSpaces(s, next);
        if CharAt(s, q) == ']' then Items([doc], q + 1)
        else if CharAt(s, q) != ',' then BadList
        else Before([doc], ParseItems(s, SkipSpaces(s, q + 1), depth))
  {
  }

  /** An item that does not parse, or is followed by neither bracket nor comma, spoils the list. */
  lemma {:induction false} ItemsFail(s: string, first: nat, p: nat, depth: nat, docs: seq<Doc>)
    requires first <= p <= |s| && ParseItems(s, first, depth) == Before(docs, ParseItems(s, p, depth))
    ensures ParseValue(s, p, depth + 1).Bad? ==> ParseItems(s, first, depth) == BadList
    ensures ParseValue(s, p, depth + 1).Value? ==>
              var q := SkipSpaces(s, ParseValue(s, p, depth + 1).next);
              CharAt(s, q) != ']' && CharAt(s, q) != ',' ==> ParseItems(s, first, depth) == BadList
  {
    ItemsStep(s, p, depth);
    hide ParseItems, ParseValue, SkipSpaces;
  }

  /** The item at `p` is the last one. */
  lemma {:induction false} ItemsClose(s: string, first: nat, p: nat, depth: nat, docs: seq<Doc>, doc: Doc, next: nat)
    requires first <= p <= |s| && ParseItems(s, first, depth) == Before(docs, ParseItems(s, p, depth))
    requires ParseValue(s, p, depth + 1) == Value(doc, next) && CharAt(s, SkipSpaces(s, next)) == ']'
    ensures ParseItems(s, first, depth) == Items(docs + [doc], SkipSpaces(s, next) + 1)
  {
    hide *;
    ItemsStep(s, p, depth);
    BeforeOne(docs, doc, SkipSpaces(s, next) + 1);
  }

  lemma CommaInside(s: string, p: nat)
    requires p <= |s| && CharAt(s, p) == ','
    ensures p < |s|
  {
  }

  /** The list goes on behind the item at `p`. */
  lemma {:induction false} ItemsGoOn(s: string, first: nat, p: nat, depth: nat, docs: seq<Doc>, doc: Doc, next: nat)
    requires first <= p <= |s| && ParseItems(s, first, depth) == Before(docs, ParseItems(s, p, depth))
    requires ParseValue(s, p, depth + 1) == Value(doc, next) && CharAt(s, SkipSpaces(s, next)) == ','
    ensures ParseItems(s, first, depth) ==
            Before(docs + [doc], ParseItems(s, SkipSpaces(s, SkipSpaces(s, next) + 1), depth))
  {
    hide *;
    CommaInside(s, SkipSpaces(s, next));
    var rest := ParseItems(s, SkipSpaces(s, SkipSpaces(s, next) + 1), depth);
    assert ParseItems(s, p, depth) == Before([doc], rest) by { ItemsStep(s, p, depth); }
    BeforeMore(docs, doc, rest);
  }

  lemma BadOutcome(want: Parsed, r: RValue, from: nat, data: nat, b: string)
    requires Outcome(want, r, from, data, b) && r == RError
    ensures want == Bad
  {
  }

  lemma GoodOutcome(want: Parsed, r: RValue, from: nat, data: nat, b: string) returns (doc: Doc)
    requires Outcome(want, r, from, data, b) && r != RError
    ensures want == Value(doc, data) && from <= data <= |b| && Inside(r, from, data) && Inside(r, 0, |b|)
    ensures Denote(b, r) == doc
  {
    doc := want.doc;
  }

  lemma NoItems(b: string)
    ensures forall from: nat, data: nat :: from <= data <= |b| ==>
      Outcome(Value(List([]), data), RList([]), from, data, b) &&
      Outcome(Value(Object([]), data), RObject([]), from, data, b)
  {
    assert Denote(b, RList([])).items == [];
    assert Denote(b, RObject([])).members == [];
  }

  // ---------------------------------------------------------------- members read so far

  predicate MemberHolds(b: string, m: RMember, doc: Member, lo: nat, hi: nat) {
    && lo <= m.keyStart <= m.keyEnd <= hi <= |b|
    && b[m.keyStart..m.keyEnd] == doc.key
    && Inside(m.value, lo, hi) && Inside(m.value, 0, |b|)
    && Denote(b, m.value) == doc.value
  }

  predicate HoldsMembers(b: string, members: seq<RMember>, docs: seq<Member>, lo: nat, hi: nat) {
    && lo <= hi <= |b| && |members| == |docs|
    && forall i :: 0 <= i < |members| ==> MemberHolds(b, members[i], docs[i], lo, hi)
  }

  lemma {:induction false} InsideFrom(v: RValue, lo: nat, hi: nat, lo2: nat)
    requires Inside(v, lo, hi) && lo2 <= lo
    ensures Inside(v, lo2, hi)
  {
    InsideWider(v, lo, hi, lo2, hi);
  }

  lemma HoldsNoMembers(b: string, lo: nat)
    requires lo <= |b|
    ensures HoldsMembers(b, [], [], lo, lo)
  {
  }

  /** A member stays as it is while the buffer changes elsewhere. */
  lemma {:induction false} MemberFrame(b: string, c: string, m: RMember, doc: Member, lo: nat, hi: nat, lo2: nat, hi2: nat)
    requires MemberHolds(b, m, doc, lo, hi) && |b| == |c| && lo <= hi && b[lo..hi] == c[lo..hi]
    requires lo2 <= lo && hi <= hi2 <= |c|
    ensures MemberHolds(c, m, doc, lo2, hi2)
  {
    DenoteFrame(b, c, m.value, lo, hi);
    InsideWider(m.value, lo, hi, lo2, hi2);
    SliceFrame(b, c, lo, hi, m.keyStart, m.keyEnd);
  }

  lemma {:induction false} HoldsMembersWider(b: string, members: seq<RMember>, docs: seq<Member>, lo: nat, hi: nat, hi2: nat)
    requires HoldsMembers(b, members, docs, lo, hi) && hi <= hi2 <= |b|
    ensures HoldsMembers(b, members, docs, lo, hi2)
  {
    hide MemberHolds;
    forall i | 0 <= i < |members| ensures MemberHolds(b, members[i], docs[i], lo, hi2) {
      MemberFrame(b, b, members[i], docs[i], lo, hi, lo, hi2);
    }
  }

  lemma {:induction false} HoldsMoreMembers(b: string, c: string, members: seq<RMember>, docs: seq<Member>, m: RMember, doc: Member,
                                            lo: nat, hi: nat, next: nat)
    requires HoldsMembers(b, members, docs, lo, hi) && |b| == |c| && b[lo..hi] == c[lo..hi]
    requires hi <= next <= |c| && MemberHolds(c, m, doc, hi, next)
    ensures HoldsMembers(c, members + [m], docs + [doc], lo, next)
  {
    hide MemberHolds;
    var after, read := members + [m], docs + [doc];
    forall i | 0 <= i <= |members|
      ensures MemberHolds(c, after[i], read[i], lo, next)
    {
      if i < |members| {
        MemberFrame(b, c, members[i], docs[i], lo, hi, lo, next);
      } else {
        MemberFrame(c, c, m, doc, hi, next, lo, next);
      }
    }
  }

  lemma {:induction false} HoldsObject(b: string, members: seq<RMember>, docs: seq<Member>, lo: nat, hi: nat, end: nat)
    requires HoldsMembers(b, members, docs, lo, hi) && hi <= end <= |b|
    ensures Outcome(Value(Object(docs), end), RObject(members), lo, end, b)
  {
    HoldsMembersWider(b, members, docs, lo, hi, end);
    forall m | m in members
      ensures lo <= m.keyStart <= m.keyEnd <= end && Inside(m.value, lo, end) && Inside(m.value, 0, |b|)
    {
      var i :| 0 <= i < |members| && members[i] == m;
    }
    assert Inside(RObject(members), lo, end) && Inside(RObject(members), 0, |b|);
    var d := Denote(b, RObject(members));
    assert d.members == docs;
  }

  function MembersBefore(docs: seq<Member>, rest: Membered): Membered {
    match rest
    case BadObject => BadObject
    case Members(more, next) => Members(docs + more, next)
  }

  lemma NoMembersBefore(rest: Membered)
    ensures MembersBefore([], rest) == rest
  {
    if rest.Members? { assert [] + rest.members == rest.members; }
  }

  lemma MembersBeforeOne(docs: seq<Member>, doc: Member, next: nat)
    ensures MembersBefore(docs, Members([doc], next)) == Members(docs + [doc], next)
  {
  }

  lemma MembersBeforeMore(docs: seq<Member>, doc: Member, rest: Membered)
    ensures MembersBefore(docs, MembersBefore([doc], rest)) == MembersBefore(docs + [doc], rest)
  {
    if rest.Members? { assert docs + ([doc] + rest.members) == docs + [doc] + rest.members; }
  }

  datatype OneMember = NoMember | One(member: Member, next: nat)

  /** Key, colon and value. */
  function ParseMember(s: string, p: nat, depth: nat): (r: OneMember)
    requires p <= |s|
    ensures r.One? ==> p < r.next <= |s|
  {
    match ParseString(s, p)
    case NoText => NoMember
    case Text(key, afterKey) =>
      var colon := SkipSpaces(s, afterKey);
      if CharAt(s, colon) != ':' then NoMember
      else
        match ParseValue(s, SkipSpaces(s, colon + 1), depth + 1)
        case Bad => NoMember
        case Value(doc, next) => One(Member(key, doc), next)
  }

  /** One step of `ParseMembers`. */
  lemma {:induction false} MembersStep(s: string, p: nat, depth: nat)
    requires p <= |s|
    ensures ParseMembers(s, p, depth) ==
      match ParseMember(s, p, depth)
      case NoMember => BadObject
      case One(member, next) =>
        var q := SkipSpaces(s, next);
        if CharAt(s, q) == '}' then Members([member], q + 1)
        else if CharAt(s, q) != ',' then BadObject
        else MembersBefore([member], ParseMembers(s, SkipSpaces(s, q + 1), depth))
  {
  }

  /** A member that does not parse, or is followed by neither brace nor comma, spoils the object. */
  lemma {:induction false} MembersFail(s: string, first: nat, p: nat, depth: nat, docs: seq<Member>)
    requires first <= p <= |s| && ParseMembers(s, first, depth) == MembersBefore(docs, ParseMembers(s, p, depth))
    ensures ParseMember(s, p, depth).NoMember? ==> ParseMembers(s, first, depth) == BadObject
    ensures ParseMember(s, p, depth).One? ==>
              var q := SkipSpaces(s, ParseMember(s, p, depth).next);
              CharAt(s, q) != '}' && CharAt(s, q) != ',' ==> ParseMembers(s, first, depth) == BadObject
  {
    MembersStep(s, p, depth);
    hide ParseMembers, ParseMember, SkipSpaces;
  }

  /** The member at `p` is the last one. */
  lemma {:induction false} MembersClose(s: string, first: nat, p: nat, depth: nat, docs: seq<Member>, doc: Member, next: nat)
    requires first <= p <= |s| && ParseMembers(s, first, depth) == MembersBefore(docs, ParseMembers(s, p, depth))
    requires ParseMember(s, p, depth) == One(doc, next) && CharAt(s, SkipSpaces(s, next)) == '}'
    ensures ParseMembers(s, first, depth) == Members(docs + [doc], SkipSpaces(s, next) + 1)
  {
    hide *;
    MembersStep(s, p, depth);
    MembersBeforeOne(docs, doc, SkipSpaces(s, next) + 1);
  }

  /** The object goes on behind the member at `p`. */
  lemma {:induction false} MembersGoOn(s: string, first: nat, p: nat, depth: nat, docs: seq<Member>, doc: Member, next: nat)
    requires first <= p <= |s| && ParseMembers(s, first, depth) == MembersBefore(docs, ParseMembers(s, p, depth))
    requires ParseMember(s, p, depth) == One(doc, next) && CharAt(s, SkipSpaces(s, next)) == ','
    ensures ParseMembers(s, first, depth) ==
            MembersBefore(docs + [doc], ParseMembers(s, SkipSpaces(s, SkipSpaces(s, next) + 1), depth))
  {
    hide *;
    CommaInside(s, SkipSpaces(s, next));
    var rest := ParseMembers(s, SkipSpaces(s, SkipSpaces(s, next) + 1), depth);
    assert ParseMembers(s, p, depth) == MembersBefore([doc], rest) by { MembersStep(s, p, depth); }
    MembersBeforeMore(docs, doc, rest);
  }

  /** `ParseValue` by its first character. */
  lemma {:induction false} ValueCases(s: string, p: nat, depth: nat)
    requires p <= |s|
    ensures var c := CharAt(s, p);
      && (c == '[' ==> ListOf(ParseList(s, p, depth + 1)) == ParseValue(s, p, depth))
      && (c == '{' ==> ObjectOf(ParseObject(s, p, depth + 1)) == ParseValue(s, p, depth))
      && (c == '\"' ==> StringOf(ParseString(s, p)) == ParseValue(s, p, depth))
      && (c == 't' ==>
            ParseValue(s, p, depth) ==
            (if CharAt(s, p + 1) == 'r' && CharAt(s, p + 2) == 'u' && CharAt(s, p + 3) == 'e' then Value(True, p + 4) else Bad))
      && (c == 'f' ==>
            ParseValue(s, p, depth) ==
            (if CharAt(s, p + 1) == 'a' && CharAt(s, p + 2) == 'l' && CharAt(s, p + 3) == 's' && CharAt(s, p + 4) == 'e'
             then Value(False, p + 5) else Bad))
      && (c == 'n' ==>
            ParseValue(s, p, depth) ==
            (if CharAt(s, p + 1) == 'u' && CharAt(s, p + 2) == 'l' && CharAt(s, p + 3) == 'l' then Value(Null, p + 4) else Bad))
      && (c !in "[{\"tfn" ==>
            match NumberEnd(s, p, Minus)
            case NoEnd => ParseValue(s, p, depth) == Bad
            case End(e) => p <= e <= |s| && ParseValue(s, p, depth) == Value(Number(s[p..e]), e))
  {
    hide ParseList, ParseObject, ParseString, NumberEnd;
    Spelled(s, p);
    assert forall c :: c in "[{\"tfn" <==> c == '[' || c == '{' || c == '\"' || c == 't' || c == 'f' || c == 'n';
  }

  lemma Spelled(s: string, p: nat)
    requires p <= |s|
    ensures At(s, p, "true") <==>
            CharAt(s, p) == 't' && CharAt(s, p + 1) == 'r' && CharAt(s, p + 2) == 'u' && CharAt(s, p + 3) == 'e'
    ensures At(s, p, "false") <==>
            CharAt(s, p) == 'f' && CharAt(s, p + 1) == 'a' && CharAt(s, p + 2) == 'l' && CharAt(s, p + 3) == 's' &&
            CharAt(s, p + 4) == 'e'
    ensures At(s, p, "null") <==>
            CharAt(s, p) == 'n' && CharAt(s, p + 1) == 'u' && CharAt(s, p + 2) == 'l' && CharAt(s, p + 3) == 'l'
  {
    if p + 4 <= |s| {
      var w := s[p..p + 4];
      assert w[0] == s[p] && w[1] == s[p + 1] && w[2] == s[p + 2] && w[3] == s[p + 3];
      assert w == [s[p], s[p + 1], s[p + 2], s[p + 3]];
    }
    if p + 5 <= |s| {
      var w := s[p..p + 5];
      assert w[0] == s[p] && w[1] == s[p + 1] && w[2] == s[p + 2] && w[3] == s[p + 3] && w[4] == s[p + 4];
      assert w == [s[p], s[p + 1], s[p + 2], s[p + 3], s[p + 4]];
    }
  }

  function ListOf(l: Listed): Parsed {
    match l
    case BadList => Bad
    case Items(docs, next) => Value(List(docs), next)
  }

  function ObjectOf(m: Membered): Parsed {
    match m
    case BadObject => Bad
    case Members(members, next) => Value(Object(members), next)
  }

  function StringOf(t: Text): Parsed {
    match t
    case NoText => Bad
    case Text(x, next) => Value(String(x), next)
  }

  lemma StringOutcome(b: string, p: nat, data: nat)
    requires p + 1 < data <= |b|
    ensures Outcome(Value(String(StringText(b, p + 1, data - 1)), data), RString(p + 1, data - 1), p, data, b)
  {
  }

  lemma NumberOutcome(b: string, text: string, p: nat, data: nat)
    requires p <= data <= |text| < |b| && b[p..data] == text[p..data]
    ensures Outcome(Value(Number(text[p..data]), data), RNumber(p, data), p, data, b)
  {
  }

  lemma LiteralOutcome(b: string, p: nat)
    ensures p + 4 <= |b| ==> Outcome(Value(True, p + 4), RTrue, p, p + 4, b) && Outcome(Value(Null, p + 4), RNull, p, p + 4, b)
    ensures p + 5 <= |b| ==> Outcome(Value(False, p + 5), RFalse, p, p + 5, b)
  {
  }

  /** What `ParseString` decides, in terms of where the units end. */
  lemma StringShape(s: string, p: nat)
    requires p <= |s|
    ensures CharAt(s, p) != '\"' ==> ParseString(s, p) == NoText
  {
  }

  lemma StringEnds(s: string, open: nat, e: nat)
    requires open < e < |s| && s[open] == '\"' && s[e] == '\"' && UnitsEnd(s, open + 1) == UnitsEnd(s, e)
    ensures Units(s[open + 1..e]) && ParseString(s, open) == Text(Unescaped(s[open + 1..e]), e + 1)
  {
    UnitsEndUnits(s, open + 1);
  }

  lemma NoString(s: string, open: nat, e: nat)
    requires open < e <= |s| && s[open] == '\"' && UnitsEnd(s, open + 1) == UnitsEnd(s, e)
    requires UnitLength(s, e) == 0 && CharAt(s, e) != '\"'
    ensures ParseString(s, open) == NoText
  {
  }

  /** The unit at `p`, by its first characters. */
  lemma UnitHere(s: string, p: nat)
    requires p <= |s|
    ensures var c := CharAt(s, p);
      && (c != '\"' && c != '\\' && c != '\0' ==> UnitLength(s, p) == 1)
      && (c == '\0' ==> UnitLength(s, p) == 0)
      && (c == '\\' ==>
            UnitLength(s, p) ==
              if SimpleEscape(CharAt(s, p + 1)) then 2
              else if CharAt(s, p + 1) == 'u' && IsHex(CharAt(s, p + 2)) && IsHex(CharAt(s, p + 3)) &&
                      IsHex(CharAt(s, p + 4)) && IsHex(CharAt(s, p + 5)) then 6
              else 0)
    ensures UnitsEnd(s, p) == UnitsEnd(s, p + UnitLength(s, p))
  {
  }

  /** With the flag as `decode_string` leaves it, the string reads as its meaning. */
  lemma FlagRight(b: string, text: string, start: nat, e: nat)
    requires 0 < start <= e <= |b| && e <= |text| && b[start..e] == text[start..e] && Units(text[start..e])
    requires b[start - 1] == '\0' ==> forall i :: start <= i < e ==> text[i] != '\\'
    ensures StringText(b, start, e) == Unescaped(text[start..e])
    ensures Units(b[start..e])
  {
    if b[start - 1] == '\0' { PlainUnits(text[start..e]); }
  }

  // ---------------------------------------------------------------- print, then load

  /** A number that stands for a printed integer has its value, and is recognised as an integer, signed
      exactly when it is negative. */
  lemma NumberLoaded(b: string, r: RValue, n: int)
    requires Inside(r, 0, |b|) && Denote(b, r) == P.Read(P.JInt(n))
    ensures r.RNumber? && P.IsNumeral(b[r.start..r.end]) && P.NumberValue(b[r.start..r.end]) == n
    ensures P.NumTypeOf(b[r.start..r.end]) == if n < 0 then P.SignedInteger else P.UnsignedInteger
  {
    P.NumberRoundTrip(n);
    P.KindOfText(n);
  }

  /** The round trip of the program itself: a value is dumped, loaded again in a buffer of its own,
      and what comes back denotes the value; nested deeper than 5000 it is refused. */
  method DumpThenLoad(v: P.Json, l: P.Layout) returns (r: RValue, parser: Parser)
    requires P.Blank(l)
    ensures fresh(parser) && parser.Valid()
    ensures P.Depth(v) <= 5000 ==> Inside(r, 0, parser.buf.Length) && Denote(parser.buf[..], r) == P.Read(v)
    ensures P.Depth(v) > 5000 ==> r == RError
  {
    hide JsonText.Parse, Inside, Denote;
    var text := P.DumpInternal(v, l, 0, "");
    assert text == P.Dump(v, l, 0);
    P.RoundTrip(v, l);
    parser := new Parser(text);
    r := parser.Parse();
  }
}
