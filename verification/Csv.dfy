/** CSV lines (section 2 of RFC 4180): the two escaping functions and the line parser. */
module Csv {

  predicate NeedsQuotes(s: string) { ',' in s || '\"' in s || '\n' in s || '\r' in s }

  /** Every quote twice. */
  function Doubled(s: string): string {
    if s == "" then "" else (if s[0] == '\"' then "\"\"" else [s[0]]) + Doubled(s[1..])
  }

  function Escaped(s: string): string { if NeedsQuotes(s) then "\"" + Doubled(s) + "\"" else s }

  /** `find_first_of` */
  method FindSpecial(s: string) returns (found: bool)
    ensures found == NeedsQuotes(s)
  {
    for i := 0 to |s|
      invariant !NeedsQuotes(s[..i])
    {
      if s[i] == ',' || s[i] == '\"' || s[i] == '\n' || s[i] == '\r' {
        assert s[i] in s;
        return true;
      }
      assert s[..i + 1] == s[..i] + [s[i]];
    }
    assert s[..|s|] == s;
    return false;
  }

  /** `csv_escape` of the server. */
  method EscapeInServer(s: string) returns (out: string)
    ensures out == Escaped(s)
  {
    var needQuotes := FindSpecial(s);
    if !needQuotes { return s; }
    out := "\"";
    assert s[0..] == s;
    for i := 0 to |s|
      invariant out + Doubled(s[i..]) == "\"" + Doubled(s)
    {
      assert s[i..][0] == s[i] && s[i..][1..] == s[i + 1..];
      if s[i] == '\"' { out := out + "\"\""; } else { out := out + [s[i]]; }
    }
    out := out + "\"";
  }

  /** `csv_escape` of the database. */
  method EscapeInDatabase(s: string) returns (out: string)
    ensures out == Escaped(s)
  {
    var needQuotes := FindSpecial(s);
    if !needQuotes { return s; }
    out := "\"";
    assert s[0..] == s;
    for i := 0 to |s|
      invariant out + Doubled(s[i..]) == "\"" + Doubled(s)
    {
      assert s[i..][0] == s[i] && s[i..][1..] == s[i + 1..];
      out := out + if s[i] == '\"' then "\"\"" else [s[i]];
    }
    out := out + "\"";
  }

  // ---------------------------------------------------------------- reading

  /** Doubled quotes become one. */
  function Undoubled(t: string): string
    decreases |t|
  {
    if t == "" then ""
    else if t[0] == '\"' && |t| > 1 && t[1] == '\"' then "\"" + Undoubled(t[2..])
    else [t[0]] + Undoubled(t[1..])
  }

  function Cleaned(s: string): string {
    if |s| >= 2 && s[0] == '\"' && s[|s| - 1] == '\"' then Undoubled(s[1..|s| - 1]) else s
  }

  lemma UndoubledAt(t: string, i: nat)
    requires i < |t|
    ensures Undoubled(t[i..]) ==
            if t[i] == '\"' && i + 1 < |t| && t[i + 1] == '\"' then "\"" + Undoubled(t[i + 2..])
            else [t[i]] + Undoubled(t[i + 1..])
  {
    assert t[i..][1..] == t[i + 1..];
    if i + 1 < |t| { assert t[i..][1] == t[i + 1] && t[i..][2..] == t[i + 2..]; }
  }

  lemma UndoubledEnd()
    ensures Undoubled("") == ""
  {
  }

  /** `cleanField` */
  method CleanField(s: string) returns (out: string)
    ensures out == Cleaned(s)
  {
    if |s| < 2 || s[0] != '\"' || s[|s| - 1] != '\"' { return s; }
    var t := s[1..|s| - 1];
    hide Undoubled;
    out := "";
    var i := 0;
    UndoubledEnd();
    assert t[0..] == t;
    while i < |t|
      invariant i <= |t| && out + Undoubled(t[i..]) == Undoubled(t)
    {
      UndoubledAt(t, i);
      if t[i] == '\"' && i + 1 < |t| && t[i + 1] == '\"' {
        out := out + "\"";
        i := i + 1;
      } else {
        out := out + [t[i]];
      }
      i := i + 1;
    }
  }

  /** The pieces between commas that stand outside quotes. */
  function Cut(s: string, quoted: bool): (pieces: seq<string>)
    ensures pieces != []
  {
    if s == "" then [""]
    else if s[0] == ',' && !quoted then [""] + Cut(s[1..], false)
    else Onto([s[0]], Cut(s[1..], if s[0] == '\"' then !quoted else quoted))
  }

  /** Text in front of the first piece. */
  function Onto(t: string, pieces: seq<string>): (r: seq<string>)
    requires pieces != []
    ensures |r| == |pieces|
  {
    [t + pieces[0]] + pieces[1..]
  }

  function CleanedAll(pieces: seq<string>): seq<string> {
    if pieces == [] then [] else [Cleaned(pieces[0])] + CleanedAll(pieces[1..])
  }

  function Parsed(line: string): seq<string> { CleanedAll(Cut(line, false)) }

  /** `parseCSVLine` */
  method ParseLine(line: string) returns (fields: seq<string>)
    ensures fields == Parsed(line)
  {
    fields := [];
    var cur := "";
    var quoted := false;
    assert line[0..] == line;
    OntoNothing(Cut(line, false));
    for i := 0 to |line|
      invariant fields + CleanedAll(Onto(cur, Cut(line[i..], quoted))) == Parsed(line)
    {
      var c := line[i];
      assert line[i..][0] == c && line[i..][1..] == line[i + 1..];
      ghost var rest := Cut(line[i + 1..], if c == '\"' then !quoted else quoted);
      if c == ',' && !quoted {
        var field := CleanField(cur);
        CommaEnds(cur, Cut(line[i + 1..], false));
        fields := fields + [field];
        OntoNothing(Cut(line[i + 1..], false));
        cur := "";
      } else {
        OntoTwice(cur, [c], rest);
        if c == '\"' { quoted := !quoted; }
        cur := cur + [c];
      }
    }
    var field := CleanField(cur);
    LastPiece(cur);
    fields := fields + [field];
  }

  lemma OntoNothing(pieces: seq<string>)
    requires pieces != []
    ensures Onto("", pieces) == pieces
  {
    assert "" + pieces[0] == pieces[0];
  }

  lemma OntoTwice(a: string, b: string, pieces: seq<string>)
    requires pieces != []
    ensures Onto(a, Onto(b, pieces)) == Onto(a + b, pieces)
  {
    assert a + (b + pieces[0]) == a + b + pieces[0];
  }

  lemma LastPiece(cur: string)
    ensures CleanedAll(Onto(cur, [""])) == [Cleaned(cur)]
  {
    assert cur + "" == cur;
    assert Onto(cur, [""]) == [cur] && [cur][1..] == [];
  }

  lemma CommaEnds(cur: string, pieces: seq<string>)
    ensures CleanedAll(Onto(cur, [""] + pieces)) == [Cleaned(cur)] + CleanedAll(pieces)
  {
    assert cur + "" == cur;
    assert Onto(cur, [""] + pieces)[1..] == pieces;
  }

  // ---------------------------------------------------------------- counting

  function CommasOutside(s: string, quoted: bool): nat {
    if s == "" then 0
    else (if s[0] == ',' && !quoted then 1 else 0) + CommasOutside(s[1..], if s[0] == '\"' then !quoted else quoted)
  }

  lemma {:induction false} CutCount(s: string, quoted: bool)
    ensures |Cut(s, quoted)| == 1 + CommasOutside(s, quoted)
  {
    if s != "" { CutCount(s[1..], if s[0] == '\"' then !quoted else quoted); }
  }

  lemma {:induction false} CleanedCount(pieces: seq<string>)
    ensures |CleanedAll(pieces)| == |pieces|
  {
    if pieces != [] { CleanedCount(pieces[1..]); }
  }

  /** One field more than there are commas outside quotes. */
  lemma FieldCount(line: string)
    ensures |Parsed(line)| == 1 + CommasOutside(line, false)
  {
    CutCount(line, false);
    CleanedCount(Cut(line, false));
  }

  // ---------------------------------------------------------------- the round trip

  function Joined(fields: seq<string>): string
    requires fields != []
  {
    if |fields| == 1 then Escaped(fields[0]) else Escaped(fields[0]) + "," + Joined(fields[1..])
  }

  /** Text without quotes, and without commas unless quoted, stays in one piece. */
  lemma {:induction false} PlainStays(t: string, rest: string, quoted: bool)
    requires '\"' !in t && (quoted || ',' !in t)
    ensures Cut(t + rest, quoted) == Onto(t, Cut(rest, quoted))
    decreases |t|
  {
    if t == "" {
      assert t + rest == rest;
      OntoNothing(Cut(rest, quoted));
    } else {
      assert t[0] in t && forall c :: c in t[1..] ==> c in t;
      assert (t + rest)[0] == t[0] && (t + rest)[1..] == t[1..] + rest;
      PlainStays(t[1..], rest, quoted);
      OntoTwice([t[0]], t[1..], Cut(rest, quoted));
      assert [t[0]] + t[1..] == t;
    }
  }

  /** Inside quotes, doubled quotes and everything else stay in one piece. */
  lemma {:induction false} DoubledStays(s: string, rest: string)
    ensures Cut(Doubled(s) + rest, true) == Onto(Doubled(s), Cut(rest, true))
  {
    if s == "" {
      assert Doubled(s) + rest == rest;
      OntoNothing(Cut(rest, true));
    } else {
      var head, tail := if s[0] == '\"' then "\"\"" else [s[0]], Doubled(s[1..]) + rest;
      assert Doubled(s) + rest == head + tail;
      DoubledStays(s[1..], rest);
      if s[0] == '\"' {
        TwoQuotes(tail);
      } else {
        PlainStays(head, tail, true);
      }
      OntoTwice(head, Doubled(s[1..]), Cut(rest, true));
    }
  }

  lemma TwoQuotes(t: string)
    ensures Cut("\"\"" + t, true) == Onto("\"\"", Cut(t, true))
  {
    assert "\"\"" + t == "\"" + ("\"" + t);
    OneQuote("\"" + t, true);
    OneQuote(t, false);
    assert "\"" + "\"" == "\"\"";
    OntoTwice("\"", "\"", Cut(t, true));
  }

  lemma OneQuote(t: string, quoted: bool)
    ensures Cut("\"" + t, quoted) == Onto("\"", Cut(t, !quoted))
  {
    assert ("\"" + t)[1..] == t;
  }

  /** An escaped field stays in one piece, and the parser is outside quotes behind it. */
  lemma EscapedStays(s: string, rest: string)
    ensures Cut(Escaped(s) + rest, false) == Onto(Escaped(s), Cut(rest, false))
  {
    if NeedsQuotes(s) {
      assert Escaped(s) + rest == "\"" + (Doubled(s) + ("\"" + rest));
      OneQuote(Doubled(s) + ("\"" + rest), false);
      DoubledStays(s, "\"" + rest);
      OneQuote(rest, true);
      OntoTwice(Doubled(s), "\"", Cut(rest, false));
      OntoTwice("\"", Doubled(s) + "\"", Cut(rest, false));
      assert "\"" + (Doubled(s) + "\"") == Escaped(s);
    } else {
      PlainStays(s, rest, false);
    }
  }

  lemma {:induction false} UndoubledDoubled(s: string)
    ensures Undoubled(Doubled(s)) == s
  {
    if s != "" {
      UndoubledDoubled(s[1..]);
      if s[0] == '\"' {
        assert Doubled(s)[2..] == Doubled(s[1..]);
      } else {
        assert Doubled(s)[1..] == Doubled(s[1..]);
      }
    }
  }

  lemma CleanedEscaped(s: string)
    ensures Cleaned(Escaped(s)) == s
  {
    if NeedsQuotes(s) {
      var e := Escaped(s);
      assert e[1..|e| - 1] == Doubled(s);
      UndoubledDoubled(s);
    } else if s != "" {
      assert s[0] in s;
    }
  }

  /** The parser returns exactly the fields that were escaped and joined. */
  lemma {:induction false} RoundTrip(fields: seq<string>)
    requires fields != []
    ensures Parsed(Joined(fields)) == fields
    decreases |fields|
  {
    var e := Escaped(fields[0]);
    CleanedEscaped(fields[0]);
    if |fields| == 1 {
      EscapedStays(fields[0], "");
      assert e + "" == e;
      LastPiece(e);
    } else {
      var rest := Joined(fields[1..]);
      assert e + "," + rest == e + ("," + rest) && ("," + rest)[1..] == rest;
      EscapedStays(fields[0], "," + rest);
      CommaEnds(e, Cut(rest, false));
      RoundTrip(fields[1..]);
    }
  }
}
