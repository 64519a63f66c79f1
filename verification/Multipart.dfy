/** Multipart messages (section 5.1.1 of RFC 2046): printing parts and parsing them again. */
module Multipart {

  /** Headers and parameters in the order their maps are walked. */
  datatype Param = Param(key: string, value: string)
  datatype Header = Header(key: string, value: string, params: seq<Param>)
  datatype Part = Part(headers: seq<Header>, body: string)

  const CRLF := "\r\n"
  const CRLF2 := "\r\n\r\n"

  // ---------------------------------------------------------------- searching

  predicate At(s: string, p: nat, pat: string) { p + |pat| <= |s| && s[p..p + |pat|] == pat }

  datatype Position = Nowhere | Somewhere(i: nat)

  function FindFrom(s: string, pat: string, from: nat): (r: Position)
    requires from <= |s| && pat != ""
    ensures r.Somewhere? ==> from <= r.i && At(s, r.i, pat)
    decreases |s| - from
  {
    if At(s, from, pat) then Somewhere(from)
    else if from == |s| then Nowhere
    else FindFrom(s, pat, from + 1)
  }

  function Find(s: string, pat: string): (r: Position)
    requires pat != ""
    ensures r.Somewhere? ==> At(s, r.i, pat)
  {
    FindFrom(s, pat, 0)
  }

  predicate Without(s: string, pat: string) { forall i: nat :: i < |s| ==> !At(s, i, pat) }

  /** The first place is the one given, if there is none before it. */
  lemma {:induction false} FoundAt(s: string, pat: string, from: nat, p: nat)
    requires pat != "" && from <= p && At(s, p, pat) && forall i: nat :: from <= i < p ==> !At(s, i, pat)
    ensures FindFrom(s, pat, from) == Somewhere(p)
    decreases p - from
  {
    if from < p { FoundAt(s, pat, from + 1, p); }
  }

  lemma {:induction false} NotFound(s: string, pat: string, from: nat)
    requires pat != "" && from <= |s| && forall i: nat :: from <= i < |s| ==> !At(s, i, pat)
    ensures FindFrom(s, pat, from) == Nowhere
    decreases |s| - from
  {
    if from < |s| { NotFound(s, pat, from + 1); }
  }

  /** `substr(0, found)`, where `npos` takes everything. */
  function Upto(s: string, r: Position): string
    requires r.Somewhere? ==> r.i <= |s|
  {
    if r.Nowhere? then s else s[..r.i]
  }

  /** What is left after `erase(0, found + n)`; for `npos` the sum wraps around to `n - 1`. */
  function Past(s: string, r: Position, n: nat): string
    requires n > 0
  {
    var k := if r.Nowhere? then n - 1 else r.i + n;
    if k <= |s| then s[k..] else ""
  }

  // ---------------------------------------------------------------- printing

  function DumpParams(params: seq<Param>): string {
    if params == [] then "" else "; " + ParamText(params[0]) + DumpParams(params[1..])
  }

  function ParamText(p: Param): string { p.key + "=" + "\"" + p.value + "\"" }

  function DumpLine(h: Header): string { h.key + ": " + h.value + DumpParams(h.params) }

  function DumpHeaders(headers: seq<Header>): string {
    if headers == [] then "" else DumpLine(headers[0]) + CRLF + DumpHeaders(headers[1..])
  }

  function DumpPart(p: Part): string { DumpHeaders(p.headers) + CRLF + p.body + CRLF }

  function Delimiter(boundary: string): string { "--" + boundary }

  function DumpParts(parts: seq<Part>, delimiter: string): string {
    if parts == [] then delimiter + "--" + CRLF
    else delimiter + CRLF + DumpPart(parts[0]) + DumpParts(parts[1..], delimiter)
  }

  /** `message::dump` */
  method Dump(parts: seq<Part>, boundary: string) returns (str: string)
    ensures str == DumpParts(parts, Delimiter(boundary))
  {
    hide DumpPart, DumpParts;
    var delimiter := "--" + boundary;
    str := "";
    DumpNone(delimiter);
    assert parts[0..] == parts && "" + DumpParts(parts, delimiter) == DumpParts(parts, delimiter);
    for i := 0 to |parts|
      invariant str + DumpParts(parts[i..], delimiter) == DumpParts(parts, delimiter)
    {
      DumpMore(parts, i, delimiter);
      ghost var before, rest := str, DumpParts(parts[i + 1..], delimiter);
      str := str + delimiter + CRLF;
      var text := DumpOne(parts[i]);
      str := str + text;
      assert before + (delimiter + CRLF + text + rest) == str + rest;
    }
    assert parts[|parts|..] == [];
    str := str + delimiter + "--" + CRLF;
  }

  lemma DumpNone(delimiter: string)
    ensures DumpParts([], delimiter) == delimiter + "--" + CRLF
  {
  }

  lemma DumpMore(parts: seq<Part>, i: nat, delimiter: string)
    requires i < |parts|
    ensures DumpParts(parts[i..], delimiter) ==
            delimiter + CRLF + DumpPart(parts[i]) + DumpParts(parts[i + 1..], delimiter)
  {
    assert parts[i..][1..] == parts[i + 1..];
  }

  method DumpOne(item: Part) returns (str: string)
    ensures str == DumpPart(item)
  {
    hide DumpParams;
    str := "";
    assert item.headers[0..] == item.headers;
    for i := 0 to |item.headers|
      invariant str + DumpHeaders(item.headers[i..]) == DumpHeaders(item.headers)
    {
      var h := item.headers[i];
      assert item.headers[i..][1..] == item.headers[i + 1..];
      ghost var before := str;
      str := str + h.key + ": " + h.value;
      var params := DumpAllParams(h.params);
      str := str + params;
      assert str == before + DumpLine(h);
      str := str + CRLF;
    }
    str := str + CRLF;
    str := str + item.body + CRLF;
  }

  method DumpAllParams(params: seq<Param>) returns (str: string)
    ensures str == DumpParams(params)
  {
    str := "";
    assert params[0..] == params;
    for i := 0 to |params|
      invariant str + DumpParams(params[i..]) == DumpParams(params)
    {
      assert params[i..][1..] == params[i + 1..];
      ghost var before, rest := str, DumpParams(params[i + 1..]);
      str := str + "; " + params[i].key + "=" + "\"" + params[i].value + "\"";
      assert str == before + ("; " + ParamText(params[i]));
      assert before + ("; " + ParamText(params[i]) + rest) == before + ("; " + ParamText(params[i])) + rest;
    }
  }

  // ---------------------------------------------------------------- parsing

  /** `BadLookup`: a part has no name, and the iterator past the end is dereferenced. */
  datatype Parsed = Thrown | BadLookup | Parts(parts: seq<Part>, named: seq<(string, Part)>)
  datatype HeaderRead = NoHeader | OneHeader(h: Header)
  datatype HeadRead = NoHead | Head(headers: seq<Header>)

  /** `trim` */
  function Trimmed(s: string): string {
    if |s| > 1 && s[0] == '\"' && s[|s| - 1] == '\"' then s[1..|s| - 1] else s
  }

  function ParamOf(param: string): Param {
    match Find(param, "=")
    case Nowhere => Param(param, Trimmed(param))
    case Somewhere(i) => Param(param[..i], Trimmed(param[i + 1..]))
  }

  /** The part of a line behind the first "; ". */
  function Rest(line: string): (r: string)
    ensures line != "" ==> |r| < |line|
  {
    var semicolon := Find(line, "; ");
    if semicolon.Somewhere? then line[semicolon.i + 2..] else ""
  }

  function First(line: string): string { Upto(line, Find(line, "; ")) }

  /** The parameters of a line. */
  function ParamsOf(line: string): seq<Param>
    decreases |line|
  {
    if line == "" then []
    else
      [ParamOf(First(line))] + ParamsOf(Rest(line))
  }

  // Parameters are kept in a map: the first value of a key stays.

  predicate HasKey(ps: seq<Param>, key: string) { exists i :: 0 <= i < |ps| && ps[i].key == key }

  function Emplace(ps: seq<Param>, p: Param): seq<Param> { if HasKey(ps, p.key) then ps else ps + [p] }

  function EmplaceAll(ps: seq<Param>, more: seq<Param>): seq<Param>
    decreases |more|
  {
    if more == [] then ps else EmplaceAll(Emplace(ps, more[0]), more[1..])
  }

  predicate DistinctKeys(ps: seq<Param>) { forall i, j :: 0 <= i < j < |ps| ==> ps[i].key != ps[j].key }

  lemma {:induction false} EmplaceDistinct(ps: seq<Param>, more: seq<Param>)
    requires DistinctKeys(ps + more)
    ensures EmplaceAll(ps, more) == ps + more
    decreases |more|
  {
    if more == [] {
      assert ps + more == ps;
    } else {
      var all := ps + more;
      forall i | 0 <= i < |ps| ensures ps[i].key != more[0].key {
        assert all[i] == ps[i] && all[|ps|] == more[0];
      }
      assert ps + [more[0]] + more[1..] == all;
      EmplaceDistinct(ps + [more[0]], more[1..]);
    }
  }

  /** One header line; a line that begins with "; " makes `substr` throw. */
  function HeaderOf(line: string): HeaderRead {
    if line == "" then OneHeader(Header("", "", []))
    else
      var header := First(line);
      var colon := Find(header, ": ");
      if colon.Nowhere? && header == "" then NoHeader
      else
        var value := if colon.Somewhere? then header[colon.i + 2..] else header[1..];
        OneHeader(Header(Upto(header, colon), value, EmplaceAll([], ParamsOf(Rest(line)))))
  }

  /** `parse_section_head` */
  function HeadersOf(lines: string): HeadRead
    decreases |lines|
  {
    if lines == "" then Head([])
    else
      var end := Find(lines, CRLF);
      match HeaderOf(Upto(lines, end))
      case NoHeader => NoHead
      case OneHeader(h) =>
        match HeadersOf(Past(lines, end, 2))
        case NoHead => NoHead
        case Head(headers) => Head([h] + headers)
  }

  datatype Section = BadSection | Section(part: Part)

  /** `parse_section` */
  function SectionOf(section: string): Section {
    var found := Find(section, CRLF2);
    var head := if found.Somewhere? then section[..found.i + 2] else if section == "" then "" else section[..1];
    var rest := Past(section, found, 4);
    match HeadersOf(head)
    case NoHead => BadSection
    case Head(headers) => Section(Part(headers, if |rest| >= 2 then rest[..|rest| - 2] else rest))
  }

  // ---------------------------------------------------------------- names

  function UpperChar(c: char): char { if 'a' <= c <= 'z' then 'A' + (c - 'a') else c }

  /** `ci_key_eq` */
  predicate SameKey(a: string, b: string) {
    |a| == |b| && forall i :: 0 <= i < |a| ==> UpperChar(a[i]) == UpperChar(b[i])
  }

  datatype Name = NoName | Name(name: string)

  /** `params.find("name")` */
  function ParamNamed(ps: seq<Param>): Name {
    if ps == [] then NoName else if ps[0].key == "name" then Name(ps[0].value) else ParamNamed(ps[1..])
  }

  /** The name a part goes by: a parameter of its `Content-Disposition` header. */
  function NameOf(headers: seq<Header>): Name {
    if headers == [] then NoName
    else if SameKey(headers[0].key, "Content-Disposition") then ParamNamed(headers[0].params)
    else NameOf(headers[1..])
  }

  /** `get_header_object`, and the lookup of the parameter in what it returns. */
  method FindName(headers: seq<Header>) returns (name: Name)
    ensures name == NameOf(headers)
  {
    var i := 0;
    assert headers[0..] == headers;
    while i < |headers| && !SameKey(headers[i].key, "Content-Disposition")
      invariant i <= |headers| && NameOf(headers[i..]) == NameOf(headers)
    {
      assert headers[i..][1..] == headers[i + 1..];
      i := i + 1;
    }
    if i == |headers| { return NoName; }
    var ps := headers[i].params;
    var k := 0;
    assert ps[0..] == ps;
    while k < |ps| && ps[k].key != "name"
      invariant k <= |ps| && ParamNamed(ps[k..]) == ParamNamed(ps)
    {
      assert ps[k..][1..] == ps[k + 1..];
      k := k + 1;
    }
    return if k == |ps| then NoName else Name(ps[k].value);
  }

  predicate AllNamed(parts: seq<Part>) { forall p :: p in parts ==> NameOf(p.headers).Name? }

  /** The entries of `part_map`. */
  function ByName(parts: seq<Part>): seq<(string, Part)>
    requires AllNamed(parts)
  {
    if parts == [] then []
    else
      var n := |parts| - 1;
      assert parts[n] in parts;
      ByName(parts[..n]) + [(NameOf(parts[n].headers).name, parts[n])]
  }

  lemma ByNameMore(parts: seq<Part>, p: Part)
    requires AllNamed(parts) && NameOf(p.headers).Name?
    ensures AllNamed(parts + [p]) && ByName(parts + [p]) == ByName(parts) + [(NameOf(p.headers).name, p)]
  {
    assert (parts + [p])[..|parts|] == parts;
  }

  /** The constructor from a list of parts: it looks up every name. */
  method FromParts(sections: seq<Part>) returns (r: Parsed)
    ensures r == if AllNamed(sections) then Parts(sections, ByName(sections)) else BadLookup
  {
    hide NameOf, ByName;
    var named: seq<(string, Part)> := [];
    NothingNamed();
    for i := 0 to |sections|
      invariant AllNamed(sections[..i]) && named == ByName(sections[..i])
    {
      var name := FindName(sections[i].headers);
      assert sections[..i + 1] == sections[..i] + [sections[i]];
      if name.NoName? {
        assert sections[i] in sections;
        return BadLookup;
      }
      ByNameMore(sections[..i], sections[i]);
      named := named + [(name.name, sections[i])];
    }
    assert sections[..|sections|] == sections;
    return Parts(sections, named);
  }

  lemma NothingNamed()
    ensures ByName([]) == []
  {
  }

  /** One section in front of the others. */
  function Joined(section: Section, rest: Parsed): Parsed {
    match section
    case BadSection => Thrown
    case Section(part) =>
      match NameOf(part.headers)
      case NoName => BadLookup
      case Name(name) => if rest.Parts? then Parts([part] + rest.parts, [(name, part)] + rest.named) else rest
  }

  /** `parse_body` */
  function BodyOf(body: string, delimiter: string): Parsed
    requires delimiter != ""
    decreases |body|
  {
    if body == CRLF then Parts([], [])
    else
      match Find(body, delimiter)
      case Nowhere => Thrown
      case Somewhere(i) =>
        var section := body[..i];
        var rest := BodyOf(Past(body, Somewhere(i), |delimiter| + 2), delimiter);
        if section == "" then rest else Joined(SectionOf(section), rest)
  }

  /** The loop of `parse_body`; ends because every round erases at least the delimiter. */
  method ParseBody(text: string, boundary: string) returns (r: Parsed)
    ensures r == BodyOf(text, Delimiter(boundary))
  {
    hide SectionOf, Find, NameOf;
    var delimiter := "--" + boundary;
    var body := text;
    var parts: seq<Part> := [];
    var named: seq<(string, Part)> := [];
    NothingBefore(BodyOf(text, delimiter));
    while body != CRLF
      invariant BodyOf(text, delimiter) == Before(parts, named, BodyOf(body, delimiter))
      decreases |body|
    {
      var found := Find(body, delimiter);
      if found.Nowhere? { return Thrown; }
      var section := body[..found.i];
      body := Past(body, found, |delimiter| + 2);
      if section != "" {
        var parsed := ParseSection(section);
        if parsed.BadSection? { return Thrown; }
        var name := FindName(parsed.part.headers);
        if name.NoName? { return BadLookup; }
        BeforeMore(parts, named, parsed.part, name.name, BodyOf(body, delimiter));
        named := named + [(name.name, parsed.part)];
        parts := parts + [parsed.part];
      }
    }
    return Parts(parts, named);
  }

  function Before(parts: seq<Part>, named: seq<(string, Part)>, rest: Parsed): Parsed {
    if rest.Parts? then Parts(parts + rest.parts, named + rest.named) else rest
  }

  lemma NothingBefore(rest: Parsed)
    ensures Before([], [], rest) == rest
  {
    if rest.Parts? { assert [] + rest.parts == rest.parts && [] + rest.named == rest.named; }
  }

  lemma BeforeMore(parts: seq<Part>, named: seq<(string, Part)>, part: Part, name: string, rest: Parsed)
    requires NameOf(part.headers) == Name(name)
    ensures Before(parts, named, Joined(Section(part), rest)) == Before(parts + [part], named + [(name, part)], rest)
  {
    if rest.Parts? {
      assert parts + ([part] + rest.parts) == parts + [part] + rest.parts;
      assert named + ([(name, part)] + rest.named) == named + [(name, part)] + rest.named;
    }
  }

  method ParseSection(section: string) returns (r: Section)
    ensures r == SectionOf(section)
  {
    hide HeadersOf;
    var found := Find(section, CRLF2);
    var head := if found.Somewhere? then section[..found.i + 2] else if section == "" then "" else section[..1];
    var rest := Past(section, found, 4);
    var headers := ParseHead(head);
    if headers.NoHead? { return BadSection; }
    return Section(Part(headers.headers, if |rest| >= 2 then rest[..|rest| - 2] else rest));
  }

  /** The loop of `parse_section_head`. */
  method ParseHead(text: string) returns (r: HeadRead)
    ensures r == HeadersOf(text)
  {
    hide HeaderOf, Find;
    var lines := text;
    var headers: seq<Header> := [];
    NoneAbove(HeadersOf(text));
    while lines != ""
      invariant HeadersOf(text) == Above(headers, HeadersOf(lines))
      decreases |lines|
    {
      var end := Find(lines, CRLF);
      var line := Upto(lines, end);
      lines := Past(lines, end, 2);
      var one := ParseHeader(line);
      if one.NoHeader? { return NoHead; }
      AboveMore(headers, one.h, HeadersOf(lines));
      headers := headers + [one.h];
    }
    return Head(headers);
  }

  function Above(headers: seq<Header>, rest: HeadRead): HeadRead {
    if rest.NoHead? then NoHead else Head(headers + rest.headers)
  }

  lemma NoneAbove(rest: HeadRead)
    ensures Above([], rest) == rest
  {
    if rest.Head? { assert [] + rest.headers == rest.headers; }
  }

  lemma AboveMore(headers: seq<Header>, h: Header, rest: HeadRead)
    ensures Above(headers, if rest.NoHead? then NoHead else Head([h] + rest.headers)) == Above(headers + [h], rest)
  {
    if rest.Head? { assert headers + ([h] + rest.headers) == headers + [h] + rest.headers; }
  }

  /** The body of that loop: the header, then its parameters. */
  method ParseHeader(text: string) returns (r: HeaderRead)
    ensures r == HeaderOf(text)
  {
    hide Find, ParamsOf, First, Rest;
    var line := text;
    var key, value := "", "";
    if line != "" {
      var header := First(line);
      line := Rest(line);
      var colon := Find(header, ": ");
      if colon.Nowhere? && header == "" { return NoHeader; }
      key := Upto(header, colon);
      value := if colon.Somewhere? then header[colon.i + 2..] else header[1..];
    }
    var params := ParseParams(line);
    NoParams();
    return OneHeader(Header(key, value, params));
  }

  /** The loop over the parameters. */
  method ParseParams(text: string) returns (params: seq<Param>)
    ensures params == EmplaceAll([], ParamsOf(text))
  {
    hide Find, ParamOf, First, Rest, HasKey;
    params := [];
    var line := text;
    while line != ""
      invariant EmplaceAll(params, ParamsOf(line)) == EmplaceAll([], ParamsOf(text))
      decreases |line|
    {
      var param := First(line);
      assert ParamsOf(line)[0] == ParamOf(param) && ParamsOf(line)[1..] == ParamsOf(Rest(line));
      line := Rest(line);
      if !HasKey(params, ParamOf(param).key) { params := params + [ParamOf(param)]; }
    }
  }

  // ---------------------------------------------------------------- the round trip

  /** Nowhere `a` directly before `b`. */
  predicate NoPair(s: string, a: char, b: char) {
    forall i :: 0 <= i < |s| - 1 ==> !(s[i] == a && s[i + 1] == b)
  }

  lemma PairAt(s: string, i: nat, a: char, b: char)
    ensures At(s, i, [a, b]) <==> i + 1 < |s| && s[i] == a && s[i + 1] == b
  {
    if i + 2 <= |s| { assert s[i..i + 2] == [s[i], s[i + 1]]; }
  }

  /** The first separator is the one put between `x` and `y`. */
  lemma SeparatorFound(x: string, a: char, b: char, y: string)
    requires NoPair(x, a, b) && a != b
    ensures Find(x + [a, b] + y, [a, b]) == Somewhere(|x|)
  {
    var s := x + [a, b] + y;
    PairAt(s, |x|, a, b);
    forall i: nat | i < |x|
      ensures !At(s, i, [a, b])
    {
      PairAt(s, i, a, b);
      if i + 1 < |x| { assert s[i] == x[i] && s[i + 1] == x[i + 1]; } else { assert s[i + 1] == a; }
    }
    FoundAt(s, [a, b], 0, |x|);
  }

  lemma SeparatorMissing(x: string, a: char, b: char)
    requires NoPair(x, a, b)
    ensures Find(x, [a, b]) == Nowhere
  {
    forall i: nat | i < |x|
      ensures !At(x, i, [a, b])
    {
      PairAt(x, i, a, b);
    }
    NotFound(x, [a, b], 0);
  }

  lemma EqualsFound(x: string, y: string)
    requires '=' !in x
    ensures Find(x + "=" + y, "=") == Somewhere(|x|)
  {
    var s := x + "=" + y;
    assert s[|x|..|x| + 1] == "=";
    forall i: nat | i < |x|
      ensures !At(s, i, "=")
    {
      assert s[i..i + 1] == [x[i]] && x[i] in x;
    }
    FoundAt(s, "=", 0, |x|);
  }

  predicate CleanParam(p: Param) { '=' !in p.key && NoPair(p.key, ';', ' ') && NoPair(p.value, ';', ' ') }

  /** A header that avoids the separators: no line break, "; " only before parameters, ": " only
      behind the key, "=" only behind a parameter's key. */
  predicate CleanHeader(h: Header) {
    && NoPair(DumpLine(h), '\r', '\n')
    && NoPair(h.key, ':', ' ')
    && NoPair(h.key + ": " + h.value, ';', ' ')
    && CleanParams(h.params) && DistinctKeys(h.params)
  }

  lemma ParamBack(p: Param)
    requires CleanParam(p)
    ensures ParamOf(ParamText(p)) == p && NoPair(ParamText(p), ';', ' ')
  {
    var quoted := "\"" + p.value + "\"";
    assert ParamText(p) == p.key + "=" + quoted;
    EqualsFound(p.key, quoted);
    assert ParamText(p)[|p.key| + 1..] == quoted && quoted[1..|quoted| - 1] == p.value;
    var t := ParamText(p);
    forall i | 0 <= i < |t| - 1
      ensures !(t[i] == ';' && t[i + 1] == ' ')
    {
      var k := |p.key|;
      if i + 1 < k {
        assert t[i] == p.key[i] && t[i + 1] == p.key[i + 1];
      } else if k + 2 <= i && i + 1 < |t| - 1 {
        assert t[i] == p.value[i - k - 2] && t[i + 1] == p.value[i - k - 1];
      } else if i + 1 == k {
        assert t[i + 1] == '=';
      } else if i == k {
        assert t[i] == '=';
      } else if i == k + 1 {
        assert t[i] == '\"';
      } else {
        assert t[i + 1] == '\"';
      }
    }
  }

  /** A line is cut at its first "; ", if it has one. */
  lemma {:induction false} LineCut(x: string, more: string)
    requires NoPair(x, ';', ' ')
    ensures First(x) == x && Rest(x) == ""
    ensures First(x + "; " + more) == x && Rest(x + "; " + more) == more
  {
    hide Find, NoPair;
    SeparatorMissing(x, ';', ' ');
    SeparatorFound(x, ';', ' ', more);
    var line := x + "; " + more;
    assert line[..|x|] == x && line[|x| + 2..] == more;
  }

  lemma OneParam(line: string)
    requires line != ""
    ensures ParamsOf(line) == [ParamOf(First(line))] + ParamsOf(Rest(line))
  {
  }

  /** The parameters as a line, without the "; " in front. */
  function ParamLine(params: seq<Param>): (line: string)
    requires params != []
    ensures DumpParams(params) == "; " + line
  {
    if |params| == 1 then ParamText(params[0])
    else ParamText(params[0]) + "; " + ParamLine(params[1..])
  }

  predicate CleanParams(params: seq<Param>) { forall p :: p in params ==> CleanParam(p) }

  lemma CleanTail(params: seq<Param>)
    requires params != [] && CleanParams(params)
    ensures CleanParam(params[0]) && CleanParams(params[1..])
  {
  }

  lemma {:induction false} ParamsBack(params: seq<Param>)
    requires params != [] && CleanParams(params)
    ensures ParamsOf(ParamLine(params)) == params
  {
    hide First, Rest, ParamOf, ParamText, ParamsOf, DumpParams, CleanParam, CleanParams;
    var t, rest := ParamText(params[0]), params[1..];
    CleanTail(params);
    ParamBack(params[0]);
    ParamTextLong(params[0]);
    OneParam(ParamLine(params));
    assert params == [params[0]] + rest;
    if rest == [] {
      NoParams();
      LineCut(t, "");
    } else {
      LineCut(t, ParamLine(rest));
      ParamsBack(rest);
    }
  }

  lemma ParamTextLong(p: Param)
    ensures ParamText(p) != ""
  {
  }

  lemma {:induction false} LineBack(h: Header)
    requires CleanHeader(h)
    ensures HeaderOf(DumpLine(h)) == OneHeader(h) && |DumpLine(h)| >= 2
  {
    hide Find, ParamsOf, First, Rest;
    var head, line := h.key + ": " + h.value, DumpLine(h);
    assert line == head + DumpParams(h.params);
    SeparatorFound(h.key, ':', ' ', h.value);
    assert head == h.key + [':', ' '] + h.value;
    assert head[..|h.key|] == h.key && head[|h.key| + 2..] == h.value;
    NoParams();
    EmplaceDistinct([], h.params);
    assert [] + h.params == h.params;
    if h.params == [] {
      LineCut(head, "");
      assert line == head;
    } else {
      ParamsBack(h.params);
      var more := ParamLine(h.params);
      LineCut(head, more);
      assert line == head + "; " + more;
    }
  }

  lemma NoParams()
    ensures ParamsOf("") == [] && DumpParams([]) == ""
  {
  }

  lemma {:induction false} HeadBack(headers: seq<Header>)
    requires forall h :: h in headers ==> CleanHeader(h)
    ensures HeadersOf(DumpHeaders(headers)) == Head(headers)
  {
    hide Find, HeaderOf, CleanHeader;
    if headers != [] {
      var line, rest := DumpLine(headers[0]), DumpHeaders(headers[1..]);
      assert headers[0] in headers && forall h :: h in headers[1..] ==> h in headers;
      LineBack(headers[0]);
      NoBreak(headers[0]);
      var text := line + ['\r', '\n'] + rest;
      assert DumpHeaders(headers) == text;
      SeparatorFound(line, '\r', '\n', rest);
      assert text[..|line|] == line && text[|line| + 2..] == rest;
      HeadBack(headers[1..]);
      assert headers == [headers[0]] + headers[1..];
    }
  }

  lemma NoBreak(h: Header)
    requires CleanHeader(h)
    ensures NoPair(DumpLine(h), '\r', '\n')
  {
  }

  lemma Differs(s: string, i: nat, pat: string, k: nat)
    requires k < |pat| && i + k < |s| && s[i + k] != pat[k]
    ensures !At(s, i, pat)
  {
    if i + |pat| <= |s| { assert s[i..i + |pat|][k] == s[i + k]; }
  }

  /** The empty line behind the headers is the first one. */
  lemma {:induction false} FirstEmptyLine(headers: seq<Header>, tail: string, i: nat)
    requires headers != [] && (forall h :: h in headers ==> CleanHeader(h)) && i + 2 < |DumpHeaders(headers)|
    ensures !At(DumpHeaders(headers) + CRLF + tail, i, CRLF2)
    decreases |headers|
  {
    hide CleanHeader, DumpLine, HeaderOf;
    var line, rest := DumpLine(headers[0]), DumpHeaders(headers[1..]);
    assert headers[0] in headers && forall h :: h in headers[1..] ==> h in headers;
    LineBack(headers[0]);
    NoBreak(headers[0]);
    var s := DumpHeaders(headers) + CRLF + tail;
    var after := rest + CRLF + tail;
    assert s == line + CRLF + after;
    if i + 1 < |line| {
      assert s[i] == line[i] && s[i + 1] == line[i + 1];
      Differs(s, i, CRLF2, if s[i] == '\r' then 1 else 0);
    } else if i < |line| {
      assert s[i + 1] == '\r';
      Differs(s, i, CRLF2, 1);
    } else if i == |line| {
      assert headers[1..] != [];
      assert headers[1] in headers;
      LineBack(headers[1]);
      NoBreak(headers[1]);
      var second := DumpLine(headers[1]);
      assert DumpHeaders(headers[1..]) == second + CRLF + DumpHeaders(headers[1..][1..]);
      assert s[i + 2] == second[0] && s[i + 3] == second[1];
      Differs(s, i, CRLF2, if s[i + 2] == '\r' then 3 else 2);
    } else if i == |line| + 1 {
      assert s[i] == '\n';
      Differs(s, i, CRLF2, 0);
    } else {
      var j := i - |line| - 2;
      assert s[i..i + 4] == after[j..j + 4];
      FirstEmptyLine(headers[1..], tail, j);
    }
  }

  predicate CleanPart(p: Part) { forall h :: h in p.headers ==> CleanHeader(h) }

  /** A part comes back from its text exactly if it has a header: without one, the empty line that
      ends the headers stands at the very start and is taken for one. */
  lemma {:induction false} SectionBack(p: Part)
    requires CleanPart(p)
    ensures SectionOf(DumpPart(p)) == Section(p) <==> p.headers != []
  {
    hide HeadersOf, DumpHeaders;
    if p.headers != [] {
      EndsWithBreak(p.headers);
      HeadBack(p.headers);
      hide CleanHeader;
      var heads, s := DumpHeaders(p.headers), DumpPart(p);
      var n := |heads| - 2;
      var tail := p.body + CRLF;
      assert s == heads + CRLF + tail;
      assert s[n..n + 4] == CRLF2 by {
        assert heads[n..] == CRLF;
        assert s[n..n + 4] == heads[n..] + CRLF;
      }
      forall i: nat | i < n
        ensures !At(s, i, CRLF2)
      {
        FirstEmptyLine(p.headers, tail, i);
      }
      FoundAt(s, CRLF2, 0, n);
      assert s[..n + 2] == heads && s[n + 4..] == tail && tail[..|tail| - 2] == p.body;
    } else {
      var s := DumpPart(p);
      SomeHeader(s);
    }
  }

  lemma {:induction false} EndsWithBreak(headers: seq<Header>)
    requires headers != []
    ensures |DumpHeaders(headers)| >= 2 && DumpHeaders(headers)[|DumpHeaders(headers)| - 2..] == CRLF
  {
    if |headers| > 1 {
      EndsWithBreak(headers[1..]);
    } else {
      assert headers[1..] == [];
      assert DumpHeaders(headers) == DumpLine(headers[0]) + CRLF + "";
    }
  }

  lemma SomeHeader(s: string)
    requires s != ""
    ensures SectionOf(s).Section? ==> SectionOf(s).part.headers != []
  {
  }

  /** What follows a delimiter and two characters. */
  function AfterDelimiter(parts: seq<Part>, delimiter: string): string {
    if parts == [] then CRLF else DumpPart(parts[0]) + DumpParts(parts[1..], delimiter)
  }

  lemma {:induction false} AfterIs(parts: seq<Part>, delimiter: string)
    ensures |DumpParts(parts, delimiter)| >= |delimiter| + 2
    ensures DumpParts(parts, delimiter)[..|delimiter|] == delimiter
    ensures DumpParts(parts, delimiter)[|delimiter| + 2..] == AfterDelimiter(parts, delimiter)
  {
    hide DumpPart;
    if parts == [] {
      TwoBehind(delimiter, "--", CRLF);
    } else {
      var more := DumpPart(parts[0]) + DumpParts(parts[1..], delimiter);
      TwoBehind(delimiter, CRLF, more);
      assert DumpParts(parts, delimiter) == delimiter + CRLF + more;
    }
  }

  lemma TwoBehind(d: string, two: string, more: string)
    requires |two| == 2
    ensures |d + two + more| >= |d| + 2 && (d + two + more)[..|d|] == d && (d + two + more)[|d| + 2..] == more
  {
  }

  /** The delimiter is not in a part and cannot begin in one: a part ends in a line feed. */
  lemma DelimiterFound(p: Part, delimiter: string, rest: string)
    requires Without(DumpPart(p), delimiter) && delimiter != "" && '\n' !in delimiter
    requires |rest| >= |delimiter| && rest[..|delimiter|] == delimiter
    ensures Find(DumpPart(p) + rest, delimiter) == Somewhere(|DumpPart(p)|)
  {
    var t := DumpPart(p);
    var s := t + rest;
    assert t[|t| - 1] == '\n';
    assert s[|t|..|t| + |delimiter|] == rest[..|delimiter|];
    forall i: nat | i < |t|
      ensures !At(s, i, delimiter)
    {
      if i + |delimiter| <= |t| {
        assert t[i..i + |delimiter|] == s[i..i + |delimiter|];
        assert !At(t, i, delimiter);
      } else {
        assert s[|t| - 1] == '\n' && delimiter[|t| - 1 - i] in delimiter;
        Differs(s, i, delimiter, |t| - 1 - i);
      }
    }
    FoundAt(s, delimiter, 0, |t|);
  }

  predicate Sendable(parts: seq<Part>, delimiter: string) {
    && delimiter != "" && '\n' !in delimiter
    && forall p :: p in parts ==> CleanPart(p) && Without(DumpPart(p), delimiter)
  }

  lemma {:induction false} AfterBack(parts: seq<Part>, delimiter: string)
    requires Sendable(parts, delimiter)
    ensures var r := BodyOf(AfterDelimiter(parts, delimiter), delimiter);
            && (AllNamed(parts) ==> r == Parts(parts, ByName(parts)))
            && (r.Parts? && r.parts == parts ==> AllNamed(parts))
    decreases |parts|
  {
    hide SectionOf, DumpPart, CleanPart, Find, DumpParts, BodyOf, NameOf;
    if parts == [] {
      EmptyBody(delimiter);
    } else {
      var p, rest := parts[0], parts[1..];
      assert p in parts && forall x :: x in rest ==> x in parts;
      assert parts == [p] + rest;
      OneSection(p, rest, delimiter);
      AfterBack(rest, delimiter);
      SectionBack(p);
      if NameOf(p.headers).Name? {
        NamedHasHeader(p.headers);
        JoinedNamed(p, rest, BodyOf(AfterDelimiter(rest, delimiter), delimiter));
      } else {
        NotJoined(SectionOf(DumpPart(p)), BodyOf(AfterDelimiter(rest, delimiter), delimiter), p, rest);
      }
    }
  }

  lemma NamedHasHeader(headers: seq<Header>)
    ensures NameOf(headers).Name? ==> headers != []
  {
  }

  lemma {:induction false} ByNameFirst(p: Part, rest: seq<Part>)
    requires AllNamed([p] + rest)
    ensures AllNamed(rest) && NameOf(p.headers).Name?
    ensures ByName([p] + rest) == [(NameOf(p.headers).name, p)] + ByName(rest)
  {
    hide NameOf;
    var all := [p] + rest;
    assert p in all && forall x :: x in rest ==> x in all;
    if rest == [] {
      assert all[..0] == [] && ByName(rest) == [];
    } else {
      var n := |rest| - 1;
      assert all[..|all| - 1] == [p] + rest[..n] && all[|all| - 1] == rest[n];
      ByNameFirst(p, rest[..n]);
    }
  }

  lemma {:induction false} JoinedNamed(p: Part, rest: seq<Part>, parsed: Parsed)
    requires NameOf(p.headers).Name?
    ensures var r := Joined(Section(p), parsed);
            && (AllNamed([p] + rest) ==> (AllNamed(rest) && parsed == Parts(rest, ByName(rest)) ==>
                  r == Parts([p] + rest, ByName([p] + rest))))
            && (AllNamed([p] + rest) <==> AllNamed(rest))
            && (r.Parts? && r.parts == [p] + rest ==> parsed.Parts? && parsed.parts == rest)
  {
    hide NameOf, ByName;
    var all := [p] + rest;
    assert p in all && forall x :: x in rest ==> x in all;
    if AllNamed(all) { ByNameFirst(p, rest); }
    if parsed.Parts? {
      var a := [p] + parsed.parts;
      assert a[1..] == parsed.parts && all[1..] == rest;
    }
  }

  /** A section that is not the part `p` again, or has no name, does not give the parts back. */
  lemma NotJoined(section: Section, parsed: Parsed, p: Part, rest: seq<Part>)
    requires NameOf(p.headers).NoName?
    ensures var r := Joined(section, parsed); !(r.Parts? && r.parts == [p] + rest) && !AllNamed([p] + rest)
  {
    assert p in [p] + rest;
    if section.Section? && parsed.Parts? {
      assert ([section.part] + parsed.parts)[0] == section.part && ([p] + rest)[0] == p;
    }
  }

  lemma EmptyBody(delimiter: string)
    requires delimiter != ""
    ensures BodyOf(CRLF, delimiter) == Parts([], [])
  {
  }

  /** One round of `parse_body`: the section up to the next delimiter. */
  lemma {:induction false} OneSection(p: Part, rest: seq<Part>, delimiter: string)
    requires Without(DumpPart(p), delimiter) && delimiter != "" && '\n' !in delimiter
    ensures BodyOf(AfterDelimiter([p] + rest, delimiter), delimiter) ==
            Joined(SectionOf(DumpPart(p)), BodyOf(AfterDelimiter(rest, delimiter), delimiter))
  {
    hide SectionOf, DumpPart, Find, DumpParts, BodyOf, Joined;
    var parts := [p] + rest;
    assert parts[0] == p && parts[1..] == rest;
    var body, more := AfterDelimiter(parts, delimiter), DumpParts(rest, delimiter);
    AfterIs(rest, delimiter);
    DelimiterFound(p, delimiter, more);
    PartLong(p);
    var n := |DumpPart(p)|;
    assert body == DumpPart(p) + more;
    assert body[..n] == DumpPart(p);
    assert body[n + |delimiter| + 2..] == more[|delimiter| + 2..];
    BodyStep(body, delimiter, n);
  }

  lemma {:induction false} BodyStep(body: string, delimiter: string, i: nat)
    requires delimiter != "" && |body| > 2 && 0 < i <= |body| && Find(body, delimiter) == Somewhere(i)
    ensures BodyOf(body, delimiter) ==
            Joined(SectionOf(body[..i]), BodyOf(Past(body, Somewhere(i), |delimiter| + 2), delimiter))
  {
    hide SectionOf, Find, Past, Joined;
  }

  lemma PartLong(p: Part)
    ensures |DumpPart(p)| >= 4
  {
  }

  /** The parser returns the parts that were printed, each under its name, if and only if each has a
      `Content-Disposition` header with a `name` parameter. */
  lemma {:induction false} RoundTrip(parts: seq<Part>, boundary: string)
    requires '\n' !in boundary && Sendable(parts, Delimiter(boundary))
    ensures var r := BodyOf(DumpParts(parts, Delimiter(boundary)), Delimiter(boundary));
            && (AllNamed(parts) ==> r == Parts(parts, ByName(parts)))
            && (r.Parts? && r.parts == parts ==> AllNamed(parts))
  {
    hide SectionOf, DumpPart, CleanPart, BodyOf, Find;
    FirstDelimiter(parts, Delimiter(boundary));
    AfterBack(parts, Delimiter(boundary));
  }

  lemma {:induction false} FirstDelimiter(parts: seq<Part>, d: string)
    requires |d| >= 2
    ensures BodyOf(DumpParts(parts, d), d) == BodyOf(AfterDelimiter(parts, d), d)
  {
    hide SectionOf, DumpPart, Find;
    var body := DumpParts(parts, d);
    AfterIs(parts, d);
    AtStart(body, d);
    assert body != CRLF by { assert |body| >= 4; }
  }

  const UNNAMED := Part([Header("A", "b", [])], "x")

  lemma {:induction false} UnnamedPrinted()
    ensures CleanPart(UNNAMED) && Without(DumpPart(UNNAMED), "--q")
  {
    var h := Header("A", "b", []);
    assert DumpParams(h.params) == "";
    assert DumpLine(h) == "A: b";
    assert [h][1..] == [] && DumpHeaders([]) == "";
    assert DumpPart(UNNAMED) == "A: b\r\n\r\nx\r\n";
    var t := DumpPart(UNNAMED);
    forall i: nat | i < |t|
      ensures !At(t, i, "--q")
    {
      Differs(t, i, "--q", 0);
    }
  }

  /** A part that has a header, but no name, cannot be read back. */
  lemma {:induction false} UnnamedPart()
    ensures Sendable([UNNAMED], Delimiter("q"))
    ensures BodyOf(DumpParts([UNNAMED], Delimiter("q")), Delimiter("q")) == BadLookup
  {
    hide SectionOf, DumpPart, CleanPart, BodyOf, Without;
    assert Delimiter("q") == "--q" && [UNNAMED] + [] == [UNNAMED];
    UnnamedPrinted();
    FirstDelimiter([UNNAMED], "--q");
    OneSection(UNNAMED, [], "--q");
    SectionBack(UNNAMED);
    assert NameOf(UNNAMED.headers) == NoName by { assert UNNAMED.headers[1..] == []; }
  }

  lemma AtStart(s: string, pat: string)
    requires pat != "" && |s| >= |pat| && s[..|pat|] == pat
    ensures Find(s, pat) == Somewhere(0)
  {
  }
}
