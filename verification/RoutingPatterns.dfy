/** Route patterns: the steps they are made of, and the one way each can match a URL. */
module RoutingPatterns {

  // ---------------------------------------------------------------- parameters

  datatype ParamType = INT | UINT | DOUBLE | STRING | PATH | MAX

  datatype Value = IntValue(i: int) | UintValue(u: nat) | DoubleValue(d: real) | StringValue(s: string)

  /** `routing_params`: the captured values, one list per type. */
  datatype Params = Params(ints: seq<int>, uints: seq<nat>, doubles: seq<real>, strings: seq<string>)

  const NO_PARAMS := Params([], [], [], [])

  function Push(ps: Params, v: Value): Params {
    match v
    case IntValue(i) => ps.(ints := ps.ints + [i])
    case UintValue(u) => ps.(uints := ps.uints + [u])
    case DoubleValue(d) => ps.(doubles := ps.doubles + [d])
    case StringValue(s) => ps.(strings := ps.strings + [s])
  }

  /** What `strtod` reads from a position; the conversion itself is a parameter of the model. */
  datatype Number = NoNumber | Number(value: real, end: nat)
  type Strtod = (string, nat) -> Number

  predicate IsDigit(c: char) { '0' <= c <= '9' }

  function DigitsEnd(s: string, p: nat): (e: nat)
    requires p <= |s|
    ensures p <= e <= |s|
    decreases |s| - p
  {
    if p < |s| && IsDigit(s[p]) then DigitsEnd(s, p + 1) else p
  }

  function DigitValue(c: char): nat
    requires IsDigit(c)
  {
    c as int - '0' as int
  }

  function Decimal(s: string, p: nat, e: nat): nat
    requires p <= e <= |s| && forall i :: p <= i < e ==> IsDigit(s[i])
    decreases e
  {
    if p == e then 0 else Decimal(s, p, e - 1) * 10 + DigitValue(s[e - 1])
  }

  lemma {:induction false} DigitsEndDigits(s: string, p: nat)
    requires p <= |s|
    ensures forall i :: p <= i < DigitsEnd(s, p) ==> IsDigit(s[i])
    decreases |s| - p
  {
    if p < |s| && IsDigit(s[p]) { DigitsEndDigits(s, p + 1); }
  }

  datatype Hit = Miss | Hit(value: Value, end: nat)

  /** `strtoll`/`strtoull` in base ten: an optional sign and at least one digit, in range. */
  function Integer(s: string, pos: nat, signed: bool): (h: Hit)
    requires pos < |s|
    ensures h.Hit? ==> pos < h.end <= |s|
  {
    var minus := s[pos] == '-';
    var start := if minus || s[pos] == '+' then pos + 1 else pos;
    var e := DigitsEnd(s, start);
    DigitsEndDigits(s, start);
    var n: int := Decimal(s, start, e);
    if e == start then Miss
    else if signed then
      if minus then if n <= 0x8000_0000_0000_0000 then Hit(IntValue(-n), e) else Miss
      else if n < 0x8000_0000_0000_0000 then Hit(IntValue(n), e) else Miss
    else if n < 0x1_0000_0000_0000_0000 then Hit(UintValue(n), e) else Miss
  }

  function SlashFrom(s: string, p: nat): (e: nat)
    requires p <= |s|
    ensures p <= e <= |s|
    decreases |s| - p
  {
    if p < |s| && s[p] != '/' then SlashFrom(s, p + 1) else p
  }

  /** The part of the URL a parameter takes, with its value. */
  function Consume(t: ParamType, d: Strtod, url: string, pos: nat): (h: Hit)
    requires pos < |url|
    ensures h.Hit? ==> pos < h.end <= |url|
  {
    var c := url[pos];
    match t
    case INT => if IsDigit(c) || c == '+' || c == '-' then Integer(url, pos, true) else Miss
    case UINT => if IsDigit(c) || c == '+' then Integer(url, pos, false) else Miss
    case DOUBLE =>
      if IsDigit(c) || c == '+' || c == '-' || c == '.' then
        var n := d(url, pos);
        if n.Number? && pos < n.end <= |url| then Hit(DoubleValue(n.value), n.end) else Miss
      else Miss
    case STRING =>
      var e := SlashFrom(url, pos);
      if e != pos then Hit(StringValue(url[pos..e]), e) else Miss
    case PATH => Hit(StringValue(url[pos..]), |url|)
    case MAX => Miss
  }

  // ---------------------------------------------------------------- patterns

  /** One step of a route pattern. */
  datatype Token = Char(c: char) | Param(t: ParamType)

  /** The spellings of parameters, in the order they are tried. */
  const PARAM_TRAITS: seq<(ParamType, string)> :=
    [(INT, "<int>"), (UINT, "<uint>"), (DOUBLE, "<float>"), (DOUBLE, "<double>"),
     (STRING, "<str>"), (STRING, "<string>"), (PATH, "<path>")]

  predicate SpelledAt(s: string, i: nat, name: string) { i + |name| <= |s| && s[i..i + |name|] == name }

  function TraitAt(s: string, i: nat, k: nat): (r: nat)
    requires k <= |PARAM_TRAITS|
    ensures k <= r <= |PARAM_TRAITS| && (r < |PARAM_TRAITS| ==> SpelledAt(s, i, PARAM_TRAITS[r].1))
    decreases |PARAM_TRAITS| - k
  {
    if k == |PARAM_TRAITS| || SpelledAt(s, i, PARAM_TRAITS[k].1) then k else TraitAt(s, i, k + 1)
  }

  /** Every "<" begins a parameter, and no NUL occurs: what `get_parameter_tag` lets pass. */
  predicate WellFormed(pattern: string) {
    && '\0' !in pattern
    && forall i :: 0 <= i < |pattern| && pattern[i] == '<' ==> TraitAt(pattern, i, 0) < |PARAM_TRAITS|
  }

  /** The steps of a pattern from position `i`. */
  function Tokens(pattern: string, i: nat): seq<Token>
    requires i <= |pattern| && WellFormed(pattern)
    decreases |pattern| - i
  {
    if i == |pattern| then []
    else if pattern[i] == '<' then
      var x := PARAM_TRAITS[TraitAt(pattern, i, 0)];
      TraitLength(TraitAt(pattern, i, 0));
      [Param(x.0)] + Tokens(pattern, i + |x.1|)
    else [Char(pattern[i])] + Tokens(pattern, i + 1)
  }

  lemma TokensStep(pattern: string, i: nat)
    requires i <= |pattern| && WellFormed(pattern)
    ensures
      if i == |pattern| then Tokens(pattern, i) == []
      else if pattern[i] == '<' then
        var x := PARAM_TRAITS[TraitAt(pattern, i, 0)];
        Tokens(pattern, i) != [] && Tokens(pattern, i)[0] == Param(x.0) &&
        Tokens(pattern, i)[1..] == Tokens(pattern, i + |x.1|)
      else Tokens(pattern, i) != [] && Tokens(pattern, i)[0] == Char(pattern[i]) &&
           Tokens(pattern, i)[1..] == Tokens(pattern, i + 1)
  {
  }

  lemma TraitLength(k: nat)
    requires k < |PARAM_TRAITS|
    ensures |PARAM_TRAITS[k].1| > 0 && !PARAM_TRAITS[k].0.MAX?
  {
  }

  /** The value and end of one step of a pattern. */
  datatype Match = NoMatch | Match(ps: Params)

  /** The one way a pattern can match: literally, with each parameter taking what it takes. */
  function MatchFrom(d: Strtod, ts: seq<Token>, url: string, pos: nat, ps: Params): Match
    requires pos <= |url|
    decreases |ts|
  {
    if ts == [] then if pos == |url| then Match(ps) else NoMatch
    else if pos == |url| then NoMatch
    else
      match ts[0]
      case Char(c) => if url[pos] == c then MatchFrom(d, ts[1..], url, pos + 1, ps) else NoMatch
      case Param(t) =>
        match Consume(t, d, url, pos)
        case Miss => NoMatch
        case Hit(v, e) => MatchFrom(d, ts[1..], url, e, Push(ps, v))
  }
}
