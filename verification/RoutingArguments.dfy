/** From a pattern to the handler's arguments: the base-six tag that codes the parameter types, and
    the delivery of captured values, kept in one list per type, back in URL order. */
module RoutingArguments {
  import opened RoutingPatterns

  // ---------------------------------------------------------------- the tag of a pattern

  const WORD := 0x1_0000_0000_0000_0000

  function Digit(t: ParamType): nat {
    match t
    case INT => 1 case UINT => 2 case DOUBLE => 3 case STRING => 4 case PATH => 5 case MAX => 0
  }

  datatype Tag = Tag(value: nat) | InvalidParameter

  /** `find_closing_tag`: the next ">" */
  function ClosingTag(s: string, p: nat): (e: nat)
    requires p <= |s|
    ensures p <= e <= |s|
    decreases |s| - p
  {
    if p < |s| && s[p] != '>' then ClosingTag(s, p + 1) else p
  }

  /** `get_parameter_tag`, in 64-bit arithmetic. */
  function ParameterTag(s: string, p: nat): Tag
    requires p <= |s|
    decreases |s| - p
  {
    if p == |s| then Tag(0)
    else if s[p] == '<' then
      var k := TraitAt(s, p, 0);
      if k == |PARAM_TRAITS| then InvalidParameter
      else
        match ParameterTag(s, ClosingTag(s, p))
        case InvalidParameter => InvalidParameter
        case Tag(n) => Tag((n * 6 + Digit(PARAM_TRAITS[k].0)) % WORD)
    else ParameterTag(s, p + 1)
  }

  /** The parameters of a pattern, in order. */
  function ParamsOf(ts: seq<Token>): seq<ParamType> {
    if ts == [] then []
    else (if ts[0].Param? then [ts[0].t] else []) + ParamsOf(ts[1..])
  }

  /** Base-six code, first parameter in the lowest digit. */
  function Code(params: seq<ParamType>): nat {
    if params == [] then 0 else Code(params[1..]) * 6 + Digit(params[0])
  }

  /** "<", letters, ">": the closing bracket of a spelled parameter is its last character. */
  lemma ClosingOfTrait(s: string, p: nat, k: nat)
    requires k < |PARAM_TRAITS| && SpelledAt(s, p, PARAM_TRAITS[k].1)
    ensures ClosingTag(s, p) == p + |PARAM_TRAITS[k].1| - 1
    ensures p + |PARAM_TRAITS[k].1| <= |s| && s[ClosingTag(s, p)] == '>'
  {
    var name := PARAM_TRAITS[k].1;
    TraitBrackets(k);
    forall i | 0 <= i < |name|
      ensures s[p + i] == name[i]
    {
      assert s[p..p + |name|][i] == name[i];
    }
    ClosingIs(s, p, p + |name| - 1);
  }

  lemma TraitBrackets(k: nat)
    requires k < |PARAM_TRAITS|
    ensures var name := PARAM_TRAITS[k].1;
            && |name| > 1 && name[|name| - 1] == '>'
            && forall i :: 0 <= i < |name| - 1 ==> name[i] != '>'
  {
  }

  lemma {:induction false} ClosingIs(s: string, p: nat, e: nat)
    requires p <= e < |s| && s[e] == '>' && forall i :: p <= i < e ==> s[i] != '>'
    ensures ClosingTag(s, p) == e
    decreases e - p
  {
    if p < e { ClosingIs(s, p + 1, e); }
  }

  /** The tag of a pattern is the code of its parameters, cut to 64 bits. */
  lemma {:induction false} TagIsCode(s: string, p: nat)
    requires p <= |s| && WellFormed(s)
    ensures ParameterTag(s, p) == Tag(Code(ParamsOf(Tokens(s, p))) % WORD)
    decreases |s| - p
  {
    hide Tokens, TraitAt, Code, ParamsOf;
    TokensStep(s, p);
    CodeStep(Tokens(s, p));
    if p == |s| {
    } else if s[p] == '<' {
      var k := TraitAt(s, p, 0);
      var e := p + |PARAM_TRAITS[k].1|;
      TraitLength(k);
      ClosingOfTrait(s, p, k);
      TagIsCode(s, e);
      assert ParameterTag(s, e - 1) == ParameterTag(s, e);
      CutOnce(Code(ParamsOf(Tokens(s, e))), Digit(PARAM_TRAITS[k].0));
    } else {
      TagIsCode(s, p + 1);
    }
  }

  lemma CodeStep(ts: seq<Token>)
    ensures ts == [] ==> Code(ParamsOf(ts)) == 0
    ensures ts != [] && ts[0].Char? ==> ParamsOf(ts) == ParamsOf(ts[1..])
    ensures ts != [] && ts[0].Param? ==> Code(ParamsOf(ts)) == Code(ParamsOf(ts[1..])) * 6 + Digit(ts[0].t)
  {
  }

  lemma CutOnce(n: nat, g: nat)
    ensures (n % WORD * 6 + g) % WORD == (n * 6 + g) % WORD
  {
    var q := n / WORD;
    assert n * 6 + g == (n % WORD * 6 + g) + (6 * q) * WORD;
    AddMultiple(n % WORD * 6 + g, 6 * q);
  }

  lemma {:induction false} AddMultiple(x: nat, q: nat)
    ensures (x + q * WORD) % WORD == x % WORD
  {
    if q > 0 {
      AddMultiple(x, q - 1);
      assert (x + q * WORD) == (x + (q - 1) * WORD) + WORD;
    }
  }

  /** A tag exists exactly for the patterns every "<" of which begins a parameter. */
  lemma {:induction false} TagExists(s: string, p: nat)
    requires p <= |s|
    ensures ParameterTag(s, p).Tag? <==>
            forall i :: p <= i < |s| && s[i] == '<' ==> TraitAt(s, i, 0) < |PARAM_TRAITS|
    decreases |s| - p
  {
    if p == |s| {
    } else if s[p] == '<' && TraitAt(s, p, 0) < |PARAM_TRAITS| {
      var k := TraitAt(s, p, 0);
      TraitBrackets(k);
      ClosingOfTrait(s, p, k);
      TagExists(s, ClosingTag(s, p));
      var name := PARAM_TRAITS[k].1;
      forall i | p < i < ClosingTag(s, p)
        ensures s[i] != '<'
      {
        assert s[i] == s[p..p + |name|][i - p] == name[i - p];
        OneBracket(k, i - p);
      }
    } else {
      TagExists(s, p + 1);
    }
  }

  lemma OneBracket(k: nat, i: nat)
    requires k < |PARAM_TRAITS| && 0 < i < |PARAM_TRAITS[k].1|
    ensures PARAM_TRAITS[k].1[i] != '<'
  {
  }

  // ---------------------------------------------------------------- types of the handler

  /** The type a handler sees; a path arrives as a string. */
  function HandlerType(t: ParamType): ParamType {
    if t.PATH? then STRING else t
  }

  function HandlerTypes(params: seq<ParamType>): seq<ParamType> {
    seq(|params|, i requires 0 <= i < |params| => HandlerType(params[i]))
  }

  /** `single_tag_to_type`; MAX where no type is declared. */
  function TypeOfDigit(digit: nat): ParamType {
    match digit
    case 1 => INT case 2 => UINT case 3 => DOUBLE case 4 => STRING case 5 => STRING case _ => MAX
  }

  /** `arguments`: the argument types a tag stands for. */
  function Arguments(tag: nat): seq<ParamType> {
    if tag == 0 then [] else [TypeOfDigit(tag % 6)] + Arguments(tag / 6)
  }

  lemma {:induction false} ArgumentsOfCode(params: seq<ParamType>)
    requires MAX !in params
    ensures Arguments(Code(params)) == HandlerTypes(params)
  {
    if params != [] {
      assert params[0] in params && forall t :: t in params[1..] ==> t in params;
      ArgumentsOfCode(params[1..]);
      var n := Code(params[1..]) * 6 + Digit(params[0]);
      assert n / 6 == Code(params[1..]) && n % 6 == Digit(params[0]);
      assert HandlerTypes(params) == [HandlerType(params[0])] + HandlerTypes(params[1..]);
    }
  }

  /** The number with `n` digits one. */
  function Ones(n: nat): nat { if n == 0 then 0 else 6 * Ones(n - 1) + 1 }

  /** A number that stands for the types of some parameters is near their code: paths and strings are one
      type, so that a digit may differ by one. */
  lemma {:induction false} NearCode(params: seq<ParamType>, tag: nat)
    requires MAX !in params && Arguments(tag) == HandlerTypes(params)
    ensures Ones(|params|) <= tag
    ensures Code(params) <= tag + Ones(|params|)
  {
    if params != [] {
      assert params[0] in params && forall t :: t in params[1..] ==> t in params;
      assert HandlerTypes(params)[1..] == HandlerTypes(params[1..]);
      assert Arguments(tag)[0] == TypeOfDigit(tag % 6) && Arguments(tag)[1..] == Arguments(tag / 6);
      NearCode(params[1..], tag / 6);
    }
  }

  lemma ParamsStep(ts: seq<Token>)
    requires ts != []
    ensures ParamsOf(ts) == (if ts[0].Param? then [ts[0].t] else []) + ParamsOf(ts[1..])
  {
  }

  lemma NoMax(ts: seq<Token>)
    requires ts != [] ==> ts[0] != Param(MAX) && MAX !in ParamsOf(ts[1..])
    ensures MAX !in ParamsOf(ts)
  {
  }

  lemma {:induction false} ParamsProper(s: string, p: nat)
    requires p <= |s| && WellFormed(s)
    ensures MAX !in ParamsOf(Tokens(s, p))
    decreases |s| - p
  {
    hide Tokens, TraitAt, ParamsOf, PARAM_TRAITS;
    TokensStep(s, p);
    if p < |s| && s[p] == '<' {
      var k := TraitAt(s, p, 0);
      TraitLength(k);
      ParamsProper(s, p + |PARAM_TRAITS[k].1|);
    } else if p < |s| {
      ParamsProper(s, p + 1);
    }
    NoMax(Tokens(s, p));
  }

  /** The tag is exact, decoding it gives the pattern's types in order, if and only if the code fits in 64
      bits. */
  lemma {:induction false} TagDecodes(s: string)
    requires WellFormed(s)
    ensures ParameterTag(s, 0).Tag?
    ensures var params := ParamsOf(Tokens(s, 0));
            Arguments(ParameterTag(s, 0).value) == HandlerTypes(params) <==> Code(params) < WORD
  {
    hide Tokens, TraitAt, Code, ParamsOf, ParameterTag, Arguments, HandlerTypes;
    var params := ParamsOf(Tokens(s, 0));
    var tag := Code(params) % WORD;
    TagIsCode(s, 0);
    ParamsProper(s, 0);
    if Code(params) < WORD {
      ArgumentsOfCode(params);
    } else if Arguments(tag) == HandlerTypes(params) {
      assert tag + WORD <= Code(params);
      NearCode(params, tag);
    }
  }

  // ---------------------------------------------------------------- how many parameters fit

  function Pow6(n: nat): nat { if n == 0 then 1 else 6 * Pow6(n - 1) }

  lemma {:induction false} Pow6Grows(m: nat, n: nat)
    requires m <= n
    ensures 0 < Pow6(m) <= Pow6(n)
  {
    if m < n { Pow6Grows(m, n - 1); }
    else if m > 0 { Pow6Grows(m - 1, m - 1); }
  }

  lemma Pow6Values()
    ensures Pow6(24) == 4738381338321616896 && Pow6(25) == 28430288029929701376
  {
    var p8 := Pow6(8);
    assert p8 == 1679616 by { assert Pow6(4) == 1296; }
    assert Pow6(12) == 2176782336;
    assert Pow6(16) == 2821109907456;
    assert Pow6(20) == 3656158440062976;
  }

  lemma {:induction false} CodeBound(params: seq<ParamType>)
    ensures Code(params) < Pow6(|params|)
  {
    if params != [] { CodeBound(params[1..]); }
  }

  /** Up to 24 parameters, of any types, always fit. */
  lemma {:induction false} FewParameters(params: seq<ParamType>)
    requires |params| <= 24
    ensures Code(params) < WORD
  {
    hide Code, Pow6;
    CodeBound(params);
    Pow6Grows(|params|, 24);
    Pow6Values();
  }

  /** A pattern of `n` string parameters. */
  function Strings(n: nat): string { if n == 0 then "" else "/<str>" + Strings(n - 1) }

  lemma SecondLetter(s: string, i: nat, name: string)
    requires |name| > 1
    ensures SpelledAt(s, i, name) ==> i + 1 < |s| && s[i + 1] == name[1]
  {
    if SpelledAt(s, i, name) { assert s[i + 1] == s[i..i + |name|][1]; }
  }

  lemma StringHere(s: string, p: nat, n: nat)
    requires p <= |s| && s[p..] == Strings(n) && n > 0
    ensures p + 6 <= |s| && s[p..p + 6] == "/<str>" && s[p + 6..] == Strings(n - 1)
    ensures s[p] == '/' && s[p + 1] == '<' && TraitAt(s, p + 1, 0) == 4 && PARAM_TRAITS[4] == (STRING, "<str>")
  {
    assert s[p..][..6] == "/<str>" && s[p..][6..] == s[p + 6..];
    assert s[p + 1..p + 6] == s[p..p + 6][1..] == "<str>";
    assert s[p] == s[p..p + 6][0] && s[p + 1] == s[p..p + 6][1] && s[p + 2] == s[p..p + 6][2] == 's';
    assert forall k :: 0 <= k < 4 ==> PARAM_TRAITS[k].1[1] != 's';
    forall k | 0 <= k < 4
      ensures !SpelledAt(s, p + 1, PARAM_TRAITS[k].1)
    {
      SecondLetter(s, p + 1, PARAM_TRAITS[k].1);
    }
    assert TraitAt(s, p + 1, 4) == 4;
  }

  lemma {:induction false} StringsFormed(s: string, p: nat, n: nat)
    requires p <= |s| && s[p..] == Strings(n)
    ensures forall i :: p <= i < |s| ==> s[i] != '\0' && (s[i] == '<' ==> TraitAt(s, i, 0) < |PARAM_TRAITS|)
    decreases n
  {
    if n > 0 {
      StringHere(s, p, n);
      StringsFormed(s, p + 6, n - 1);
      forall i | p <= i < p + 6
        ensures s[i] != '\0' && (s[i] == '<' ==> i == p + 1)
      {
        assert s[i] == s[p..p + 6][i - p];
      }
    }
  }

  lemma {:induction false} StringsParams(s: string, p: nat, n: nat)
    requires WellFormed(s) && p <= |s| && s[p..] == Strings(n)
    ensures ParamsOf(Tokens(s, p)) == seq(n, i => STRING)
    decreases n
  {
    if n == 0 {
      assert Tokens(s, p) == [];
    } else {
      hide Tokens, TraitAt, ParamsOf, PARAM_TRAITS, Strings;
      StringHere(s, p, n);
      StringsParams(s, p + 6, n - 1);
      TokensStep(s, p);
      TokensStep(s, p + 1);
      ParamsStep(Tokens(s, p));
      ParamsStep(Tokens(s, p + 1));
      assert seq(n, i => STRING) == [STRING] + seq(n - 1, i => STRING);
    }
  }

  lemma {:induction false} CodeOfStrings(n: nat)
    ensures 5 * Code(seq(n, i => STRING)) == 4 * (Pow6(n) - 1)
  {
    if n > 0 {
      CodeOfStrings(n - 1);
      assert seq(n, i => STRING)[1..] == seq(n - 1, i => STRING);
    }
  }

  /** A pattern of `n` string parameters is read back from its tag exactly up to 24. */
  lemma {:induction false} ManyStrings(n: nat)
    ensures WellFormed(Strings(n)) && ParamsOf(Tokens(Strings(n), 0)) == seq(n, i => STRING)
    ensures ParameterTag(Strings(n), 0).Tag?
    ensures Arguments(ParameterTag(Strings(n), 0).value) == HandlerTypes(seq(n, i => STRING)) <==> n <= 24
  {
    hide Tokens, TraitAt, Code, ParamsOf, ParameterTag, Arguments, HandlerTypes, Pow6, Strings;
    assert Strings(n)[0..] == Strings(n);
    StringsFormed(Strings(n), 0, n);
    StringsParams(Strings(n), 0, n);
    TagDecodes(Strings(n));
    CodeOfStrings(n);
    Pow6Values();
    if n <= 24 { Pow6Grows(n, 24); } else { Pow6Grows(25, n); }
  }

  // ---------------------------------------------------------------- delivering the captures

  /** What a matching pattern captures, in URL order. */
  function Captured(d: Strtod, ts: seq<Token>, url: string, pos: nat): seq<Value>
    requires pos <= |url|
    decreases |ts|
  {
    if ts == [] || pos == |url| then []
    else
      match ts[0]
      case Char(_) => Captured(d, ts[1..], url, pos + 1)
      case Param(t) =>
        match Consume(t, d, url, pos)
        case Miss => []
        case Hit(v, e) => [v] + Captured(d, ts[1..], url, e)
  }

  function TypeOf(v: Value): ParamType {
    match v
    case IntValue(_) => INT
    case UintValue(_) => UINT
    case DoubleValue(_) => DOUBLE
    case StringValue(_) => STRING
  }

  function TypesOf(vs: seq<Value>): seq<ParamType> {
    if vs == [] then [] else [TypeOf(vs[0])] + TypesOf(vs[1..])
  }

  function PushAll(ps: Params, vs: seq<Value>): Params
    decreases |vs|
  {
    if vs == [] then ps else PushAll(Push(ps, vs[0]), vs[1..])
  }

  /** A match has pushed its captures one by one. */
  lemma {:induction false} MatchPushes(d: Strtod, ts: seq<Token>, url: string, pos: nat, ps: Params)
    requires pos <= |url| && MatchFrom(d, ts, url, pos, ps).Match?
    ensures MatchFrom(d, ts, url, pos, ps).ps == PushAll(ps, Captured(d, ts, url, pos))
    decreases |ts|
  {
    hide Consume, Push;
    if ts != [] {
      match ts[0] {
        case Char(_) =>
          MatchPushes(d, ts[1..], url, pos + 1, ps);
        case Param(t) =>
          var h := Consume(t, d, url, pos);
          MatchPushes(d, ts[1..], url, h.end, Push(ps, h.value));
          assert Captured(d, ts, url, pos)[1..] == Captured(d, ts[1..], url, h.end);
      }
    }
  }

  /** The captures of a match have the types the pattern names. */
  lemma {:induction false} MatchTypes(d: Strtod, ts: seq<Token>, url: string, pos: nat, ps: Params)
    requires pos <= |url| && MatchFrom(d, ts, url, pos, ps).Match?
    ensures TypesOf(Captured(d, ts, url, pos)) == HandlerTypes(ParamsOf(ts))
    decreases |ts|
  {
    hide Consume, Push;
    if ts != [] {
      match ts[0] {
        case Char(_) =>
          MatchTypes(d, ts[1..], url, pos + 1, ps);
        case Param(t) =>
          var h := Consume(t, d, url, pos);
          ConsumeType(t, d, url, pos);
          MatchTypes(d, ts[1..], url, h.end, Push(ps, h.value));
          assert Captured(d, ts, url, pos)[1..] == Captured(d, ts[1..], url, h.end);
          assert HandlerTypes(ParamsOf(ts)) == [HandlerType(t)] + HandlerTypes(ParamsOf(ts[1..]));
      }
    }
  }

  lemma ConsumeType(t: ParamType, d: Strtod, url: string, pos: nat)
    requires pos < |url| && Consume(t, d, url, pos).Hit?
    ensures TypeOf(Consume(t, d, url, pos).value) == HandlerType(t)
  {
  }

  /** One counter per type, as the template arguments of `call`. */
  datatype Counters = Counters(ints: nat, uints: nat, doubles: nat, strings: nat)

  function CountersOf(ps: Params): Counters {
    Counters(|ps.ints|, |ps.uints|, |ps.doubles|, |ps.strings|)
  }

  /** `routing_params::get` at the counter of the type. */
  predicate Available(t: ParamType, ps: Params, c: Counters) {
    match t
    case INT => c.ints < |ps.ints|
    case UINT => c.uints < |ps.uints|
    case DOUBLE => c.doubles < |ps.doubles|
    case STRING => c.strings < |ps.strings|
    case _ => false
  }

  function Get(t: ParamType, ps: Params, c: Counters): Value
    requires Available(t, ps, c)
  {
    match t
    case INT => IntValue(ps.ints[c.ints])
    case UINT => UintValue(ps.uints[c.uints])
    case DOUBLE => DoubleValue(ps.doubles[c.doubles])
    case STRING => StringValue(ps.strings[c.strings])
  }

  function Count(t: ParamType, c: Counters): Counters {
    match t
    case INT => c.(ints := c.ints + 1)
    case UINT => c.(uints := c.uints + 1)
    case DOUBLE => c.(doubles := c.doubles + 1)
    case STRING => c.(strings := c.strings + 1)
    case _ => c
  }

  predicate AllAvailable(types: seq<ParamType>, ps: Params, c: Counters) {
    types == [] || (Available(types[0], ps, c) && AllAvailable(types[1..], ps, Count(types[0], c)))
  }

  /** `routing_handler_call_helper::call`: the arguments, each read from the list of its type. */
  function Deliver(types: seq<ParamType>, ps: Params, c: Counters): seq<Value>
    requires AllAvailable(types, ps, c)
  {
    if types == [] then [] else [Get(types[0], ps, c)] + Deliver(types[1..], ps, Count(types[0], c))
  }

  predicate Extends(a: Params, b: Params) {
    a.ints <= b.ints && a.uints <= b.uints && a.doubles <= b.doubles && a.strings <= b.strings
  }

  lemma {:induction false} PushAllExtends(ps: Params, vs: seq<Value>)
    ensures Extends(ps, PushAll(ps, vs))
    decreases |vs|
  {
    if vs != [] { PushAllExtends(Push(ps, vs[0]), vs[1..]); }
  }

  /** Splitting values by type and reading them back by type loses neither value nor order. */
  lemma {:induction false} DeliverPushed(ps: Params, vs: seq<Value>)
    ensures AllAvailable(TypesOf(vs), PushAll(ps, vs), CountersOf(ps))
    ensures Deliver(TypesOf(vs), PushAll(ps, vs), CountersOf(ps)) == vs
    decreases |vs|
  {
    if vs != [] {
      DeliverPushed(Push(ps, vs[0]), vs[1..]);
      PushAllExtends(Push(ps, vs[0]), vs[1..]);
      assert TypesOf(vs)[1..] == TypesOf(vs[1..]);
    }
  }

  /** What is delivered has the types that were asked for. */
  lemma {:induction false} DeliverTypes(types: seq<ParamType>, ps: Params, c: Counters)
    requires AllAvailable(types, ps, c)
    ensures TypesOf(Deliver(types, ps, c)) == types
  {
    if types != [] {
      DeliverTypes(types[1..], ps, Count(types[0], c));
      assert Deliver(types, ps, c)[1..] == Deliver(types[1..], ps, Count(types[0], c));
      assert types == [types[0]] + types[1..];
    }
  }

  /** The handler of a matching pattern is called with the captures, in URL order, if and only if the code
      of the pattern's parameters fits in 64 bits. */
  lemma {:induction false} HandlerReceives(d: Strtod, pattern: string, url: string)
    requires WellFormed(pattern) && MatchFrom(d, Tokens(pattern, 0), url, 0, NO_PARAMS).Match?
    ensures ParameterTag(pattern, 0).Tag?
    ensures
      var types := Arguments(ParameterTag(pattern, 0).value);
      var ps := MatchFrom(d, Tokens(pattern, 0), url, 0, NO_PARAMS).ps;
      && var none := Counters(0, 0, 0, 0);
      (AllAvailable(types, ps, none) && Deliver(types, ps, none) == Captured(d, Tokens(pattern, 0), url, 0))
      <==> Code(ParamsOf(Tokens(pattern, 0))) < WORD
  {
    hide Tokens, MatchFrom, Captured, Arguments, Code, ParamsOf, ParameterTag;
    hide Deliver, AllAvailable, TypesOf, HandlerTypes, PushAll;
    TagDecodes(pattern);
    MatchPushes(d, Tokens(pattern, 0), url, 0, NO_PARAMS);
    MatchTypes(d, Tokens(pattern, 0), url, 0, NO_PARAMS);
    DeliverPushed(NO_PARAMS, Captured(d, Tokens(pattern, 0), url, 0));
    var types := Arguments(ParameterTag(pattern, 0).value);
    var ps := MatchFrom(d, Tokens(pattern, 0), url, 0, NO_PARAMS).ps;
    if AllAvailable(types, ps, Counters(0, 0, 0, 0)) { DeliverTypes(types, ps, Counters(0, 0, 0, 0)); }
  }
}
