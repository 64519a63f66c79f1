/** Base64 in both alphabets (sections 4 and 5 of RFC 4648). Shifts and masks of single bytes are
    written as divisions and remainders. */
module Base64 {
  import opened B = Bytes

  const UPPER := "ABCDEFGHIJKLMNOPQRSTUVWXYZ"
  const LOWER := "abcdefghijklmnopqrstuvwxyz"
  const DIGITS := "0123456789"
  const STANDARD := UPPER + LOWER + DIGITS + "+/"
  const URL_SAFE := UPPER + LOWER + DIGITS + "-_"

  datatype Alphabet = Standard | UrlSafe

  function Symbol(a: Alphabet, n: nat): char
    requires n < 64
  {
    if n < 26 then 'A' + n as char
    else if n < 52 then 'a' + (n - 26) as char
    else if n < 62 then '0' + (n - 52) as char
    else if n == 62 then (if a.Standard? then '+' else '-')
    else (if a.Standard? then '/' else '_')
  }

  /** The alphabets are those of the standard. */
  lemma SymbolsSpelled(a: Alphabet, n: nat)
    requires n < 64
    ensures Symbol(a, n) == (if a.Standard? then STANDARD else URL_SAFE)[n]
  {
    if n < 26 {
      Letters(n);
    } else if n < 52 {
      Letters(n - 26);
    } else if n < 62 {
      assert n in {52, 53, 54, 55, 56, 57, 58, 59, 60, 61};
    }
  }

  lemma Letters(n: nat)
    requires n < 26
    ensures UPPER[n] == 'A' + n as char && LOWER[n] == 'a' + n as char
  {
    assert n in {0, 1, 2, 3, 4, 5, 6, 7, 8, 9, 10, 11, 12, 13, 14, 15, 16, 17, 18, 19, 20, 21, 22, 23, 24, 25};
  }

  /** The mapping of the decoder, which takes either alphabet; anything else counts as zero. */
  function Key(c: char): (k: nat)
    ensures k < 64
  {
    if 'A' <= c <= 'Z' then c as int - 'A' as int
    else if 'a' <= c <= 'z' then c as int - 'a' as int + 26
    else if '0' <= c <= '9' then c as int - '0' as int + 52
    else if c == '+' || c == '-' then 62
    else if c == '/' || c == '_' then 63
    else 0
  }

  lemma KeyOfSymbol(a: Alphabet, n: nat)
    requires n < 64
    ensures Key(Symbol(a, n)) == n && Symbol(a, n) != '='
  {
  }

  // ---------------------------------------------------------------- encoding

  /** Three bytes are four sextets; a rest of one or two bytes is filled up with "=". */
  function Encoded(a: Alphabet, d: Bytes): string {
    if |d| == 0 then ""
    else if |d| == 1 then [Symbol(a, d[0] / 4), Symbol(a, d[0] % 4 * 16), '=', '=']
    else if |d| == 2 then
      [Symbol(a, d[0] / 4), Symbol(a, d[0] % 4 * 16 + d[1] / 16), Symbol(a, d[1] % 16 * 4), '=']
    else
      [Symbol(a, d[0] / 4), Symbol(a, d[0] % 4 * 16 + d[1] / 16), Symbol(a, d[1] % 16 * 4 + d[2] / 64),
       Symbol(a, d[2] % 64)] + Encoded(a, d[3..])
  }

  /** `base64encode` */
  method Encode(a: Alphabet, data: Bytes) returns (ret: string)
    ensures ret == Encoded(a, data)
    ensures |ret| == (|data| + 2) / 3 * 4
  {
    hide Symbol, Encoded;
    ret := "";
    var p: nat := 0;
    var size := |data|;
    EncodedLength(a, data);
    assert data[0..] == data;
    while size >= 3
      invariant p + size == |data| && 0 <= size && ret + Encoded(a, data[p..]) == Encoded(a, data)
      decreases size
    {
      EncodedStep(a, data, p);
      ghost var before := ret;
      Regroup(before, Four(a, data[p], data[p + 1], data[p + 2]), Encoded(a, data[p + 3..]));
      ret := ret + [Symbol(a, data[p] / 4)];
      var h := data[p] % 4 * 16;
      ret := ret + [Symbol(a, h + data[p + 1] / 16)];
      h := data[p + 1] % 16 * 4;
      ret := ret + [Symbol(a, h + data[p + 2] / 64)];
      ret := ret + [Symbol(a, data[p + 2] % 64)];
      assert ret == before + Four(a, data[p], data[p + 1], data[p + 2]);
      p := p + 3;
      size := size - 3;
    }
    EncodedTail(a, data, p);
    if size == 1 {
      ret := ret + [Symbol(a, data[p] / 4)];
      var h := data[p] % 4 * 16;
      ret := ret + [Symbol(a, h)];
      ret := ret + ['='];
      ret := ret + ['='];
    } else if size == 2 {
      ret := ret + [Symbol(a, data[p] / 4)];
      var h := data[p] % 4 * 16;
      ret := ret + [Symbol(a, h + data[p + 1] / 16)];
      h := data[p + 1] % 16 * 4;
      ret := ret + [Symbol(a, h)];
      ret := ret + ['='];
    }
  }

  function Four(a: Alphabet, b0: Byte, b1: Byte, b2: Byte): string {
    [Symbol(a, b0 / 4), Symbol(a, b0 % 4 * 16 + b1 / 16), Symbol(a, b1 % 16 * 4 + b2 / 64), Symbol(a, b2 % 64)]
  }

  lemma EncodedStep(a: Alphabet, d: Bytes, p: nat)
    requires p + 3 <= |d|
    ensures Encoded(a, d[p..]) == Four(a, d[p], d[p + 1], d[p + 2]) + Encoded(a, d[p + 3..])
  {
    assert d[p..][3..] == d[p + 3..];
  }

  lemma EncodedTail(a: Alphabet, d: Bytes, p: nat)
    requires p <= |d| < p + 3
    ensures |d| == p ==> Encoded(a, d[p..]) == ""
    ensures |d| == p + 1 ==> Encoded(a, d[p..]) == [Symbol(a, d[p] / 4), Symbol(a, d[p] % 4 * 16), '=', '=']
    ensures |d| == p + 2 ==>
              Encoded(a, d[p..]) ==
              [Symbol(a, d[p] / 4), Symbol(a, d[p] % 4 * 16 + d[p + 1] / 16), Symbol(a, d[p + 1] % 16 * 4), '=']
  {
  }

  /** Exactly four characters for every three bytes begun. */
  lemma {:induction false} EncodedLength(a: Alphabet, d: Bytes)
    ensures |Encoded(a, d)| == (|d| + 2) / 3 * 4
  {
    hide Symbol;
    if |d| >= 3 {
      EncodedLength(a, d[3..]);
      assert (|d| - 3 + 2) / 3 + 1 == (|d| + 2) / 3;
    }
  }

  // ---------------------------------------------------------------- decoding

  /** How many bytes the decoder will write: from the length and the padding alone. For a single
      "=" the count would be negative. */
  function DecodedSize(s: string): int {
    var n := |s|;
    if n % 4 == 2 then n / 4 * 3 + 1
    else if n % 4 == 3 then n / 4 * 3 + 2
    else if n >= 2 && s[n - 2] == '=' then n / 4 * 3 - 2
    else if n >= 1 && s[n - 1] == '=' then n / 4 * 3 - 1
    else n / 4 * 3
  }

  /** The count is negative for no other text, and the characters needed are there. */
  lemma SizeFits(s: string)
    ensures DecodedSize(s) < 0 <==> s == "="
    ensures DecodedSize(s) >= 0 ==> Needed(DecodedSize(s)) <= |s|
  {
    var q, r := |s| / 4, |s| % 4;
    assert |s| == 4 * q + r;
    if r == 2 || r == 3 {
    } else if q == 0 {
      if |s| == 1 { assert s[0] == '=' <==> s == "="; }
    } else {
      assert q * 3 - 2 == (q - 1) * 3 + 1 && q * 3 - 1 == (q - 1) * 3 + 2;
    }
  }

  /** The characters it takes to write `n` bytes. */
  function Needed(n: nat): nat {
    n / 3 * 4 + if n % 3 == 0 then 0 else n % 3 + 1
  }

  function Decoded(s: string, n: nat): (d: Bytes)
    requires Needed(n) <= |s|
    ensures |d| == n
    decreases n
  {
    if n == 0 then []
    else if n == 1 then [Key(s[0]) * 4 + Key(s[1]) / 16]
    else if n == 2 then [Key(s[0]) * 4 + Key(s[1]) / 16, Key(s[1]) % 16 * 16 + Key(s[2]) / 4]
    else
      [Key(s[0]) * 4 + Key(s[1]) / 16, Key(s[1]) % 16 * 16 + Key(s[2]) / 4, Key(s[2]) % 4 * 64 + Key(s[3])] +
      Decoded(s[4..], n - 3)
  }

  datatype Result = Thrown | Bytes(d: Bytes)

  function Decode64(s: string): Result {
    SizeFits(s);
    if DecodedSize(s) < 0 then Thrown else Result.Bytes(Decoded(s, DecodedSize(s)))
  }

  /** Decoding throws for one text only. */
  lemma OnlyLonePad(s: string)
    ensures Decode64(s) == Thrown <==> s == "="
  {
    SizeFits(s);
  }

  /** `base64decode`; a negative size makes `resize` throw. */
  method Decode(s: string) returns (r: Result)
    ensures r == Decode64(s)
  {
    hide Key, Decoded;
    SizeFits(s);
    var size := |s|;
    if size % 4 == 2 {
      size := size / 4 * 3 + 1;
    } else if size % 4 == 3 {
      size := size / 4 * 3 + 2;
    } else if size >= 2 && s[size - 2] == '=' {
      size := size / 4 * 3 - 2;
    } else if size >= 1 && s[size - 1] == '=' {
      if size < 4 { return Thrown; }
      size := size / 4 * 3 - 1;
    } else {
      size := size / 4 * 3;
    }
    var d := DecodeBlocks(s, size);
    r := Result.Bytes(d);
  }

  method DecodeBlocks(s: string, n: nat) returns (ret: Bytes)
    requires Needed(n) <= |s|
    ensures ret == Decoded(s, n)
  {
    hide Key, Decoded;
    ret := [];
    var p: nat, size: nat := 0, n;
    assert s[0..] == s;
    while size >= 3
      invariant p <= |s| && Needed(size) <= |s| - p
      invariant ret + Decoded(s[p..], size) == Decoded(s, n)
      decreases size
    {
      DecodedStep(s, p, size);
      ghost var before := ret;
      var odd, even := Key(s[p]), Key(s[p + 1]);
      ret := ret + [odd * 4 + even / 16];
      odd := Key(s[p + 2]);
      ret := ret + [even % 16 * 16 + odd / 4];
      even := Key(s[p + 3]);
      ret := ret + [odd % 4 * 64 + even];
      assert ret == before + Three(s[p], s[p + 1], s[p + 2], s[p + 3]);
      p := p + 4;
      size := size - 3;
    }
    DecodedTail(s, p, size);
    if size == 2 {
      var odd, even := Key(s[p]), Key(s[p + 1]);
      ret := ret + [odd * 4 + even / 16];
      odd := Key(s[p + 2]);
      ret := ret + [even % 16 * 16 + odd / 4];
    } else if size == 1 {
      var odd, even := Key(s[p]), Key(s[p + 1]);
      ret := ret + [odd * 4 + even / 16];
    }
  }

  function Three(c0: char, c1: char, c2: char, c3: char): Bytes {
    [Key(c0) * 4 + Key(c1) / 16, Key(c1) % 16 * 16 + Key(c2) / 4, Key(c2) % 4 * 64 + Key(c3)]
  }

  lemma DecodedStep(s: string, p: nat, n: nat)
    requires p <= |s| && n >= 3 && Needed(n) <= |s| - p
    ensures p + 4 <= |s| && Needed(n - 3) <= |s| - (p + 4)
    ensures Decoded(s[p..], n) == Three(s[p], s[p + 1], s[p + 2], s[p + 3]) + Decoded(s[p + 4..], n - 3)
  {
    assert s[p..][4..] == s[p + 4..];
    assert (n - 3) / 3 == n / 3 - 1 && (n - 3) % 3 == n % 3;
  }

  lemma DecodedTail(s: string, p: nat, n: nat)
    requires p <= |s| && n < 3 && Needed(n) <= |s| - p
    ensures n == 0 ==> Decoded(s[p..], n) == []
    ensures n == 1 ==> p + 2 <= |s| && Decoded(s[p..], n) == [Key(s[p]) * 4 + Key(s[p + 1]) / 16]
    ensures n == 2 ==>
              p + 3 <= |s| &&
              Decoded(s[p..], n) ==
              [Key(s[p]) * 4 + Key(s[p + 1]) / 16, Key(s[p + 1]) % 16 * 16 + Key(s[p + 2]) / 4]
  {
  }

  // ---------------------------------------------------------------- the round trip

  /** The text without the padding at its end. */
  function Stripped(s: string): string
    decreases |s|
  {
    if s != "" && s[|s| - 1] == '=' then Stripped(s[..|s| - 1]) else s
  }

  /** The bytes come back from their sextets, whatever stands behind them. */
  lemma {:induction false} BlocksBack(a: Alphabet, d: Bytes, s: string)
    requires |s| >= Needed(|d|) && |Encoded(a, d)| >= Needed(|d|)
    requires s[..Needed(|d|)] == Encoded(a, d)[..Needed(|d|)]
    ensures Decoded(s, |d|) == d
    decreases |d|
  {
    hide Symbol, Key;
    var e, n := Encoded(a, d), Needed(|d|);
    forall i | 0 <= i < n ensures s[i] == e[i] {
      assert s[..n][i] == e[..n][i];
    }
    if |d| == 1 {
      KeyOfSymbol(a, d[0] / 4);
      KeyOfSymbol(a, d[0] % 4 * 16);
    } else if |d| == 2 {
      KeyOfSymbol(a, d[0] / 4);
      KeyOfSymbol(a, d[0] % 4 * 16 + d[1] / 16);
      KeyOfSymbol(a, d[1] % 16 * 4);
    } else if |d| >= 3 {
      KeyOfSymbol(a, d[0] / 4);
      KeyOfSymbol(a, d[0] % 4 * 16 + d[1] / 16);
      KeyOfSymbol(a, d[1] % 16 * 4 + d[2] / 64);
      KeyOfSymbol(a, d[2] % 64);
      var rest := Encoded(a, d[3..]);
      assert e[4..] == rest;
      EncodedLength(a, d[3..]);
      assert n == 4 + Needed(|d| - 3);
      assert s[4..][..n - 4] == rest[..n - 4] by { assert s[..n][4..] == e[..n][4..]; }
      BlocksBack(a, d[3..], s[4..]);
    }
  }

  /** What the end of an encoded text looks like. */
  lemma {:induction false} EncodedEnd(a: Alphabet, d: Bytes)
    ensures
      var e, n := Encoded(a, d), |Encoded(a, d)|;
      && n == (|d| + 2) / 3 * 4
      && (|d| % 3 == 1 ==> n >= 4 && e[n - 1] == '=' && e[n - 2] == '=' && e[n - 3] != '=')
      && (|d| % 3 == 2 ==> n >= 4 && e[n - 1] == '=' && e[n - 2] != '=')
      && (|d| % 3 == 0 && n > 0 ==> n >= 4 && e[n - 1] != '=' && e[n - 2] != '=')
    decreases |d|
  {
    hide Symbol, Key;
    EncodedLength(a, d);
    if |d| == 1 {
      KeyOfSymbol(a, d[0] % 4 * 16);
    } else if |d| == 2 {
      KeyOfSymbol(a, d[1] % 16 * 4);
    } else if |d| >= 3 {
      KeyOfSymbol(a, d[2] % 64);
      KeyOfSymbol(a, d[1] % 16 * 4 + d[2] / 64);
      EncodedEnd(a, d[3..]);
      EncodedLength(a, d[3..]);
      assert (|d| - 3) % 3 == |d| % 3;
    }
  }

  /** Decoding undoes encoding, for every byte string and both alphabets. */
  lemma {:induction false} RoundTrip(a: Alphabet, d: Bytes)
    ensures Decode64(Encoded(a, d)) == Result.Bytes(d)
  {
    hide Symbol, Key, Encoded, Decoded;
    EncodedEnd(a, d);
    SizeFromEnd(|d|);
    var e := Encoded(a, d);
    BlocksBack(a, d, e);
  }

  lemma SizeFromEnd(k: nat)
    ensures
      var n := (k + 2) / 3 * 4;
      && n % 4 == 0 && Needed(k) <= n
      && n / 4 * 3 - (if k % 3 == 1 then 2 else if k % 3 == 2 then 1 else 0) == k
      && n - (if k % 3 == 1 then 2 else if k % 3 == 2 then 1 else 0) == Needed(k)
  {
    var q, r := k / 3, k % 3;
    assert k == 3 * q + r;
    if r == 0 { assert (k + 2) / 3 == q; } else { assert (k + 2) / 3 == q + 1; }
  }

  /** Also when the padding has been taken off. */
  lemma {:induction false} StrippedRoundTrip(a: Alphabet, d: Bytes)
    ensures Decode64(Stripped(Encoded(a, d))) == Result.Bytes(d)
  {
    hide Symbol, Key, Encoded, Decoded;
    EncodedEnd(a, d);
    SizeFromEnd(|d|);
    var e := Encoded(a, d);
    var k := Needed(|d|);
    StrippedIs(e, k);
    BlocksBack(a, d, e[..k]);
    StrippedSize(e[..k], |d|);
  }

  lemma {:induction false} StrippedIs(e: string, k: nat)
    requires k <= |e| && (forall i :: k <= i < |e| ==> e[i] == '=') && (k > 0 ==> e[k - 1] != '=')
    ensures Stripped(e) == e[..k]
    decreases |e|
  {
    if k < |e| {
      StrippedIs(e[..|e| - 1], k);
      assert e[..|e| - 1][..k] == e[..k];
    } else {
      assert e[..k] == e;
    }
  }

  lemma StrippedSize(s: string, n: nat)
    requires |s| == Needed(n) && (s != "" ==> s[|s| - 1] != '=') && (n % 3 == 0 && n > 0 ==> |s| >= 2 && s[|s| - 2] != '=')
    ensures DecodedSize(s) == n
  {
    var q, r := n / 3, n % 3;
    assert n == 3 * q + r;
    if r == 1 { assert |s| == 4 * q + 2; } else if r == 2 { assert |s| == 4 * q + 3; } else { assert |s| == 4 * q; }
  }
}
