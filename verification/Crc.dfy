/** CRC-32: the table-driven loop against the definition, one bit at a time. */
module Crc {

  // ---------------------------------------------------------------- the machine's operators

  function Xor(a: bv32, b: bv32): bv32 { a ^ b }
  function Half(c: bv32): bv32 { c >> 1 }
  predicate Odd(c: bv32) { c & 1 == 1 }
  function Low(c: bv32): bv8 { (c & 0xFF) as bv8 }
  function High(c: bv32): bv32 { c & 0xFFFF_FF00 }
  function Down(c: bv32): bv32 { c >> 8 }
  function Wide(b: bv8): bv32 { b as bv32 }

  // ---------------------------------------------------------------- the definition

  const POLYNOMIAL: bv32 := 0xEDB88320

  /** One bit of the reflected CRC: shift out the lowest bit and, if it was set, add the polynomial. */
  function BitStep(c: bv32): bv32 {
    if Odd(c) then Xor(POLYNOMIAL, Half(c)) else Half(c)
  }

  function BitSteps(c: bv32, n: nat): bv32 { if n == 0 then c else BitStep(BitSteps(c, n - 1)) }

  /** The register after some bytes: each byte is added to the low end and shifted out bit by bit. */
  function Register(data: seq<bv8>): bv32 {
    if data == [] then 0xFFFF_FFFF
    else BitSteps(Xor(Register(data[..|data| - 1]), Wide(data[|data| - 1])), 8)
  }

  function Crc32(data: seq<bv8>): bv32 { Xor(Register(data), 0xFFFF_FFFF) }

  // ---------------------------------------------------------------- the table

  predicate EntryRight(table: seq<bv32>, b: bv8)
    requires b as nat < |table|
  {
    table[b as nat] == BitSteps(Wide(b), 8)
  }

  /** `make_crc32_table` */
  method MakeTable() returns (table: seq<bv32>)
    ensures |table| == 256 && forall b: bv8 :: EntryRight(table, b)
  {
    hide BitSteps, Wide;
    table := [];
    var i := 0;
    while i < 256
      invariant 0 <= i <= 256 && |table| == i
      invariant forall b: bv8 :: b as nat < i ==> EntryRight(table, b)
    {
      var byte := i as bv8;
      var c := ShiftEight(Wide(byte));
      forall b: bv8 | b as nat < i + 1
        ensures EntryRight(table + [c], b)
      {
        if b as nat == i { SameByte(b); } else { assert EntryRight(table, b); }
      }
      table := table + [c];
      i := i + 1;
    }
  }

  /** The inner loop over eight bits. */
  method ShiftEight(start: bv32) returns (c: bv32)
    ensures c == BitSteps(start, 8)
  {
    hide Xor, Half, Odd;
    c := start;
    for j := 0 to 8
      invariant c == BitSteps(start, j)
    {
      if Odd(c) { c := Xor(0xEDB88320, Half(c)); } else { c := Half(c); }
    }
  }

  lemma SameByte(b: bv8)
    ensures (b as nat) as bv8 == b
  {
  }

  // ---------------------------------------------------------------- facts about 32 bits

  lemma SumBits(a: bv32, b: bv32)
    ensures Half(Xor(a, b)) == Xor(Half(a), Half(b))
    ensures Odd(Xor(a, b)) <==> Odd(a) != Odd(b)
  {
  }

  lemma {:induction false} SumsAgree(p: bv32, x: bv32, y: bv32)
    ensures Xor(p, Xor(x, y)) == Xor(Xor(p, x), y) && Xor(p, Xor(x, y)) == Xor(x, Xor(p, y))
    ensures Xor(Xor(p, x), Xor(p, y)) == Xor(x, y)
  {
    XorIs(x, y);
    XorRight(p, x, y);
    XorRight(x, p, y);
    XorLeft(p, x, y);
    XorBoth(p, x, p, y);
    RawSums(p, x, y);
    hide Xor;
  }

  lemma XorIs(a: bv32, b: bv32) ensures Xor(a, b) == a ^ b {}
  lemma XorRight(a: bv32, b: bv32, c: bv32) ensures Xor(a, Xor(b, c)) == a ^ (b ^ c) {}
  lemma XorLeft(a: bv32, b: bv32, c: bv32) ensures Xor(Xor(a, b), c) == (a ^ b) ^ c {}
  lemma XorBoth(a: bv32, b: bv32, c: bv32, d: bv32) ensures Xor(Xor(a, b), Xor(c, d)) == (a ^ b) ^ (c ^ d) {}

  lemma RawSums(p: bv32, x: bv32, y: bv32)
    ensures p ^ (x ^ y) == (p ^ x) ^ y && p ^ (x ^ y) == x ^ (p ^ y) && (p ^ x) ^ (p ^ y) == x ^ y
  {
  }

  lemma LowAndHigh(c: bv32)
    ensures c == Xor(Wide(Low(c)), High(c)) && Down(High(c)) == Down(c)
  {
  }

  /** A number shifted down one place at a time. */
  function Halves(c: bv32, n: nat): bv32 { if n == 0 then c else Half(Halves(c, n - 1)) }

  predicate IsHalf(h: bv32, whole: bv32) { h == whole >> 1 }
  predicate LowZero(h: bv32) { h & 0xFF == 0 }

  lemma EightShifts(h0: bv32, h1: bv32, h2: bv32, h3: bv32, h4: bv32, h5: bv32, h6: bv32, h7: bv32, h8: bv32)
    requires LowZero(h0) && IsHalf(h1, h0) && IsHalf(h2, h1) && IsHalf(h3, h2) && IsHalf(h4, h3)
    requires IsHalf(h5, h4) && IsHalf(h6, h5) && IsHalf(h7, h6) && IsHalf(h8, h7)
    ensures !Odd(h0) && !Odd(h1) && !Odd(h2) && !Odd(h3) && !Odd(h4) && !Odd(h5) && !Odd(h6) && !Odd(h7)
    ensures h8 == Down(h0)
  {
  }

  /** Nothing is lost while the low byte of a number without low byte goes by. */
  lemma {:induction false} HighIsEven(c: bv32)
    ensures forall n :: 0 <= n < 8 ==> !Odd(Halves(High(c), n))
    ensures Halves(High(c), 8) == Down(High(c))
  {
    hide Half, Halves, High, IsHalf, LowZero, Odd, Down;
    var h := High(c);
    HighLow(c);
    forall n | 0 <= n < 8 ensures IsHalf(Halves(h, n + 1), Halves(h, n)) { OneHalf(h, n); }
    EightShifts(Halves(h, 0), Halves(h, 1), Halves(h, 2), Halves(h, 3), Halves(h, 4), Halves(h, 5), Halves(h, 6),
                Halves(h, 7), Halves(h, 8));
    forall n | 0 <= n < 8 ensures !Odd(Halves(h, n)) {
      assert n == 0 || n == 1 || n == 2 || n == 3 || n == 4 || n == 5 || n == 6 || n == 7;
    }
  }

  lemma OneHalf(h: bv32, n: nat) ensures IsHalf(Halves(h, n + 1), Halves(h, n)) {}
  lemma HighLow(c: bv32) ensures LowZero(Halves(High(c), 0)) && Halves(High(c), 0) == High(c) {}

  lemma ByteShiftedOut(crc: bv32, ch: bv8)
    ensures Down(Xor(crc, Wide(ch))) == Down(crc)
  {
  }

  // ---------------------------------------------------------------- why the table is enough

  /** A step is linear over exclusive or. */
  lemma {:induction false} BitStepLinear(a: bv32, b: bv32)
    ensures BitStep(Xor(a, b)) == Xor(BitStep(a), BitStep(b))
  {
    SumBits(a, b);
    SumsAgree(POLYNOMIAL, Half(a), Half(b));
    hide Xor, Half, Odd;
  }

  lemma {:induction false} BitStepsLinear(a: bv32, b: bv32, n: nat)
    ensures BitSteps(Xor(a, b), n) == Xor(BitSteps(a, n), BitSteps(b, n))
  {
    hide BitStep, Xor;
    if n > 0 {
      BitStepsLinear(a, b, n - 1);
      BitStepLinear(BitSteps(a, n - 1), BitSteps(b, n - 1));
    }
  }

  /** While the low bits are zero, steps only shift. */
  lemma {:induction false} EvenSteps(h: bv32, n: nat)
    requires forall k :: 0 <= k < n ==> !Odd(Halves(h, k))
    ensures BitSteps(h, n) == Halves(h, n)
  {
    hide Xor, Half, Odd;
    if n > 0 { EvenSteps(h, n - 1); }
  }

  /** Eight steps: the table entry of the low byte, and the rest shifted down. */
  lemma {:induction false} EightSteps(c: bv32)
    ensures BitSteps(c, 8) == Xor(BitSteps(Wide(Low(c)), 8), Down(c))
  {
    hide BitSteps, Xor, Wide, Low, High, Down, Halves, Odd;
    LowAndHigh(c);
    BitStepsLinear(Wide(Low(c)), High(c), 8);
    HighIsEven(c);
    EvenSteps(High(c), 8);
  }

  // ---------------------------------------------------------------- the loop

  /** `crc32`: one table look-up a byte computes the CRC of the definition. */
  method TableCrc32(data: seq<bv8>) returns (r: bv32)
    ensures r == Crc32(data)
  {
    hide BitSteps, Xor, Wide, Low, Down;
    var table := MakeTable();
    var crc: bv32 := 0xFFFFFFFF;
    for i := 0 to |data|
      invariant crc == Register(data[..i])
    {
      var index := Low(Xor(crc, Wide(data[i])));
      assert EntryRight(table, index);
      EightSteps(Xor(crc, Wide(data[i])));
      ByteShiftedOut(crc, data[i]);
      crc := Xor(table[index as nat], Down(crc));
      assert data[..i + 1][..i] == data[..i] && data[..i + 1][i] == data[i];
    }
    assert data[..|data|] == data;
    r := Xor(crc, 0xFFFFFFFF);
  }
}
