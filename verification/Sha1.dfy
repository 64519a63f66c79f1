/** SHA-1: the streaming class against the definition of FIPS 180-4. */
module Sha1 {
  import opened B = Bytes

  type Word = bv32

  /** Addition modulo 2^32. */
  function Plus(x: Word, y: Word): Word { x + y }

  // ---------------------------------------------------------------- the standard

  /** Section 2.2.2: rotation to the left. */
  function Rotl(n: nat, x: Word): Word
    requires 0 < n < 32
  {
    (x << n) | (x >> (32 - n))
  }

  /** Section 4.1.1: the function of round `t`. */
  function F(t: nat, x: Word, y: Word, z: Word): Word {
    if t < 20 then (x & y) ^ (!x & z)
    else if t < 40 then x ^ y ^ z
    else if t < 60 then (x & y) ^ (x & z) ^ (y & z)
    else x ^ y ^ z
  }

  /** Section 4.2.1: the constant of round `t`. */
  function K(t: nat): Word {
    if t < 20 then 0x5a827999 else if t < 40 then 0x6ed9eba1 else if t < 60 then 0x8f1bbcdc else 0xca62c1d6
  }

  datatype Hash = Hash(a: Word, b: Word, c: Word, d: Word, e: Word)

  /** Section 5.3.1. */
  const INITIAL := Hash(0x67452301, 0xefcdab89, 0x98badcfe, 0x10325476, 0xc3d2e1f0)

  function WordAt(block: Bytes, i: nat): Word
    requires 4 * i + 4 <= |block|
  {
    (block[4 * i] as Word << 24) | (block[4 * i + 1] as Word << 16) | (block[4 * i + 2] as Word << 8) |
    (block[4 * i + 3] as Word)
  }

  function NextWord(w3: Word, w8: Word, w14: Word, w16: Word): Word { Rotl(1, w3 ^ w8 ^ w14 ^ w16) }

  /** Section 6.1.2, step 1: the message schedule. */
  function Schedule(block: Bytes, n: nat): (w: seq<Word>)
    requires |block| == 64
    ensures |w| == n
  {
    if n == 0 then []
    else
      var w := Schedule(block, n - 1);
      var t := n - 1;
      w + [if t < 16 then WordAt(block, t) else NextWord(w[t - 3], w[t - 8], w[t - 14], w[t - 16])]
  }

  /** Step 3: one round. */
  function Round(t: nat, w: Word, h: Hash): Hash {
    Hash(Plus(Plus(Plus(Plus(Rotl(5, h.a), F(t, h.b, h.c, h.d)), h.e), K(t)), w), h.a, Rotl(30, h.b), h.c, h.d)
  }

  function Rounds(w: seq<Word>, n: nat, h: Hash): Hash
    requires n <= |w|
  {
    if n == 0 then h else Round(n - 1, w[n - 1], Rounds(w, n - 1, h))
  }

  function Added(h: Hash, r: Hash): Hash {
    Hash(Plus(h.a, r.a), Plus(h.b, r.b), Plus(h.c, r.c), Plus(h.d, r.d), Plus(h.e, r.e))
  }

  /** Steps 2 to 4: one block. */
  function Compress(h: Hash, block: Bytes): Hash
    requires |block| == 64
  {
    var r := Rounds(Schedule(block, 80), 80, h);
    Added(h, r)
  }

  function HashOf(m: Bytes): Hash
    requires |m| % 64 == 0
    decreases |m|
  {
    if m == [] then INITIAL else Compress(HashOf(m[..|m| - 64]), m[|m| - 64..])
  }

  lemma NothingHashed()
    ensures HashOf([]) == INITIAL
  {
  }

  /** Section 5.1.1: a one bit, zeros up to 56 bytes in the block, and the length in bits. */
  function Padded(m: Bytes): (p: Bytes)
    ensures |p| % 64 == 0
  {
    PadFits(|m|);
    m + [0x80] + Zeros((119 - |m| % 64) % 64) + BigEndian(8 * |m|, 8)
  }

  lemma PadFits(n: nat)
    ensures (n + 1 + (119 - n % 64) % 64 + 8) % 64 == 0
  {
    var q, r := n / 64, n % 64;
    assert n == 64 * q + r;
    if r <= 55 {
      assert n + 1 + (55 - r) + 8 == 64 * (q + 1);
    } else {
      assert n + 1 + (119 - r) + 8 == 64 * (q + 2);
    }
  }

  function Digest(m: Bytes): Hash { HashOf(Padded(m)) }

  // ---------------------------------------------------------------- the code's own bit tricks

  function LeftRotate1(x: Word): Word { (x << 1) ^ (x >> 31) }
  function LeftRotate5(x: Word): Word { (x << 5) ^ (x >> 27) }
  function LeftRotate30(x: Word): Word { (x << 30) ^ (x >> 2) }

  lemma RotatesAgree(x: Word)
    ensures LeftRotate1(x) == Rotl(1, x) && LeftRotate5(x) == Rotl(5, x) && LeftRotate30(x) == Rotl(30, x)
  {
  }

  lemma ChoiceAgrees(x: Word, y: Word, z: Word)
    ensures (x & y) | (!x & z) == (x & y) ^ (!x & z)
  {
  }

  lemma MajorityAgrees(x: Word, y: Word, z: Word)
    ensures (x & y) | (x & z) | (y & z) == (x & y) ^ (x & z) ^ (y & z)
  {
  }

  // ---------------------------------------------------------------- the class

  /** The place in the block after one more byte. */
  function NextIndex(i: nat): nat { if i == 63 then 0 else i + 1 }

  class SHA1 {
    const digest: array<Word>
    const block: array<Byte>
    var blockByteIndex: nat
    var byteCount: nat
    /** Everything fed so far. */
    ghost var fed: Bytes

    ghost predicate Valid()
      reads this, digest, block
    {
      && digest.Length == 5 && block.Length == 64
      && byteCount == |fed| && blockByteIndex == |fed| % 64
      && block[..blockByteIndex] == fed[|fed| - blockByteIndex..]
      && Current() == HashOf(fed[..|fed| - blockByteIndex])
    }

    ghost function Current(): Hash
      reads this, digest
      requires digest.Length == 5
    {
      Hash(digest[0], digest[1], digest[2], digest[3], digest[4])
    }

    constructor ()
      ensures Valid() && fed == [] && fresh(digest) && fresh(block)
    {
      digest := new Word[5];
      block := new Byte[64];
      blockByteIndex, byteCount, fed := 0, 0, [];
      new;
      Reset();
    }

    /** `reset`: nothing fed. */
    method Reset()
      requires digest.Length == 5 && block.Length == 64
      modifies this, digest
      ensures Valid() && fed == []
    {
      SetDigest(INITIAL);
      blockByteIndex, byteCount, fed := 0, 0, [];
      hide HashOf;
      NothingHashed();
      assert fed[..0] == fed[0..] == [] && block[..0] == [];
    }

    method SetDigest(h: Hash)
      requires digest.Length == 5
      modifies digest
      ensures Current() == h
    {
      digest[0] := h.a;
      digest[1] := h.b;
      digest[2] := h.c;
      digest[3] := h.d;
      digest[4] := h.e;
    }

    /** `processByte` */
    method ProcessByte(octet: Byte)
      requires Valid()
      modifies this, digest, block
      ensures Valid() && fed == old(fed) + [octet]
      ensures blockByteIndex == NextIndex(old(blockByteIndex)) && byteCount == old(byteCount) + 1
    {
      hide HashOf;
      PutByte(octet);
      if blockByteIndex == 64 { EndBlock(); }
    }

    /** The block is full. */
    method EndBlock()
      requires digest.Length == 5 && block.Length == 64 && byteCount == |fed|
      requires blockByteIndex == 64 <= |fed| && |fed| % 64 == 0
      requires block[..64] == fed[|fed| - 64..] && Current() == HashOf(fed[..|fed| - 64])
      modifies this, digest
      ensures Valid() && blockByteIndex == 0 && fed == old(fed) && byteCount == old(byteCount)
    {
      hide HashOf, Compress;
      assert block[..] == block[..64];
      NextBlock(fed);
      ProcessBlock();
      blockByteIndex := 0;
      assert fed[..|fed|] == fed && fed[|fed|..] == [] == block[..0];
    }

    /** The byte is stored; the block may be full now. */
    method PutByte(octet: Byte)
      requires Valid()
      modifies this, block
      ensures digest.Length == 5 && block.Length == 64 && fed == old(fed) + [octet]
      ensures blockByteIndex == old(blockByteIndex) + 1 && byteCount == old(byteCount) + 1 == |fed|
      ensures blockByteIndex <= 64 && blockByteIndex % 64 == |fed| % 64 && blockByteIndex <= |fed|
      ensures block[..blockByteIndex] == fed[|fed| - blockByteIndex..]
      ensures Current() == HashOf(fed[..|fed| - blockByteIndex])
    {
      hide HashOf;
      block[blockByteIndex] := octet;
      blockByteIndex := blockByteIndex + 1;
      byteCount := byteCount + 1;
      fed := fed + [octet];
      assert fed[..|fed| - blockByteIndex] == old(fed)[..|fed| - blockByteIndex];
    }

    /** `processBytes` */
    method ProcessBytes(data: Bytes)
      requires Valid()
      modifies this, digest, block
      ensures Valid() && fed == old(fed) + data
    {
      hide Valid;
      var i := 0;
      while i < |data|
        invariant i <= |data| && Valid() && fed == old(fed) + data[..i]
      {
        assert data[..i + 1] == data[..i] + [data[i]];
        ProcessByte(data[i]);
        i := i + 1;
      }
      assert data[..i] == data;
    }

    /** The loops that feed zeros until the block is filled up to `target`. */
    method FeedZeros(target: nat)
      requires Valid() && blockByteIndex <= target < 64
      modifies this, digest, block
      ensures Valid() && blockByteIndex == target
      ensures fed == old(fed) + Zeros(target - old(blockByteIndex))
    {
      hide Valid, Zeros;
      NoZeros(fed);
      while blockByteIndex < target
        invariant Valid() && old(blockByteIndex) <= blockByteIndex <= target
        invariant fed == old(fed) + Zeros(blockByteIndex - old(blockByteIndex))
        decreases target - blockByteIndex
      {
        ghost var n := blockByteIndex - old(blockByteIndex);
        ProcessByte(0);
        OneZeroMore(old(fed), n);
      }
    }

    lemma InBlock()
      requires Valid()
      ensures blockByteIndex < 64 && blockByteIndex == |fed| % 64 && byteCount == |fed|
      ensures blockByteIndex == 0 && |fed| % 64 == 0 ==> Current() == HashOf(fed)
    {
      assert fed[..|fed|] == fed;
    }

    /** `while (m_blockByteIndex != 0) processByte(0)` */
    method FinishBlock()
      requires Valid() && blockByteIndex != 0
      modifies this, digest, block
      ensures Valid() && blockByteIndex == 0
      ensures fed == old(fed) + Zeros(64 - old(blockByteIndex))
    {
      hide Valid, Zeros;
      InBlock();
      ghost var k, n := blockByteIndex, 0;
      NoZeros(fed);
      while blockByteIndex != 0
        invariant Valid() && fed == old(fed) + Zeros(n) && k + n <= 64
        invariant blockByteIndex == if k + n == 64 then 0 else k + n
        decreases 64 - k - n
      {
        ProcessByte(0);
        OneZeroMore(old(fed), n);
        n := n + 1;
      }
    }

    /** `getDigest`: whatever the offset in the block, it ends on a block boundary, and under 2^29
        bytes the result is the digest of the standard. */
    method GetDigest() returns (d: seq<Word>)
      requires Valid()
      modifies this, digest, block
      ensures Valid() && blockByteIndex == 0
      ensures fed == CodePadded(old(fed))
      ensures |d| == 5 && Hash(d[0], d[1], d[2], d[3], d[4]) == HashOf(CodePadded(old(fed)))
      ensures |old(fed)| < 0x2000_0000 ==> Hash(d[0], d[1], d[2], d[3], d[4]) == Digest(old(fed))
    {
      hide Valid, HashOf, BigEndian, CodePadded, Padded;
      InBlock();
      ghost var m := fed;
      var bitCount := byteCount * 8;
      ProcessByte(0x80);
      FillTo56(m);
      ProcessBytes([0, 0, 0, 0]);
      ProcessBytes([bitCount / 0x100_0000 % 256, bitCount / 0x1_0000 % 256, bitCount / 0x100 % 256, bitCount % 256]);
      LastBytes(m, fed);
      InBlock();
      DigestLength();
      d := digest[..];
      if |m| < 0x2000_0000 { PaddingAgrees(m); }
    }

    lemma DigestLength()
      requires Valid()
      ensures digest.Length == 5
    {
    }

    /** The two ways to fill up with zeros. */
    method FillTo56(ghost m: Bytes)
      requires Valid() && fed == m + [0x80] && blockByteIndex == (|m| + 1) % 64
      modifies this, digest, block
      ensures Valid() && fed == m + [0x80] + Zeros((119 - |m| % 64) % 64)
    {
      hide Valid;
      PadLength(m);
      if blockByteIndex > 56 {
        ghost var k := blockByteIndex;
        FinishBlock();
        FeedZeros(56);
        ZerosSplit(64 - k, 56);
      } else {
        FeedZeros(56);
      }
    }

    /** The inner `processBlock`: the schedule in an array of 80 words, and the rounds. */
    method ProcessBlock()
      requires digest.Length == 5 && block.Length == 64
      modifies digest
      ensures Current() == Compress(old(Current()), block[..])
    {
      hide NextWord, NextWordOfCode, WordAt, WordOf, Plus, Rounds, Schedule, Compress, Added;
      var w := new Word[80];
      ScheduleNone(block[..]);
      ghost var bytes, start := block[..], Current();
      var i := 0;
      while i < 16
        invariant i <= 16 && block[..] == bytes && Current() == start
        invariant w[..i] == Schedule(bytes, i)
      {
        w[i] := WordOf(block[i * 4 + 0], block[i * 4 + 1], block[i * 4 + 2], block[i * 4 + 3]);
        WordIs(bytes, i);
        ScheduleMore(bytes, i);
        assert w[..i + 1] == w[..i] + [w[i]];
        i := i + 1;
      }
      while i < 80
        invariant 16 <= i <= 80 && block[..] == bytes && Current() == start
        invariant w[..i] == Schedule(bytes, i)
      {
        ghost var s := Schedule(bytes, i);
        w[i] := NextWordOfCode(w[i - 3], w[i - 8], w[i - 14], w[i - 16]);
        assert w[..i][i - 3] == s[i - 3] && w[..i][i - 8] == s[i - 8];
        assert w[..i][i - 14] == s[i - 14] && w[..i][i - 16] == s[i - 16];
        NextWordAgrees(s[i - 3], s[i - 8], s[i - 14], s[i - 16]);
        ScheduleMore(bytes, i);
        assert w[..i + 1] == w[..i] + [w[i]];
        i := i + 1;
      }
      assert w[..] == w[..80];
      RunRounds(w[..]);
      CompressIs(start, bytes);
    }

    method RunRounds(w: seq<Word>)
      requires digest.Length == 5 && |w| == 80
      modifies digest
      ensures
        var h := old(Current());
        Current() == Added(h, Rounds(w, 80, h))
    {
      hide Round, RoundOfCode, Plus;
      ghost var start := Current();
      var a, b, c, d, e := digest[0], digest[1], digest[2], digest[3], digest[4];
      for i := 0 to 80
        invariant Current() == start && Hash(a, b, c, d, e) == Rounds(w, i, start)
      {
        RoundAgrees(i, w[i], Hash(a, b, c, d, e));
        var h := RoundOfCode(i, w[i], a, b, c, d, e);
        a, b, c, d, e := h.a, h.b, h.c, h.d, h.e;
      }
      digest[0] := Plus(digest[0], a);
      digest[1] := Plus(digest[1], b);
      digest[2] := Plus(digest[2], c);
      digest[3] := Plus(digest[3], d);
      digest[4] := Plus(digest[4], e);
    }
  }

  function WordOf(b0: Byte, b1: Byte, b2: Byte, b3: Byte): Word {
    (b0 as Word << 24) | (b1 as Word << 16) | (b2 as Word << 8) | (b3 as Word)
  }

  lemma ScheduleNone(block: Bytes)
    requires |block| == 64
    ensures Schedule(block, 0) == []
  {
  }

  lemma ScheduleMore(block: Bytes, t: nat)
    requires |block| == 64
    ensures
      var w := Schedule(block, t);
      Schedule(block, t + 1) ==
      w + [if t < 16 then WordAt(block, t) else NextWord(w[t - 3], w[t - 8], w[t - 14], w[t - 16])]
  {
  }

  lemma CompressIs(h: Hash, block: Bytes)
    requires |block| == 64
    ensures Compress(h, block) == Added(h, Rounds(Schedule(block, 80), 80, h))
  {
  }

  lemma NoZeros(m: Bytes)
    ensures m == m + Zeros(0)
  {
  }

  lemma OneZeroMore(m: Bytes, n: nat)
    ensures m + Zeros(n) + [0] == m + Zeros(n + 1)
  {
    assert m + Zeros(n) + [0] == m + (Zeros(n) + [0]);
  }

  lemma WordIs(block: Bytes, i: nat)
    requires 4 * i + 4 <= |block|
    ensures WordAt(block, i) == WordOf(block[4 * i], block[4 * i + 1], block[4 * i + 2], block[4 * i + 3])
  {
  }

  function NextWordOfCode(w3: Word, w8: Word, w14: Word, w16: Word): Word { LeftRotate1(w3 ^ w8 ^ w14 ^ w16) }

  lemma NextWordAgrees(w3: Word, w8: Word, w14: Word, w16: Word)
    ensures NextWordOfCode(w3, w8, w14, w16) == NextWord(w3, w8, w14, w16)
  {
    RotatesAgree(w3 ^ w8 ^ w14 ^ w16);
  }

  function FOfCode(i: nat, b: Word, c: Word, d: Word): Word {
    if i < 20 then (b & c) | (!b & d)
    else if i < 40 then b ^ c ^ d
    else if i < 60 then (b & c) | (b & d) | (c & d)
    else b ^ c ^ d
  }

  function KOfCode(i: nat): Word {
    if i < 20 then 0x5A827999 else if i < 40 then 0x6ED9EBA1 else if i < 60 then 0x8F1BBCDC else 0xCA62C1D6
  }

  lemma FAgrees(t: nat, x: Word, y: Word, z: Word)
    ensures FOfCode(t, x, y, z) == F(t, x, y, z)
  {
    if t < 20 {
      ChoiceAgrees(x, y, z);
    } else if t < 40 {
    } else if t < 60 {
      MajorityAgrees(x, y, z);
    }
  }

  lemma KAgrees(t: nat)
    ensures KOfCode(t) == K(t)
  {
  }

  /** The body of the loop over the rounds, as the code writes it. */
  function RoundOfCode(i: nat, w: Word, a: Word, b: Word, c: Word, d: Word, e: Word): Hash {
    var temp := Plus(Plus(Plus(Plus(LeftRotate5(a), FOfCode(i, b, c, d)), e), KOfCode(i)), w);
    Hash(temp, a, LeftRotate30(b), c, d)
  }

  /** The code's round is the round of the standard. */
  lemma {:induction false} RoundAgrees(t: nat, w: Word, h: Hash)
    ensures RoundOfCode(t, w, h.a, h.b, h.c, h.d, h.e) == Round(t, w, h)
  {
    hide LeftRotate5, LeftRotate30, Rotl, F, FOfCode, K, KOfCode, Plus;
    RotatesAgree(h.a);
    RotatesAgree(h.b);
    FAgrees(t, h.b, h.c, h.d);
    KAgrees(t);
  }

  lemma NextBlock(m: Bytes)
    requires |m| >= 64 && |m| % 64 == 0
    ensures HashOf(m) == Compress(HashOf(m[..|m| - 64]), m[|m| - 64..])
  {
  }

  // ---------------------------------------------------------------- padding

  /** What `getDigest` feeds: the length takes its low 32 bits only. */
  function CodePadded(m: Bytes): (p: Bytes)
    ensures |p| % 64 == 0
  {
    PadFits(|m|);
    m + [0x80] + Zeros((119 - |m| % 64) % 64) + (Zeros(4) + BigEndian(8 * |m| % 0x1_0000_0000, 4))
  }

  lemma {:induction false} LastBytes(m: Bytes, fed: Bytes)
    requires
      var bits := 8 * |m|;
      fed == m + [0x80] + Zeros((119 - |m| % 64) % 64) + [0, 0, 0, 0] +
             [bits / 0x100_0000 % 256, bits / 0x1_0000 % 256, bits / 0x100 % 256, bits % 256]
    ensures fed == CodePadded(m)
  {
    LowLength(8 * |m|);
    hide BigEndian, Zeros;
    var bits, body := 8 * |m|, m + [0x80] + Zeros((119 - |m| % 64) % 64);
    var low := [bits / 0x100_0000 % 256, bits / 0x1_0000 % 256, bits / 0x100 % 256, bits % 256];
    assert body + [0, 0, 0, 0] + low == body + ([0, 0, 0, 0] + low);
  }

  lemma PadLength(m: Bytes)
    ensures
      var k := (|m| + 1) % 64;
      (119 - |m| % 64) % 64 == if k > 56 then (64 - k) + 56 else 56 - k
  {
    var n := |m| % 64;
    NextMod(|m|);
    if n < 56 { SmallMod(119 - n - 64); }
  }

  lemma NextMod(n: nat)
    ensures (n + 1) % 64 == if n % 64 == 63 then 0 else n % 64 + 1
  {
  }

  lemma SmallMod(n: nat)
    requires n < 64
    ensures n % 64 == n && (n + 64) % 64 == n
  {
  }

  lemma {:induction false} LowLength(bits: nat)
    ensures Zeros(4) == [0, 0, 0, 0]
    ensures BigEndian(bits % 0x1_0000_0000, 4) ==
            [bits / 0x100_0000 % 256, bits / 0x1_0000 % 256, bits / 0x100 % 256, bits % 256]
  {
    hide BigEndian;
    FourBytes(bits % 0x1_0000_0000);
    LowParts(bits);
    assert Zeros(1) == [0] && Zeros(2) == [0, 0] && Zeros(3) == [0, 0, 0];
  }

  lemma LowParts(bits: nat)
    ensures var n := bits % 0x1_0000_0000;
      && n / 0x100_0000 == bits / 0x100_0000 % 256
      && n / 0x1_0000 % 256 == bits / 0x1_0000 % 256
      && n / 0x100 % 256 == bits / 0x100 % 256
      && n % 256 == bits % 256
  {
    var q, n := bits / 0x1_0000_0000, bits % 0x1_0000_0000;
    Shifted(q * 0x100_0000, n);
    Shifted(q * 0x1_0000, n / 256);
    Shifted(q * 0x100, n / 256 / 256);
    Shifted(q, n / 256 / 256 / 256);
    Shifts(bits);
    Shifts(n);
  }

  lemma Shifted(x: nat, k: nat)
    ensures (x * 256 + k) / 256 == x + k / 256 && (x * 256 + k) % 256 == k % 256
  {
  }

  lemma Shifts(n: nat)
    ensures n / 0x100 == n / 256 && n / 0x1_0000 == n / 256 / 256 && n / 0x100_0000 == n / 256 / 256 / 256
    ensures n < 0x1_0000_0000 ==> n / 0x100_0000 < 256
  {
  }

  lemma FourBytes(n: nat)
    requires n < 0x1_0000_0000
    ensures BigEndian(n, 4) == [n / 0x100_0000, n / 0x1_0000 % 256, n / 0x100 % 256, n % 256]
  {
    assert BigEndian(n / 0x100_0000, 1) == [] + [n / 0x100_0000];
    assert BigEndian(n / 0x1_0000, 2) == BigEndian(n / 0x100_0000, 1) + [n / 0x1_0000 % 256];
    assert BigEndian(n / 0x100, 3) == BigEndian(n / 0x1_0000, 2) + [n / 0x100 % 256];
  }

  /** The code pads as the standard does exactly for messages under 2^29 bytes. */
  lemma {:induction false} PaddingAgrees(m: Bytes)
    requires |m| < 0x2000_0000_0000_0000
    ensures CodePadded(m) == Padded(m) <==> |m| < 0x2000_0000
  {
    hide BigEndian, Zeros;
    var bits := 8 * |m|;
    Pow256s();
    if |m| < 0x2000_0000 {
      BigEndianZeros(bits, 4, 4);
    } else {
      HighBytes(bits);
      SameTail(m + [0x80] + Zeros((119 - |m| % 64) % 64), BigEndian(bits, 8), Zeros(4) + BigEndian(bits % 0x1_0000_0000, 4));
    }
  }

  /** A run of zeros from 2^29 bytes on is padded differently. */
  lemma {:induction false} LongZeros(n: nat)
    requires n < 0x2000_0000_0000_0000
    ensures CodePadded(Zeros(n)) != Padded(Zeros(n)) <==> 0x2000_0000 <= n
  {
    hide Zeros;
    PaddingAgrees(Zeros(n));
  }

  lemma SameTail(a: Bytes, b: Bytes, c: Bytes)
    requires b != c
    ensures a + b != a + c
  {
    assert (a + b)[|a|..] == b && (a + c)[|a|..] == c;
  }

  lemma HighBytes(n: nat)
    requires 0x1_0000_0000 <= n < 0x1_0000_0000_0000_0000
    ensures BigEndian(n, 8) != Zeros(4) + BigEndian(n % 0x1_0000_0000, 4)
  {
    Pow256s();
    BigEndianRoundTrip(n, 8);
    BigEndianZeros(n % 0x1_0000_0000, 4, 4);
    BigEndianRoundTrip(n % 0x1_0000_0000, 8);
  }
}
