/** WebSocket frames on the wire (section 5.2 of RFC 6455): writing a header, reading a frame, and
    that the second undoes the first. */
module WebSocketFrames {

  import opened B = Bytes

  /** The masking key of a frame, if it is masked. */
  datatype Key = Unmasked | Masked(key: Bytes)

  /** How the length is written: in the second byte, in two more bytes or in eight more. */
  datatype Form = Short | Len16 | Len64

  datatype Frame = Frame(fin: bool, opcode: nat, key: Key, payload: Bytes)

  predicate Valid(f: Frame, form: Form) {
    && f.opcode < 16
    && (f.key.Masked? ==> |f.key.key| == 4)
    && (form.Short? ==> |f.payload| < 126)
    && (form.Len16? ==> |f.payload| < 0x1_0000)
    && |f.payload| < 0x1_0000_0000_0000_0000
  }

  // ---------------------------------------------------------------- masking

  function Pow2(n: nat): (p: nat)
    ensures p > 0
  {
    if n == 0 then 1 else 2 * Pow2(n - 1)
  }

  /** The exclusive or of the lowest `bits` bits. */
  function Xor(a: nat, b: nat, bits: nat): (x: nat)
    ensures x < Pow2(bits)
  {
    if bits == 0 then 0 else (a + b) % 2 + 2 * Xor(a / 2, b / 2, bits - 1)
  }

  lemma {:induction false} XorTwice(a: nat, k: nat, bits: nat)
    requires a < Pow2(bits)
    ensures Xor(Xor(a, k, bits), k, bits) == a
  {
    if bits > 0 {
      var x := Xor(a / 2, k / 2, bits - 1);
      Parity(a, k, x);
      XorTwice(a / 2, k / 2, bits - 1);
    }
  }

  lemma Parity(a: nat, k: nat, x: nat)
    ensures var y := (a + k) % 2 + 2 * x; y / 2 == x && (y + k) % 2 == a % 2
  {
    var p, q := (a + k) % 2, (a + k) / 2;
    assert p + 2 * x + k == a + 2 * (k - q + x);
  }

  lemma EightBits()
    ensures Pow2(8) == 256
  {
    assert Pow2(4) == 16;
  }

  /** Byte `i` is combined with byte `i % 4` of the key, counted from the start of the frame. */
  function Mask(payload: Bytes, key: Bytes): (r: Bytes)
    requires |key| == 4
    ensures |r| == |payload|
  {
    EightBits();
    seq(|payload|, i requires 0 <= i < |payload| => Xor(payload[i], key[i % 4], 8))
  }

  /** Masking twice is not masking. */
  lemma MaskTwice(payload: Bytes, key: Bytes)
    requires |key| == 4
    ensures Mask(Mask(payload, key), key) == payload
  {
    EightBits();
    forall i | 0 <= i < |payload|
      ensures Mask(Mask(payload, key), key)[i] == payload[i]
    {
      XorTwice(payload[i], key[i % 4], 8);
    }
  }

  // ---------------------------------------------------------------- writing

  function FirstByte(fin: bool, opcode: nat): Byte
    requires opcode < 16
  {
    (if fin then 128 else 0) + opcode
  }

  function SecondByte(masked: bool, length: nat): Byte
    requires length < 128
  {
    (if masked then 128 else 0) + length
  }

  function LengthCode(n: nat, form: Form): (c: nat)
    requires form.Short? ==> n < 126
    ensures c < 128
  {
    match form
    case Short => n
    case Len16 => 126
    case Len64 => 127
  }

  function LengthBytes(n: nat, form: Form): Bytes {
    match form
    case Short => []
    case Len16 => BigEndian(n, 2)
    case Len64 => BigEndian(n, 8)
  }

  /** The two bytes, and the length behind them. */
  function Header(fin: bool, opcode: nat, masked: bool, n: nat, form: Form): Bytes
    requires opcode < 16 && (form.Short? ==> n < 126)
  {
    [FirstByte(fin, opcode), SecondByte(masked, LengthCode(n, form))] + LengthBytes(n, form)
  }

  /** A frame as a client may send it, in any of the length forms that can hold its length. */
  function Encode(f: Frame, form: Form): Bytes
    requires Valid(f, form)
  {
    Header(f.fin, f.opcode, f.key.Masked?, |f.payload|, form) +
    (match f.key case Unmasked => f.payload case Masked(key) => key + Mask(f.payload, key))
  }

  /** The form `build_header` picks. */
  function FormOf(n: nat): Form { if n < 126 then Short else if n < 0x1_0000 then Len16 else Len64 }

  /** `build_header`: bytes 0x80 and 0x00, the opcode added to the first and the length code to the
      second, and behind them the length in network order. */
  method BuildHeader(opcode: nat, size: nat) returns (header: Bytes)
    requires opcode < 16 && size < 0x1_0000_0000_0000_0000
    ensures header == Header(true, opcode, false, size, FormOf(size))
  {
    hide BigEndian;
    var first: nat, second: nat := 0x80, 0x00;
    first := first + opcode;
    if size < 126 {
      second := second + size;
      header := [first, second];
    } else if size < 0x1_0000 {
      second := second + 126;
      header := [first, second] + BigEndian(size, 2);
    } else {
      second := second + 127;
      header := [first, second] + SwappedHalves(size);
      HalvesAreBigEndian(size);
    }
  }

  /** The two 32-bit halves, each in network order, the high half first. */
  function SwappedHalves(n: nat): Bytes
    requires n < 0x1_0000_0000_0000_0000
  {
    BigEndian(n / 0x1_0000_0000, 4) + BigEndian(n % 0x1_0000_0000, 4)
  }

  lemma HalvesAreBigEndian(n: nat)
    requires n < 0x1_0000_0000_0000_0000
    ensures SwappedHalves(n) == BigEndian(n, 8)
  {
    assert Pow256(4) == 0x1_0000_0000;
    BigEndianParts(n / 0x1_0000_0000, n % 0x1_0000_0000, 4, 4);
  }

  /** The low bytes and the bytes before them. */
  lemma {:induction false} BigEndianParts(hi: nat, lo: nat, high: nat, low: nat)
    requires lo < Pow256(low)
    ensures BigEndian(hi * Pow256(low) + lo, high + low) == BigEndian(hi, high) + BigEndian(lo, low)
  {
    if low > 0 {
      var m := hi * Pow256(low - 1);
      Regroup(hi, Pow256(low - 1), lo);
      hide BigEndian;
      BigEndianStep(m * 256 + lo, high + low);
      BigEndianStep(lo, low);
      BigEndianParts(hi, lo / 256, high, low - 1);
    }
  }

  lemma BigEndianStep(n: nat, width: nat)
    requires width > 0
    ensures BigEndian(n, width) == BigEndian(n / 256, width - 1) + [n % 256]
  {
  }

  lemma Regroup(hi: nat, p: nat, lo: nat)
    ensures hi * (p * 256) == hi * p * 256
    ensures (hi * p * 256 + lo) / 256 == hi * p + lo / 256 && (hi * p * 256 + lo) % 256 == lo % 256
  {
    var m := hi * p;
    assert hi * (p * 256) == m * 256;
    Parts256(m, lo);
  }

  lemma Parts256(m: nat, lo: nat)
    ensures (m * 256 + lo) / 256 == m + lo / 256 && (m * 256 + lo) % 256 == lo % 256
  {
  }

  // ---------------------------------------------------------------- reading

  datatype Read = Incomplete | TooBig | Complete(frame: Frame, size: nat)

  /** The frame at the start of a stream. A length over the limit is refused before the key is read. */
  function ReadFrame(s: Bytes, max: nat): (r: Read)
    ensures r.Complete? ==> 2 <= r.size <= |s|
  {
    if |s| < 2 then Incomplete
    else
      var code := s[1] % 128;
      var masked := s[1] >= 128;
      var ext := if code == 127 then 8 else if code == 126 then 2 else 0;
      if |s| < 2 + ext then Incomplete
      else
        var length := if ext == 0 then code else FromBigEndian(s[2..2 + ext]);
        var at := 2 + ext;
        if length > max then TooBig
        else if masked then
          if |s| < at + 4 + length then Incomplete
          else
            var key := s[at..at + 4];
            Complete(Frame(s[0] >= 128, s[0] % 16, Masked(key), Mask(s[at + 4..at + 4 + length], key)),
                     at + 4 + length)
        else if |s| < at + length then Incomplete
        else Complete(Frame(s[0] >= 128, s[0] % 16, Unmasked, s[at..at + length]), at + length)
  }

  /** Reading what was written gives the frame back and leaves the rest of the stream. */
  lemma {:induction false} FrameRoundTrip(f: Frame, form: Form, rest: Bytes, max: nat)
    requires Valid(f, form)
    ensures ReadFrame(Encode(f, form) + rest, max) ==
            if |f.payload| <= max then Complete(f, |Encode(f, form)|) else TooBig
  {
    hide FirstByte, SecondByte, BigEndian, FromBigEndian;
    var s := Encode(f, form) + rest;
    var n := |f.payload|;
    HeaderBytes(f.fin, f.opcode, f.key.Masked?, LengthCode(n, form));
    assert s[0] == FirstByte(f.fin, f.opcode) && s[1] == SecondByte(f.key.Masked?, LengthCode(n, form));
    LengthBack(f, form, rest);
    BodyBack(f, form, rest);
    if f.key.Masked? { MaskTwice(f.payload, f.key.key); }
  }

  lemma {:induction false} LengthBack(f: Frame, form: Form, rest: Bytes)
    requires Valid(f, form)
    ensures
      var s, n := Encode(f, form) + rest, |f.payload|;
      var ext := |LengthBytes(n, form)|;
      |s| >= 2 + ext && (form.Short? || FromBigEndian(s[2..2 + ext]) == n)
  {
    var s, n := Encode(f, form) + rest, |f.payload|;
    var ext := |LengthBytes(n, form)|;
    assert s[2..2 + ext] == LengthBytes(n, form);
    Pow256s();
    BigEndianRoundTrip(n, if form.Short? then 8 else ext);
  }

  lemma {:induction false} BodyBack(f: Frame, form: Form, rest: Bytes)
    requires Valid(f, form)
    ensures
      var s, n := Encode(f, form) + rest, |f.payload|;
      var at := 2 + |LengthBytes(n, form)|;
      match f.key
      case Unmasked => |s| >= at + n == |Encode(f, form)| && s[at..at + n] == f.payload
      case Masked(key) =>
        |s| >= at + 4 + n == |Encode(f, form)| && s[at..at + 4] == key && s[at + 4..at + 4 + n] == Mask(f.payload, key)
  {
    var n := |f.payload|;
    var head := Header(f.fin, f.opcode, f.key.Masked?, n, form);
    assert |head| == 2 + |LengthBytes(n, form)|;
    hide Header, FirstByte, SecondByte, BigEndian, Mask, LengthBytes;
    match f.key {
      case Unmasked => Pieces(head, f.payload, rest);
      case Masked(key) => FourPieces(head, key, Mask(f.payload, key), rest);
    }
  }

  lemma {:induction false} FourPieces(a: Bytes, b: Bytes, c: Bytes, d: Bytes)
    ensures
      var s := a + (b + c) + d;
      && |s| == |a| + |b| + |c| + |d|
      && s[|a|..|a| + |b|] == b && s[|a| + |b|..|a| + |b| + |c|] == c
  {
    assert a + (b + c) + d == a + b + (c + d) == a + b + c + d;
    Pieces(a, b, c + d);
    Pieces(a + b, c, d);
  }

  lemma {:induction false} HeaderBytes(fin: bool, opcode: nat, masked: bool, code: nat)
    requires opcode < 16 && code < 128
    ensures (FirstByte(fin, opcode) >= 128 <==> fin) && FirstByte(fin, opcode) % 16 == opcode
    ensures (SecondByte(masked, code) >= 128 <==> masked) && SecondByte(masked, code) % 128 == code
  {
  }

  /** A frame made from `build_header` and a payload is read back with the same opcode and payload,
      in all three length encodings. */
  lemma HeaderRoundTrip(opcode: nat, payload: Bytes, rest: Bytes)
    requires opcode < 16 && |payload| < 0x1_0000_0000_0000_0000
    ensures
      var f := Frame(true, opcode, Unmasked, payload);
      var wire := Encode(f, FormOf(|payload|));
      ReadFrame(wire + rest, 0xFFFF_FFFF_FFFF_FFFF) == Complete(f, |wire|)
  {
    FrameRoundTrip(Frame(true, opcode, Unmasked, payload), FormOf(|payload|), rest, 0xFFFF_FFFF_FFFF_FFFF);
  }
}
