/** The reading side of a WebSocket connection: a state machine over partial reads. */
module WebSocketReader {
  import opened B = Bytes
  import opened WebSocketFrames

  datatype Message = Message(payload: Bytes, binary: bool)

  /** What the connection sends by itself. */
  datatype Reply = Pong(payload: Bytes) | Close(status: nat, reason: Bytes)

  /** What can be seen of a connection between two frames. */
  datatype Session = Session(
    message: Bytes,
    binary: bool,
    delivered: seq<Message>,
    replies: seq<Reply>,
    pong: bool,
    sentClose: bool,
    closed: bool)

  /** The status used when a close frame carries none. */
  const NO_STATUS := 1005

  function StatusOf(payload: Bytes): nat {
    if |payload| >= 2 then FromBigEndian(payload[..2]) else NO_STATUS
  }

  function ReasonOf(payload: Bytes): Bytes {
    if |payload| >= 2 then payload[2..] else payload
  }

  /** Data of a message; the last fragment delivers it. */
  function Collected(s: Session, fin: bool, payload: Bytes): Session {
    var whole := s.message + payload;
    if fin then s.(delivered := s.delivered + [Message(whole, s.binary)], message := []) else s.(message := whole)
  }

  /** What one frame does. */
  function Handled(s: Session, f: Frame): Session {
    match f.opcode
    case 0 => Collected(s, f.fin, f.payload)
    case 1 => Collected(s.(binary := false), f.fin, f.payload)
    case 2 => Collected(s.(binary := true), f.fin, f.payload)
    case 8 =>
      var t := s.(closed := true, sentClose := true);
      if s.sentClose then t
      else t.(replies := t.replies + [Close(StatusOf(f.payload), ReasonOf(f.payload))])
    case 9 => s.(replies := s.replies + [Pong(f.payload)])
    case 10 => s.(pong := true)
    case _ => s
  }

  /** What a whole stream does, frame by frame, up to the first frame that is not there in full. */
  function Absorbed(s: Session, stream: Bytes, max: nat): Session
    decreases |stream|
  {
    if s.closed then s
    else
      match ReadFrame(stream, max)
      case Incomplete => s
      case TooBig => s.(closed := true)
      case Complete(f, n) => Absorbed(Handled(s, f), stream[n..], max)
  }

  /** What of the stream is not handled yet: the part of a frame at its end. */
  function Left(s: Session, stream: Bytes, max: nat): Bytes
    decreases |stream|
  {
    if s.closed then []
    else
      match ReadFrame(stream, max)
      case Incomplete => stream
      case TooBig => []
      case Complete(f, n) => Left(Handled(s, f), stream[n..], max)
  }

  /** The effect of `a` and then `b` of a stream, and what is left then. */
  predicate SameAfter(s: Session, a: Bytes, t: Session, b: Bytes, max: nat) {
    Absorbed(s, a, max) == Absorbed(t, b, max) && Left(s, a, max) == Left(t, b, max)
  }

  datatype ReadState = MiniHeader | ReadLen16 | ReadLen64 | ReadMask | Payload

  const BUFFER_SIZE := 4096

  class Connection {
    var state: ReadState
    var miniHeader: nat
    var hasMask: bool
    var mask: Bytes
    var remaining: nat
    var fragment: Bytes
    const maxPayload: nat

    var message: Bytes
    var binary: bool
    var pong: bool
    var sentClose: bool
    var closed: bool
    /** What the message handler was called with, and what was queued for sending. */
    var delivered: seq<Message>
    var replies: seq<Reply>
    /** The bytes of the current frame that have been read. */
    ghost var seen: Bytes

    ghost function Visible(): Session
      reads this
    {
      Session(message, binary, delivered, replies, pong, sentClose, closed)
    }

    /** The first two bytes of a frame as one number, and what is left of the frame to read. */
    ghost predicate Valid()
      reads this
    {
      && |mask| == 4
      && (closed ||
          match state
          case MiniHeader => seen == [] && fragment == []
          case ReadLen16 => HeaderSeen() && |seen| == 2 && seen[1] % 128 == 126 && fragment == []
          case ReadLen64 => HeaderSeen() && |seen| == 2 && seen[1] % 128 == 127 && fragment == []
          case ReadMask => HeaderSeen() && |seen| == HeaderSize(seen[1]) && remaining == LengthIn(seen) && fragment == []
          case Payload =>
            && HeaderSeen() && |seen| == BodyAt(seen[1]) + |fragment|
            && remaining + |fragment| == LengthIn(seen) <= maxPayload
            && seen[BodyAt(seen[1])..] == fragment
            && (hasMask ==> seen[HeaderSize(seen[1])..BodyAt(seen[1])] == mask))
    }

    ghost predicate HeaderSeen()
      reads this
    {
      |seen| >= 2 && miniHeader == Word(seen[0], seen[1]) && hasMask == (seen[1] >= 128)
    }

    constructor (max: nat, initial: bool)
      ensures Valid() && maxPayload == max && seen == []
      ensures Visible() == Session([], initial, [], [], false, false, false)
    {
      state, miniHeader, hasMask, mask, remaining, fragment := MiniHeader, 0, false, [0, 0, 0, 0], 0, [];
      maxPayload := max;
      message, binary, pong, sentClose, closed := [], initial, false, false, false;
      delivered, replies, seen := [], [], [];
    }

    predicate IsFin()
      reads this
    {
      miniHeader / 0x8000 % 2 == 1
    }

    function Opcode(): nat
      reads this
    {
      miniHeader / 256 % 16
    }

    /** The handler of the two header bytes. */
    method OnMiniHeader(b0: Byte, b1: Byte)
      requires Valid() && !closed && state.MiniHeader?
      modifies this
      ensures Valid() && Visible() == old(Visible()) && !state.MiniHeader? && seen == [b0, b1]
    {
      miniHeader := Word(b0, b1);
      seen := [b0, b1];
      hasMask := miniHeader / 128 % 2 == 1;
      SevenBits(b0, b1);
      if miniHeader % 128 == 127 {
        state := ReadLen64;
      } else if miniHeader % 128 == 126 {
        state := ReadLen16;
      } else {
        remaining := miniHeader % 128;
        state := ReadMask;
      }
    }

    method OnLength(bytes: Bytes)
      requires Valid() && !closed && (state.ReadLen16? || state.ReadLen64?)
      requires |bytes| == if state.ReadLen16? then 2 else 8
      modifies this
      ensures Valid() && Visible() == old(Visible()) && state.ReadMask? && seen == old(seen) + bytes
    {
      remaining := FromBigEndian(bytes);
      seen := seen + bytes;
      assert seen[2..HeaderSize(seen[1])] == bytes;
      state := ReadMask;
    }

    /** The length check that stands before the key is read. */
    method CheckLength() returns (ok: bool)
      requires Valid() && !closed && state.ReadMask?
      modifies this
      ensures Valid() && seen == old(seen)
      ensures ok <==> LengthIn(seen) <= maxPayload
      ensures Visible() == old(Visible()).(closed := !ok)
      ensures ok ==> state == if hasMask then ReadMask else Payload
      ensures ok ==> hasMask == old(hasMask) && HeaderSeen() && |seen| == HeaderSize(seen[1])
    {
      if remaining > maxPayload {
        closed := true;
        return false;
      }
      if !hasMask { state := Payload; }
      return true;
    }

    method OnMask(key: Bytes)
      requires Valid() && !closed && state.ReadMask? && hasMask && LengthIn(seen) <= maxPayload && |key| == 4
      modifies this
      ensures Valid() && Visible() == old(Visible()) && state.Payload? && seen == old(seen) + key
    {
      ghost var n := |seen|;
      mask := key;
      seen := seen + key;
      assert seen[n..n + 4] == key && seen[n + 4..] == [];
      SameLength(seen[..n], key);
      assert seen[..n] + key == seen;
      state := Payload;
    }

    /** The handler of some bytes of the payload; the last of them completes the frame. */
    method OnPayload(bytes: Bytes)
      requires Valid() && !closed && state.Payload? && |bytes| <= remaining
      requires remaining > 0 ==> bytes != []
      modifies this
      ensures Valid()
      ensures |bytes| < old(remaining) ==> Visible() == old(Visible()) && state.Payload? && seen == old(seen) + bytes
      ensures |bytes| == old(remaining) ==>
                && old(seen) != [] && |old(seen) + bytes| >= 2
                && Visible() == Handled(old(Visible()), FrameIn(old(seen) + bytes))
                && (!closed ==> state.MiniHeader?)
    {
      ghost var before, at := seen, BodyAt(seen[1]);
      fragment := fragment + bytes;
      seen := seen + bytes;
      assert seen[at..] == fragment;
      assert seen[HeaderSize(seen[1])..at] == before[HeaderSize(seen[1])..at];
      SameLength(before, bytes);
      remaining := remaining - |bytes|;
      if remaining == 0 {
        HandleFragment();
        state := MiniHeader;
      }
    }

    /** `handle_fragment` */
    method HandleFragment()
      requires Valid() && !closed && state.Payload? && remaining == 0
      modifies this
      ensures Visible() == Handled(old(Visible()), FrameIn(old(seen)))
      ensures |mask| == 4 && (!closed ==> fragment == [] && seen == [])
    {
      hide Handled, Mask, FromBigEndian;
      ghost var f := FrameIn(seen);
      OpcodeAndFin(seen[0], seen[1]);
      if hasMask {
        fragment := Unmask(fragment, mask);
      }
      assert fragment == f.payload && Opcode() == f.opcode && IsFin() == f.fin;
      Dispatch(f);
      fragment, seen := [], [];
    }

    /** The switch on the opcode. */
    method Dispatch(ghost f: Frame)
      requires fragment == f.payload && Opcode() == f.opcode && IsFin() == f.fin && !closed
      modifies this`delivered, this`message, this`binary, this`replies, this`sentClose, this`closed, this`pong
      ensures Visible() == Handled(old(Visible()), f)
    {
      hide FromBigEndian;
      var op := Opcode();
      if op == 0 {
        Collect();
      } else if op == 1 {
        binary := false;
        Collect();
      } else if op == 2 {
        binary := true;
        Collect();
      } else if op == 8 {
        var status := NO_STATUS;
        var start := 2;
        if |fragment| >= 2 { status := FromBigEndian(fragment[..2]); } else { start := 0; }
        assert fragment[start..] == ReasonOf(fragment);
        if !sentClose { replies := replies + [Close(status, fragment[start..])]; }
        sentClose, closed := true, true;
      } else if op == 9 {
        replies := replies + [Pong(fragment)];
      } else if op == 10 {
        pong := true;
      }
    }

    method Collect()
      modifies this`delivered, this`message
      ensures Visible() == Collected(old(Visible()), IsFin(), fragment)
    {
      message := message + fragment;
      if IsFin() {
        delivered := delivered + [Message(message, binary)];
        message := [];
      }
    }

    /** The frame being read starts at `at`, and has been read up to `pos`. */
    ghost predicate Reading(stream: Bytes, at: nat, pos: nat)
      reads this
    {
      && Valid() && at <= pos <= |stream|
      && (!closed ==> Starts(stream[at..], seen) && |seen| == pos - at)
    }

    /** One round of `do_read`: reads what the state asks for, or finds that it has not arrived. What has
        arrived is the end of `stream`, from `base` on. */
    method DoRead(arrived: Bytes, pos: nat, ghost stream: Bytes, ghost base: nat, ghost at: nat)
      returns (next: nat, waiting: bool, ghost from: nat)
      requires base <= |stream| && arrived == stream[base..]
      requires Reading(stream, at, base + pos) && !closed
      modifies this
      ensures !waiting ==> at <= from
      ensures waiting ==> next == pos && from == at && Visible() == old(Visible()) && seen == old(seen)
      ensures waiting ==> ReadFrame(stream[at..], maxPayload) == Incomplete
      ensures Reading(stream, from, base + next) && pos <= next
      ensures !waiting ==> SameAfter(old(Visible()), stream[at..], Visible(), stream[from..], maxPayload)
      ensures !waiting && !closed ==>
                at < from || (at == from && (pos < next || Rank(state) < old(Rank(state))))
    {
      hide Absorbed, Left, ReadFrame, Handled, FrameIn, LengthIn;
      next, waiting, from := pos, false, at;
      var count := if state.MiniHeader? || state.ReadLen16? then 2 else if state.ReadLen64? then 8 else 4;
      if !state.ReadMask? && !state.Payload? {
        if |arrived| - pos < count {
          ShortHeader(stream[at..], seen, maxPayload);
          return pos, true, at;
        }
        next := pos + count;
        MoreRead(stream, at, base + pos, base + next, seen);
        assert arrived[pos..next] == stream[base + pos..base + next];
        if state.MiniHeader? {
          OnMiniHeader(arrived[pos], arrived[pos + 1]);
          assert arrived[pos..next] == [arrived[pos], arrived[pos + 1]];
        } else {
          OnLength(arrived[pos..next]);
        }
      } else if state.ReadMask? {
        ghost var was := seen;
        var ok := CheckLength();
        if !ok {
          TooBigStream(stream[at..], was, maxPayload);
          TooBigAbsorbed(old(Visible()), stream[at..], maxPayload);
        } else if hasMask {
          if |arrived| - pos < 4 {
            ShortBody(stream[at..], seen, maxPayload);
            return pos, true, at;
          }
          next := pos + 4;
          MoreRead(stream, at, base + pos, base + next, seen);
          assert arrived[pos..next] == stream[base + pos..base + next];
          OnMask(arrived[pos..next]);
        }
      } else {
        next, waiting, from := ReadPayload(arrived, pos, stream, base, at);
      }
    }

    /** Any number of payload bytes that the buffer and the frame allow and that have arrived. */
    method ReadPayload(arrived: Bytes, pos: nat, ghost stream: Bytes, ghost base: nat, ghost at: nat)
      returns (next: nat, waiting: bool, ghost from: nat)
      requires base <= |stream| && arrived == stream[base..]
      requires Reading(stream, at, base + pos) && !closed && state.Payload?
      modifies this
      ensures !waiting ==> at <= from
      ensures waiting ==> next == pos && from == at && Visible() == old(Visible()) && seen == old(seen)
      ensures waiting ==> ReadFrame(stream[at..], maxPayload) == Incomplete
      ensures Reading(stream, from, base + next) && pos <= next
      ensures !waiting ==> SameAfter(old(Visible()), stream[at..], Visible(), stream[from..], maxPayload)
      ensures !waiting && !closed ==> at < from || (at == from && pos < next)
    {
      hide Absorbed, Left, ReadFrame, Handled, FrameIn, LengthIn;
      next, waiting, from := pos, false, at;
      var limit := if remaining < BUFFER_SIZE then remaining else BUFFER_SIZE;
      if limit > |arrived| - pos { limit := |arrived| - pos; }
      if remaining > 0 && limit == 0 {
        ShortBody(stream[at..], seen, maxPayload);
        return pos, true, at;
      }
      var k: nat :| k <= limit && (remaining > 0 ==> k > 0);
      next := pos + k;
      MoreRead(stream, at, base + pos, base + next, seen);
      ghost var piece := stream[base + pos..base + next];
      assert arrived[pos..next] == piece;
      ghost var frame := seen + piece;
      if k == remaining {
        SameLength(seen, piece);
        WholeFrame(stream[at..], frame, maxPayload);
        CompleteAbsorbed(Visible(), stream[at..], maxPayload);
        assert stream[at..][|frame|..] == stream[base + next..];
        from := base + next;
      }
      OnPayload(arrived[pos..next]);
    }

    /** `do_read` over the bytes that have arrived: headers are read in full, payloads in pieces of any
        size the socket and the 4096-byte buffer allow. It stops where something has not arrived, in the
        middle of a frame or not, and gives back the bytes it could not use yet. The handlers see what
        they would see if every frame arrived at once. */
    method Receive(arrived: Bytes) returns (rest: Bytes)
      requires Valid()
      modifies this
      ensures Valid()
      ensures Visible() == Absorbed(old(Visible()), old(seen) + arrived, maxPayload)
      ensures !closed ==> seen + rest == Left(old(Visible()), old(seen) + arrived, maxPayload)
    {
      hide ReadFrame, Handled, SameAfter;
      ghost var start := Visible();
      ghost var stream, base := seen + arrived, |seen|;
      var pos: nat := 0;
      ghost var at: nat := 0;
      assert stream[0..] == stream && stream[base..] == arrived && stream[..|seen|] == seen;
      rest := [];
      if closed { return; }
      SameNow(start, stream, maxPayload);
      while !closed
        invariant Reading(stream, at, base + pos)
        invariant SameAfter(start, stream, Visible(), stream[at..], maxPayload)
        decreases !closed, |stream| - at, |arrived| - pos, Rank(state)
      {
        ghost var was := Visible();
        ghost var was_at := at;
        var waiting;
        pos, waiting, at := DoRead(arrived, pos, stream, base, at);
        if waiting {
          rest := arrived[pos..];
          assert stream[at..] == seen + rest by { assert stream[at..][..|seen|] == seen; }
          SameThen(start, stream, Visible(), stream[at..], maxPayload);
          return;
        }
        SameOn(start, stream, was, stream[was_at..], Visible(), stream[at..], maxPayload);
      }
      SameThen(start, stream, Visible(), stream[at..], maxPayload);
    }

    /** A stream that arrives in any pieces has the effect of the whole stream. */
    method ReceivePieces(pieces: seq<Bytes>)
      requires Valid() && (closed || (state.MiniHeader? && seen == []))
      modifies this
      ensures Valid()
      ensures Visible() == Absorbed(old(Visible()), Concat(pieces), maxPayload)
    {
      hide ReadFrame, Handled, Absorbed, Left;
      ghost var start := Visible();
      NothingAbsorbed(start, maxPayload);
      var rest: Bytes := [];
      for i := 0 to |pieces|
        invariant Valid()
        invariant Visible() == Absorbed(start, Concat(pieces[..i]), maxPayload)
        invariant !closed ==> seen + rest == Left(start, Concat(pieces[..i]), maxPayload)
      {
        ghost var before, a := Visible(), Concat(pieces[..i]);
        assert pieces[..i + 1][..i] == pieces[..i] && pieces[..i + 1][i] == pieces[i];
        AbsorbMore(start, a, pieces[i], maxPayload);
        assert seen + (rest + pieces[i]) == seen + rest + pieces[i];
        if closed { ClosedAbsorbs(before, pieces[i], seen + (rest + pieces[i]), Left(start, a, maxPayload) + pieces[i], maxPayload); }
        rest := Receive(rest + pieces[i]);
      }
      assert pieces[..|pieces|] == pieces;
    }
  }

  function Concat(pieces: seq<Bytes>): Bytes {
    if pieces == [] then [] else Concat(pieces[..|pieces| - 1]) + pieces[|pieces| - 1]
  }

  lemma SameNow(s: Session, stream: Bytes, max: nat)
    ensures SameAfter(s, stream, s, stream[0..], max)
  {
    assert stream[0..] == stream;
  }

  lemma SameOn(s: Session, a: Bytes, t: Session, b: Bytes, u: Session, c: Bytes, max: nat)
    requires SameAfter(s, a, t, b, max) && SameAfter(t, b, u, c, max)
    ensures SameAfter(s, a, u, c, max)
  {
  }

  lemma SameThen(s: Session, a: Bytes, t: Session, b: Bytes, max: nat)
    requires SameAfter(s, a, t, b, max) && (t.closed || ReadFrame(b, max) == Incomplete)
    ensures t == Absorbed(s, a, max) && (!t.closed ==> b == Left(s, a, max))
  {
  }

  lemma ClosedAbsorbs(s: Session, piece: Bytes, a: Bytes, b: Bytes, max: nat)
    requires s.closed
    ensures Absorbed(s, a, max) == Absorbed(s, b, max) == s
  {
  }

  lemma NothingAbsorbed(s: Session, max: nat)
    ensures Absorbed(s, [], max) == s && Left(s, [], max) == []
  {
  }

  /** A frame that is there in full is read the same, whatever follows. */
  lemma {:induction false} ReadFrameMore(a: Bytes, b: Bytes, max: nat)
    requires !ReadFrame(a, max).Incomplete?
    ensures ReadFrame(a + b, max) == ReadFrame(a, max)
  {
    hide FromBigEndian, Mask;
    var code := a[1] % 128;
    var ext := if code == 127 then 8 else if code == 126 then 2 else 0;
    var at := 2 + ext;
    assert (a + b)[0] == a[0] && (a + b)[1] == a[1] && (a + b)[2..at] == a[2..at];
    var length := if ext == 0 then code else FromBigEndian(a[2..at]);
    if length <= max {
      if a[1] >= 128 {
        assert (a + b)[at..at + 4] == a[at..at + 4];
        assert (a + b)[at + 4..at + 4 + length] == a[at + 4..at + 4 + length];
      } else {
        assert (a + b)[at..at + length] == a[at..at + length];
      }
    }
  }

  /** Reading may be interrupted anywhere and resumed with what was left. */
  lemma {:induction false} AbsorbMore(s: Session, a: Bytes, b: Bytes, max: nat)
    ensures Absorbed(s, a + b, max) == Absorbed(Absorbed(s, a, max), Left(s, a, max) + b, max)
    ensures !Absorbed(s, a, max).closed ==>
              Left(s, a + b, max) == Left(Absorbed(s, a, max), Left(s, a, max) + b, max)
    ensures Absorbed(s, a, max).closed ==> Absorbed(s, a + b, max) == Absorbed(s, a, max)
    decreases |a|
  {
    hide ReadFrame, Handled;
    if !s.closed {
      var r := ReadFrame(a, max);
      if !r.Incomplete? { ReadFrameMore(a, b, max); }
      if r.Complete? {
        assert (a + b)[r.size..] == a[r.size..] + b;
        AbsorbMore(Handled(s, r.frame), a[r.size..], b, max);
      }
    }
  }

  /** Reading on in the frame. */
  lemma MoreRead(stream: Bytes, at: nat, pos: nat, next: nat, seen: Bytes)
    requires at <= pos <= next <= |stream| && Starts(stream[at..], seen) && |seen| == pos - at
    ensures Starts(stream[at..], seen + stream[pos..next])
    ensures Starts(stream[next..], [])
  {
    assert stream[at..][..next - at] == stream[at..pos] + stream[pos..next];
    assert stream[at..][..pos - at] == stream[at..pos];
  }

  lemma TooBigAbsorbed(s: Session, stream: Bytes, max: nat)
    requires !s.closed && ReadFrame(stream, max) == TooBig
    ensures SameAfter(s, stream, s.(closed := true), stream, max)
  {
  }

  lemma CompleteAbsorbed(s: Session, stream: Bytes, max: nat)
    requires !s.closed && ReadFrame(stream, max).Complete?
    ensures
      var r := ReadFrame(stream, max);
      SameAfter(s, stream, Handled(s, r.frame), stream[r.size..], max)
  {
  }

  function Rank(state: ReadState): nat {
    match state
    case MiniHeader => 4
    case ReadLen16 => 3
    case ReadLen64 => 3
    case ReadMask => 2
    case Payload => 1
  }

  // ---------------------------------------------------------------- the bytes of one frame

  /** Two bytes in network order. */
  function Word(b0: nat, b1: nat): nat { b0 * 256 + b1 }

  function HeaderSize(b1: Byte): nat {
    if b1 % 128 == 127 then 10 else if b1 % 128 == 126 then 4 else 2
  }

  function BodyAt(b1: Byte): nat { HeaderSize(b1) + if b1 >= 128 then 4 else 0 }

  function LengthIn(s: Bytes): nat
    requires |s| >= 2 && |s| >= HeaderSize(s[1])
  {
    if HeaderSize(s[1]) == 2 then s[1] % 128 else FromBigEndian(s[2..HeaderSize(s[1])])
  }

  /** The frame whose bytes are exactly `s`. */
  function FrameIn(s: Bytes): Frame
    requires |s| >= 2 && |s| >= BodyAt(s[1])
  {
    var body := s[BodyAt(s[1])..];
    if s[1] >= 128 then
      var key := s[HeaderSize(s[1])..BodyAt(s[1])];
      Frame(s[0] >= 128, s[0] % 16, Masked(key), Mask(body, key))
    else Frame(s[0] >= 128, s[0] % 16, Unmasked, body)
  }

  /** The unmasking loop of `handle_fragment`. */
  method Unmask(fragment: Bytes, key: Bytes) returns (r: Bytes)
    requires |key| == 4
    ensures r == Mask(fragment, key)
  {
    EightBits();
    r := fragment;
    for i := 0 to |fragment|
      invariant |r| == |fragment|
      invariant forall k :: 0 <= k < i ==> r[k] == Mask(fragment, key)[k]
      invariant forall k :: i <= k < |r| ==> r[k] == fragment[k]
    {
      r := r[i := Xor(r[i], key[i % 4], 8)];
    }
  }

  lemma SevenBits(b0: nat, b1: nat)
    requires b1 < 256
    ensures Word(b0, b1) % 128 == b1 % 128
    ensures Word(b0, b1) / 128 % 2 == 1 <==> b1 >= 128
  {
    assert b0 * 256 + b1 == 128 * (2 * b0 + b1 / 128) + b1 % 128;
  }

  lemma OpcodeAndFin(b0: nat, b1: nat)
    requires b0 < 256 && b1 < 256
    ensures Word(b0, b1) / 256 % 16 == b0 % 16
    ensures Word(b0, b1) / 0x8000 % 2 == 1 <==> b0 >= 128
  {
    assert (b0 * 256 + b1) / 256 == b0;
  }

  /** More bytes do not change the length that was announced. */
  lemma SameLength(s: Bytes, more: Bytes)
    requires |s| >= 2 && |s| >= HeaderSize(s[1])
    ensures (s + more)[0] == s[0] && (s + more)[1] == s[1] && LengthIn(s + more) == LengthIn(s)
  {
    assert (s + more)[2..HeaderSize(s[1])] == s[2..HeaderSize(s[1])];
  }

  predicate Starts(s: Bytes, w: Bytes) { |w| <= |s| && s[..|w|] == w }

  lemma SameStart(s: Bytes, w: Bytes)
    requires Starts(s, w) && |w| >= 2
    ensures s[0] == w[0] && s[1] == w[1]
    ensures |w| >= HeaderSize(w[1]) ==> LengthIn(s) == LengthIn(w)
  {
    assert w[0] == s[..|w|][0] && w[1] == s[..|w|][1];
    if |w| >= HeaderSize(w[1]) {
      assert s == w + s[|w|..];
      SameLength(w, s[|w|..]);
    }
  }

  lemma ShortHeader(s: Bytes, w: Bytes, max: nat)
    requires Starts(s, w) && (|s| < 2 || (|w| >= 2 && |s| < HeaderSize(w[1])))
    ensures ReadFrame(s, max) == Incomplete
  {
    if |w| >= 2 { SameStart(s, w); }
  }

  lemma TooBigStream(s: Bytes, w: Bytes, max: nat)
    requires Starts(s, w) && |w| >= 2 && |w| >= HeaderSize(w[1]) && LengthIn(w) > max
    ensures ReadFrame(s, max) == TooBig
  {
    SameStart(s, w);
  }

  lemma ShortBody(s: Bytes, w: Bytes, max: nat)
    requires Starts(s, w) && |w| >= 2 && |w| >= HeaderSize(w[1]) && LengthIn(w) <= max
    requires |s| < BodyAt(w[1]) + LengthIn(w)
    ensures ReadFrame(s, max) == Incomplete
  {
    SameStart(s, w);
  }

  lemma WholeFrame(s: Bytes, w: Bytes, max: nat)
    requires Starts(s, w) && |w| >= 2 && |w| >= BodyAt(w[1]) && LengthIn(w) <= max
    requires |w| == BodyAt(w[1]) + LengthIn(w)
    ensures ReadFrame(s, max) == Complete(FrameIn(w), |w|)
  {
    SameStart(s, w);
    var h, at := HeaderSize(w[1]), BodyAt(w[1]);
    assert s[at..|w|] == w[at..] by { assert s[..|w|][at..] == s[at..|w|]; }
    assert s[h..at] == w[h..at] by { assert s[..|w|][h..at] == s[h..at]; }
  }
}
