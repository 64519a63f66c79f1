/** Messages split into fragments, with control frames in between (section 5.4 of RFC 6455). */
module WebSocketMessages {
  import opened B = Bytes
  import opened WebSocketFrames
  import opened WebSocketReader

  /** A frame on its way, and the form its length is written in. */
  datatype Sent = Sent(frame: Frame, form: Form)

  function Wire(frames: seq<Sent>): Bytes
    requires forall s :: s in frames ==> Valid(s.frame, s.form)
    decreases |frames|
  {
    if frames == [] then []
    else (assert frames[0] in frames; Encode(frames[0].frame, frames[0].form)) + Wire(frames[1..])
  }

  /** Every frame is well formed and within the limit of the connection. */
  predicate Sendable(frames: seq<Sent>, max: nat) {
    forall s :: s in frames ==> Valid(s.frame, s.form) && |s.frame.payload| <= max
  }

  function HandledAll(s: Session, frames: seq<Sent>): Session
    decreases |frames|
  {
    if frames == [] then s else HandledAll(Handled(s, frames[0].frame), frames[1..])
  }

  /** Reading the wire is handling the frames one after the other. */
  lemma {:induction false} WireAbsorbed(s: Session, frames: seq<Sent>, max: nat)
    requires Sendable(frames, max) && !HandledAll(s, frames).closed
    ensures Absorbed(s, Wire(frames), max) == HandledAll(s, frames)
    decreases |frames|
  {
    if s.closed { StaysClosed(s, frames); }
    if frames != [] {
      assert frames[0] in frames && forall x :: x in frames[1..] ==> x in frames;
      var wire, rest := Encode(frames[0].frame, frames[0].form), Wire(frames[1..]);
      FrameRoundTrip(frames[0].frame, frames[0].form, rest, max);
      assert (wire + rest)[|wire|..] == rest;
      WireAbsorbed(Handled(s, frames[0].frame), frames[1..], max);
    } else {
      assert ReadFrame([], max) == Incomplete;
    }
  }

  lemma {:induction false} StaysClosed(s: Session, frames: seq<Sent>)
    requires s.closed
    ensures HandledAll(s, frames).closed
    decreases |frames|
  {
    if frames != [] { StaysClosed(Handled(s, frames[0].frame), frames[1..]); }
  }

  // ---------------------------------------------------------------- fragments

  predicate Control(f: Frame) { f.opcode == 9 || f.opcode == 10 }

  /** The frames carry exactly these messages: each message begins with a text or binary frame, goes
      on with continuations and ends with the first final frame; pings and pongs may stand anywhere.
      `begun` is what has come of a message that is not complete yet. */
  predicate Carry(frames: seq<Sent>, messages: seq<Message>, begun: Part)
    decreases |frames|, 0
  {
    if frames == [] then messages == [] && begun.Nothing?
    else
      var f := frames[0].frame;
      if Control(f) then Carry(frames[1..], messages, begun)
      else if begun.Nothing? && (f.opcode == 1 || f.opcode == 2) then
        Continues(frames[1..], f, Message(f.payload, f.opcode == 2), messages)
      else if begun.Part? && f.opcode == 0 then
        Continues(frames[1..], f, Message(begun.m.payload + f.payload, begun.m.binary), messages)
      else false
  }

  /** After a data frame: the message is complete, or goes on. */
  predicate Continues(rest: seq<Sent>, f: Frame, m: Message, messages: seq<Message>)
    decreases |rest|, 1
  {
    if f.fin then messages != [] && messages[0] == m && Carry(rest, messages[1..], Nothing)
    else Carry(rest, messages, Part(m))
  }

  datatype Part = Nothing | Part(m: Message)

  /** The connection stands where the part of a message says. */
  predicate Holds(s: Session, begun: Part) {
    match begun
    case Nothing => s.message == []
    case Part(m) => s.message == m.payload && s.binary == m.binary
  }

  /** The answers to the pings among some frames, in order. */
  function Pongs(frames: seq<Sent>): seq<Reply> {
    if frames == [] then []
    else (if frames[0].frame.opcode == 9 then [Reply.Pong(frames[0].frame.payload)] else []) + Pongs(frames[1..])
  }

  /** The message a data frame begins or goes on with. */
  function Grown(f: Frame, begun: Part): Message {
    match begun
    case Nothing => Message(f.payload, f.opcode == 2)
    case Part(m) => Message(m.payload + f.payload, m.binary)
  }

  lemma DataHandled(s: Session, f: Frame, begun: Part)
    requires Holds(s, begun) && (if begun.Nothing? then f.opcode == 1 || f.opcode == 2 else f.opcode == 0)
    ensures
      var m := Grown(f, begun);
      Handled(s, f) ==
        s.(binary := m.binary,
           delivered := if f.fin then s.delivered + [m] else s.delivered,
           message := if f.fin then [] else m.payload)
  {
    if begun.Nothing? { assert [] + f.payload == f.payload; }
  }

  /** The handler is called with exactly the messages, in order, with the right flag; every ping is
      answered with its payload. */
  lemma {:induction false} Reassembled(s: Session, frames: seq<Sent>, messages: seq<Message>, begun: Part)
    requires Carry(frames, messages, begun) && Holds(s, begun) && !s.closed
    ensures
      var t := HandledAll(s, frames);
      && t.delivered == s.delivered + messages
      && t.replies == s.replies + Pongs(frames)
      && t.message == [] && !t.closed
    decreases |frames|
  {
    if frames != [] {
      var f, t, rest := frames[0].frame, Handled(s, frames[0].frame), frames[1..];
      if Control(f) {
        Reassembled(t, rest, messages, begun);
        AddPong(s, t, f, rest);
      } else {
        var m := Grown(f, begun);
        DataHandled(s, f, begun);
        hide Handled, Control;
        if f.fin {
          assert messages == [m] + messages[1..];
          Reassembled(t, rest, messages[1..], Nothing);
          assert s.delivered + [m] + messages[1..] == s.delivered + ([m] + messages[1..]);
        } else {
          Reassembled(t, rest, messages, Part(m));
        }
        assert Pongs(frames) == [] + Pongs(rest) == Pongs(rest);
      }
    }
  }

  lemma AddPong(s: Session, t: Session, f: Frame, rest: seq<Sent>)
    requires Control(f) && t == Handled(s, f)
    ensures t.replies + Pongs(rest) ==
            s.replies + ((if f.opcode == 9 then [Reply.Pong(f.payload)] else []) + Pongs(rest))
  {
  }

  /** From end to end: any messages, fragmented and masked in any way, with pings and pongs in
      between, arriving cut anywhere and read in pieces of any size. */
  method ReadMessages(c: Connection, frames: seq<Sent>, pieces: seq<Bytes>, ghost messages: seq<Message>)
    requires c.Valid() && !c.closed && c.state.MiniHeader? && c.seen == [] && c.message == []
    requires Sendable(frames, c.maxPayload) && Concat(pieces) == Wire(frames) && Carry(frames, messages, Nothing)
    modifies c
    ensures c.delivered == old(c.delivered) + messages
    ensures c.replies == old(c.replies) + Pongs(frames)
    ensures c.Valid() && !c.closed
  {
    ghost var s := c.Visible();
    Reassembled(s, frames, messages, Nothing);
    WireAbsorbed(s, frames, c.maxPayload);
    c.ReceivePieces(pieces);
  }
}
