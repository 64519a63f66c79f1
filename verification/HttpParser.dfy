/** The buffer-level parser: `http_parser_execute` and the callbacks of `HTTPParser`. */
module HttpParser {
  import opened HttpTables
  import opened HttpControl
  import opened HttpReference
  import opened HttpInvariant
  import opened HttpScans
  import opened HttpSpans

  class HTTPParser {
    var parser: Control
    var req: Request

    function Snap(): Snapshot
      reads this
    {
      Snapshot(parser, req)
    }

    /** After `p` bytes this parser has failed exactly if the reference has, and otherwise
        agrees with it once the open span is delivered. */
    ghost predicate Agrees(s: Snapshot, data: string, p: nat, m: Marks)
      requires p <= |data|
      reads this
    {
      && (RunTo(s, data, p).c.errno.Ok? <==> parser.errno.Ok?)
      && (parser.errno.Ok? ==>
            MarksFit(m, parser.state, p) && RunTo(s, data, p) == Snapshot(parser, Pending(req, m, data, p)))
    }

    /** Byte `p` has been counted but not yet looked at. */
    ghost predicate Counted(s: Snapshot, data: string, p: nat, m: Marks)
      requires p <= |data|
      reads this
    {
      && parser.errno.Ok? && !req.complete && Sound(parser, 1) && MarksFit(m, parser.state, p)
      && Building(parser, Pending(req, m, data, p))
      && (parser.state.HeaderValue? ==> 2 <= parser.nread)
      && RunTo(s, data, p)
         == Snapshot(if ParsingHeader(parser.state) then parser.(nread := parser.nread - 1) else parser,
                     Pending(req, m, data, p))
    }

    /** `CROW_CALLBACK_DATA_`: one data callback for the span that ends before `end`. */
    method CallbackData(f: Piece, data: string, end: nat, m: Marks) returns (m': Marks)
      requires end <= |data| && Before(MarkOf(m, f), end)
      modifies this`req
      ensures req == Flush(old(req), f, MarkOf(m, f), data, end)
      ensures m' == SetMark(m, f, Unset)
    {
      if MarkOf(m, f).At? {
        req := Deliver(req, f, data[MarkOf(m, f).pos..end]);
      }
      m' := SetMark(m, f, Unset);
    }

    /** The callback a pass asks for at byte `p`. */
    method Perform(act: Act, data: string, p: nat, m: Marks) returns (m': Marks)
      requires p < |data|
      requires Before(m.url, p) && Before(m.name, p) && Before(m.value, p) && Before(m.body, p)
      modifies this`req
      ensures req == RequestAfter(old(req), parser, m, act, data, p)
      ensures m' == MarksAfter(m, act, p)
    {
      hide Deliver, OnHeadersComplete;
      m' := m;
      if act.Mark? || act.Last? || act.Empty? {
        if MarkOf(m, act.piece).Unset? { m' := SetMark(m, act.piece, At(p)); }
      }
      match act
      case OnMethod => req := req.(verb := parser.verb);
      case Last(f) => m' := CallbackData(f, data, p + 1, m');
      case Data(f) => m' := CallbackData(f, data, p, m');
      case Empty(f) => m' := CallbackData(f, data, p, m');
      case HeadersComplete => req := OnHeadersComplete(req, parser);
      case MessageComplete => req := req.(complete := true);
      case _ =>
    }

    /** A scan that reaches the end of the buffer steps back to its last byte. */
    method BufferEnds(ghost s: Snapshot, data: string, p: nat, m: Marks, f: Piece) returns (q: nat)
      requires p < |data| < 0x8000_0000 && parser.nread <= MAX_HEADER_SIZE
      requires if f.FieldName? then parser.state.HeaderField? else f.FieldValue? && parser.state.HeaderValue?
      requires MarksFit(m, parser.state, p)
      requires Scanned(s, data, p, |data|, parser.nread, parser, req, f, MarkOf(m, f).pos)
      modifies this
      ensures q == |data| - 1 && Agrees(s, data, |data|, m)
    {
      hide RunTo, Deliver;
      q := |data| - 1;
      parser := Count(parser, q - p);
      PendingOnly(req, m, f, data, |data|);
    }

    /** `s_header_field`: the loop over the bytes of a header name. Returns the last byte used. */
    method ScanName(ghost s: Snapshot, data: string, p: nat, m: Marks) returns (m': Marks, q: nat)
      requires p < |data| < 0x8000_0000
      requires parser.state.HeaderField? && Counted(s, data, p, m)
      modifies this
      ensures p <= q < |data| && Agrees(s, data, q + 1, m')
    {
      hide RunTo, Deliver, Passes, NameStep;
      ghost var mark := m.name.pos;
      ghost var n := parser.nread;
      ghost var r := req;
      PendingOnly(req, m, FieldName, data, p);
      q, m' := p, m;
      assert parser.(nread := n - 1 + (q - p)) == parser.(nread := parser.nread - 1);
      while q < |data| && IsToken(data[q])
        invariant p <= q <= |data|
        invariant req == r && parser.nread == n && parser.state.HeaderField? && NameState(parser.headerState)
        invariant Scanned(s, data, p, q, n, parser, r, FieldName, mark)
        decreases |data| - q
      {
        if parser.headerState.General? {
          var left := |data| - q;
          var pe := q + if left < MAX_HEADER_SIZE then left else MAX_HEADER_SIZE;
          ghost var c := parser;
          while q + 1 < pe && IsToken(data[q + 1])
            invariant p <= q < pe <= |data| && IsToken(data[q])
            invariant parser == c && req == r
            invariant Scanned(s, data, p, q, n, parser, r, FieldName, mark)
          {
            NameAdvances(s, data, p, q, n, parser, r, mark);
            GeneralName(parser, data[q]);
            q := q + 1;
          }
          NameAdvances(s, data, p, q, n, parser, r, mark);
          GeneralName(parser, data[q]);
        } else {
          NameAdvances(s, data, p, q, n, parser, r, mark);
          parser := WithScan(parser, NameStep(ScanOf(parser), TokenOf(data[q])));
        }
        q := q + 1;
      }
      if q == |data| {
        q := BufferEnds(s, data, p, m, FieldName);
        return;
      }
      m' := EndName(s, data, p, q, m);
    }

    /** The byte that ends a header name. */
    method EndName(ghost s: Snapshot, data: string, p: nat, q: nat, m: Marks) returns (m': Marks)
      requires p <= q < |data| < 0x8000_0000 && !IsToken(data[q])
      requires parser.state.HeaderField? && 1 <= parser.nread <= MAX_HEADER_SIZE && !req.complete
      requires MarksFit(m, parser.state, p)
      requires Scanned(s, data, p, q, parser.nread, parser, req, FieldName, m.name.pos)
      modifies this
      ensures Agrees(s, data, q + 1, m')
    {
      hide RunTo, Deliver, Passes;
      ghost var mark := m.name.pos;
      ghost var r := req;
      m' := m;
      ScanEnds(s, data, p, q, parser.nread, parser, r, FieldName, mark);
      parser := Count(parser, q - p);
      if !parser.errno.Ok? { return; }
      NameEnds(Snapshot(parser, Deliver(r, FieldName, data[mark..q])), data[q], Ahead(data, q + 1));
      if data[q] == ':' {
        parser := parser.(state := HeaderValueDiscardWs);
        m' := CallbackData(FieldName, data, q, m);
        DeliverAppend(r, FieldName, data[mark..q], []);
        assert data[mark..q] + [] == data[mark..q];
        PendingOnly(req, m', FieldName, data, q + 1);
      } else {
        parser := parser.(errno := InvalidHeaderToken);
      }
    }

    /** Byte `p` still has to go through the switch. */
    ghost predicate Again(s: Snapshot, data: string, p: nat, m: Marks)
      requires p < |data|
      reads this
    {
      && parser.errno.Ok? && !req.complete && Sound(parser, 1) && MarksFit(m, parser.state, p)
      && Building(parser, Pending(req, m, data, p))
      && RunTo(s, data, p + 1)
         == Passes(Snapshot(parser, Pending(req, m, data, p)), data[p], Ahead(data, p + 1))
    }

    /** The fast loop of `s_header_value` while nothing is being matched. Returns the last byte
        it is done with. */
    method SkipGeneral(ghost s: Snapshot, data: string, ghost p: nat, first: nat, ghost n: nat, c: Control,
                       ghost r: Request, ghost mark: nat) returns (q: nat, ok: bool)
      requires Scanned(s, data, p, first, n, c, r, FieldValue, mark) && first < |data|
      requires c.state.HeaderValue? && c.headerState.General? && !r.complete && 2 <= n
      requires data[first] != CR && data[first] != LF
      ensures first <= q < |data|
      ensures if ok then Scanned(s, data, p, q + 1, n, c, r, FieldValue, mark)
              else !RunTo(s, data, q + 1).c.errno.Ok?
    {
      hide RunTo, Deliver, Passes, ValueStep;
      var left := |data| - first;
      var pe := first + if left < MAX_HEADER_SIZE then left else MAX_HEADER_SIZE;
      q, ok := first, true;
      while q != pe && data[q] != CR && data[q] != LF
        invariant first <= q <= pe <= |data|
        invariant q == first ==> data[q] != CR && data[q] != LF
        invariant Scanned(s, data, p, q, n, c, r, FieldValue, mark)
        decreases pe - q
      {
        if !c.lenient && !IsHeaderChar(data[q]) {
          BadValueByte(s, data, p, q, n, c, r, mark);
          ok := false;
          return;
        }
        ValueAdvances(s, data, p, q, n, c, r, mark);
        GeneralValue(c, data[q]);
        q := q + 1;
      }
      if q != pe || q == |data| {
        q := q - 1;
      } else {
        SkippedByte(s, data, p, q, n, c, r, mark);
      }
    }

    /** The byte that ends a header value, or the end of the buffer. */
    method EndValue(ghost s: Snapshot, data: string, p: nat, q0: nat, m: Marks, h: HeaderState)
      returns (m': Marks, q: nat, again: bool)
      requires p <= q0 < |data| < 0x8000_0000 && (data[q0] == CR || data[q0] == LF)
      requires parser.state.HeaderValue? && 1 <= parser.nread && parser.contentLength <= ULLONG_MAX
      requires parser.nread <= MAX_HEADER_SIZE && !h.TransferEncoding? && !req.complete
      requires MarksFit(m, parser.state, p) && 0 <= req.buildingState <= 1
      requires Scanned(s, data, p, q0, parser.nread, parser.(headerState := h), req, FieldValue, m.value.pos)
      modifies this
      ensures p <= q < |data|
      ensures if again then Again(s, data, q, m') else Agrees(s, data, q + 1, m')
    {
      hide RunTo, Deliver, Passes, ValueStep, Scanned, MarksFit, Pending;
      ValueMarks(m, parser.state, p);
      ghost var mark := m.value.pos;
      ghost var n := parser.nread;
      ghost var r := req;
      ghost var c := parser.(headerState := h);
      q, m', again := q0, m, false;
      ScannedFits(s, data, p, q, n, c, r, FieldValue, mark);
      ValueSpan(s, data, p, q, n, c, r, mark);
      parser := parser.(state := HeaderAlmostDone, headerState := h);
      if data[q] == CR {
        m' := CallbackData(FieldValue, data, q, m);
        parser := Count(parser, q - p);
        NothingPending(req, HeaderAlmostDone, data, q + 1);
      } else {
        DeliverBuilding(r, data[mark..q]);
        parser := Count(parser, q - p);
        if !parser.errno.Ok? { return; }
        m' := CallbackData(FieldValue, data, q, m);
        again := true;
        NothingPending(req, HeaderAlmostDone, data, q);
      }
    }

    /** `s_header_value`: the loop over the bytes of a header value, with `h` the local copy of
        `header_state`. */
    method ScanValue(ghost s: Snapshot, data: string, p: nat, m: Marks)
      returns (m': Marks, q: nat, again: bool)
      requires p < |data| < 0x8000_0000
      requires parser.state.HeaderValue? && Counted(s, data, p, m)
      modifies this
      ensures p <= q < |data|
      ensures if again then Again(s, data, q, m') else Agrees(s, data, q + 1, m')
    {
      hide RunTo, Passes, ValueStep;
      ghost var mark := m.value.pos;
      ghost var n := parser.nread;
      ghost var r := req;
      var h := parser.headerState;
      PendingOnly(req, m, FieldValue, data, p);
      assert 0 <= r.buildingState <= 1;
      q, m', again := p, m, false;
      assert parser.(headerState := h) == parser;
      assert parser.(nread := n - 1 + (q - p)) == parser.(nread := parser.nread - 1);
      hide Deliver;
      while q < |data| && data[q] != CR && data[q] != LF
        invariant p <= q <= |data|
        invariant req == r && parser.nread == n && parser.state.HeaderValue?
        invariant parser.contentLength <= ULLONG_MAX && !h.TransferEncoding?
        invariant Scanned(s, data, p, q, n, parser.(headerState := h), r, FieldValue, mark)
        decreases |data| - q
      {
        ghost var c := parser.(headerState := h);
        if !parser.lenient && !IsHeaderChar(data[q]) {
          BadValueByte(s, data, p, q, n, c, r, mark);
          parser := parser.(errno := InvalidHeaderToken);
          return;
        }
        if h.General? {
          var ok;
          q, ok := SkipGeneral(s, data, p, q, n, parser.(headerState := h), r, mark);
          if !ok {
            parser := parser.(errno := InvalidHeaderToken);
            return;
          }
        } else {
          ValueAdvances(s, data, p, q, n, c, r, mark);
          ValueStepKept(ScanOf(c), data[q]);
          var k := ValueStep(ScanOf(parser).(h := h), data[q]);
          h := k.h;
          parser := WithScan(parser, k.(h := parser.headerState));
          if !parser.errno.Ok? { return; }
        }
        q := q + 1;
      }
      if q == |data| {
        parser := parser.(headerState := h);
        q := BufferEnds(s, data, p, m, FieldValue);
      } else {
        m', q, again := EndValue(s, data, p, q, m, h);
      }
    }

    /** `s_body_identity` and `s_chunk_data`: as many body bytes at once as the buffer and the
        declared length allow. */
    method TakeBody(ghost s: Snapshot, data: string, p: nat, m: Marks)
      returns (m': Marks, q: nat, again: bool)
      requires p < |data| && Bulk(parser.state) && Counted(s, data, p, m)
      modifies this
      ensures p <= q < |data|
      ensures if again then Again(s, data, q, m') else Agrees(s, data, q + 1, m')
    {
      hide RunTo, Passes, Step, Pending, Deliver, MarksFit, Building;
      ghost var c := parser;
      var left := |data| - p;
      var toRead := if parser.contentLength < left then parser.contentLength else left;
      m' := if m.body.At? then m else m.(body := At(p));
      parser := parser.(contentLength := parser.contentLength - toRead);
      q, again := p + toRead - 1, false;
      BodyStretch(s, data, p, toRead, c, req, m);
      BodyBuilding(c, parser, req, m, data, p);
      if parser.contentLength == 0 && parser.state.BodyIdentity? {
        m' := EndBody(s, data, q, m');
        again := true;
      } else if parser.contentLength == 0 {
        parser := parser.(state := ChunkDataAlmostDone);
      }
    }

    /** The last declared body byte is delivered at once. */
    method EndBody(ghost s: Snapshot, data: string, q: nat, m: Marks) returns (m': Marks)
      requires q < |data| && parser.errno.Ok? && !req.complete && parser.state.BodyIdentity?
      requires parser.contentLength == 0 && parser.nread <= MAX_HEADER_SIZE
      requires MarksFit(m, parser.state, q) && m.body.At? && Building(parser, req)
      requires RunTo(s, data, q + 1) ==
               Snapshot(parser.(state := MessageDone),
                        Deliver(req, Body, data[m.body.pos..q + 1]).(complete := true))
      modifies this
      ensures Again(s, data, q, m')
    {
      hide RunTo, Passes;
      parser := parser.(state := MessageDone);
      m' := CallbackData(Body, data, q + 1, m);
      BodyEnds(Snapshot(parser, req), data[q], Ahead(data, q + 1));
      PendingOnly(req, m', Body, data, q);
    }

    /** `s_body_identity_eof`: the rest of the buffer is body. */
    method TakeRest(ghost s: Snapshot, data: string, p: nat, m: Marks) returns (m': Marks, q: nat)
      requires p < |data| && parser.state.BodyIdentityEof? && Counted(s, data, p, m)
      modifies this
      ensures q == |data| - 1 && Agrees(s, data, q + 1, m')
    {
      hide RunTo, Step;
      ghost var r := Pending(req, m, data, p);
      PendingOnly(req, m, Body, data, p);
      m' := if m.body.At? then m else m.(body := At(p));
      q := |data| - 1;
      EofRun(s, data, p, |data| - p, parser, r);
      assert data[m'.body.pos..|data|] == data[m'.body.pos..p] + data[p..|data|];
      assert r.body + data[p..|data|] == req.body + data[m'.body.pos..|data|];
      PendingOnly(req, m', Body, data, |data|);
    }

    /** The states that look at one byte: the switch, for as long as it jumps to `reexecute`. */
    method Reexecute(ghost s: Snapshot, data: string, p: nat, m: Marks) returns (m': Marks)
      requires p < |data| && Again(s, data, p, m)
      modifies this
      ensures Agrees(s, data, p + 1, m')
    {
      hide RunTo, Dispatch, Sound, Building, SpanFits, Pending, Record, RequestAfter;
      m' := m;
      var again := true;
      while again
        invariant if again then Again(s, data, p, m') else Agrees(s, data, p + 1, m')
        decreases again, Rank(parser.state)
      {
        ghost var c, r, before := parser, req, m';
        var pass := Dispatch(parser, data[p], Ahead(data, p + 1));
        DispatchKept(parser, data[p], Ahead(data, p + 1));
        AgainDecreases(parser, data[p], Ahead(data, p + 1));
        parser := pass.c;
        again := pass.again;
        if !parser.errno.Ok? { return; }
        m' := Perform(pass.act, data, p, m');
        AfterPass(c, r, before, pass, data, p);
      }
    }

    lemma {:induction false} CountedOnce(s: Snapshot, data: string, p: nat, m: Marks)
      requires p < |data| && Counted(s, data, p, m)
      ensures Again(s, data, p, m)
    {
      hide RunTo, Step, Passes, Sound, Building, Pending;
      CountedAgain(s, data, p, m, parser, req);
    }

    /** One turn of the outer loop, once byte `p` has been counted. */
    method Switch(ghost s: Snapshot, data: string, p: nat, m: Marks) returns (m': Marks, q: nat)
      requires p < |data| < 0x8000_0000 && Counted(s, data, p, m)
      modifies this
      ensures p <= q < |data| && Agrees(s, data, q + 1, m')
    {
      hide Agrees, Again, Counted;
      q, m' := p, m;
      var again := true;
      match parser.state {
        case HeaderField =>
          again := false;
          m', q := ScanName(s, data, p, m);
        case HeaderValue => m', q, again := ScanValue(s, data, p, m);
        case BodyIdentity => m', q, again := TakeBody(s, data, p, m);
        case ChunkData => m', q, again := TakeBody(s, data, p, m);
        case BodyIdentityEof =>
          again := false;
          m', q := TakeRest(s, data, p, m);
        case _ => CountedOnce(s, data, p, m);
      }
      if again {
        m' := Reexecute(s, data, q, m');
      }
    }

    /** The outer loop over a non-empty buffer. */
    method Run(ghost s: Snapshot, data: string) returns (m: Marks, p: nat)
      requires 0 < |data| < 0x8000_0000 && s == Snap() && !Stopped(s) && Good(s)
      modifies this
      ensures p <= |data| && Agrees(s, data, p, m)
      ensures parser.errno.Ok? && !req.complete ==> p == |data|
    {
      hide Passes, Step, Deliver, Sound, RunTo, Pending;
      m := InitialMarks(parser.state);
      p := 0;
      InitialPending(parser, req, data);
      RunNothing(s, data);
      while p < |data| && parser.errno.Ok? && !req.complete
        invariant p <= |data| && Agrees(s, data, p, m)
        decreases |data| - p
      {
        RunGood(s, data, p);
        PendingComplete(req, m, data, p);
        BeforeCount(s, data, p, m, parser, req);
        parser := CountByte(parser);
        if parser.errno.Ok? {
          m, p := Switch(s, data, p, m);
        }
        p := p + 1;
      }
    }

    /** `http_parser_execute`, up to the first complete message. Afterwards the parser has
        failed exactly if the byte-at-a-time reference has, and otherwise equals it. */
    method Execute(data: string) returns (parsed: nat)
      requires |data| < 0x8000_0000 && !req.complete && Good(Snap())
      modifies this
      ensures Good(Snap())
      ensures data == "" && old(parser.errno.Ok?) ==> Snap() == AtEnd(old(Snap()))
      ensures data != "" ==>
                && (parser.errno.Ok? <==> Feed(old(Snap()), data).c.errno.Ok?)
                && (parser.errno.Ok? ==> Snap() == Feed(old(Snap()), data))
      ensures data != "" && parser.errno.Ok? && !req.complete ==> parsed == |data|
    {
      hide RunTo, Pending, Sound;
      ghost var s := Snap();
      if !parser.errno.Ok? {
        RunNothing(s, data);
        ErrorStays(s, data, 0, |data|);
        return 0;
      }
      if |data| == 0 {
        if parser.state.BodyIdentityEof? {
          req := req.(complete := true);
          return 0;
        } else if parser.state.Dead? || parser.state.StartReq? {
          return 0;
        } else {
          parser := parser.(errno := InvalidEofState);
          return 1;
        }
      }
      var m, p := Run(s, data);
      RunGood(s, data, |data|);
      ErrorStaysFrom(s, data, p);
      parsed := p;
      if parser.errno.Ok? {
        PendingComplete(req, m, data, p);
        req := Pending(req, m, data, p);
      }
    }
  }

  lemma ErrorStaysFrom(s: Snapshot, data: string, p: nat)
    requires p <= |data|
    ensures Stopped(RunTo(s, data, p)) ==> RunTo(s, data, |data|) == RunTo(s, data, p)
  {
    if Stopped(RunTo(s, data, p)) { ErrorStays(s, data, p, |data|); }
  }

  /** An empty buffer signals the end of the stream. */
  function AtEnd(s: Snapshot): Snapshot {
    match s.c.state
    case BodyIdentityEof => s.(r := s.r.(complete := true))
    case Dead => s
    case StartReq => s
    case _ => s.(c := s.c.(errno := InvalidEofState))
  }

  /** Counting the next byte, on both sides. */
  lemma {:induction false} BeforeCount(s: Snapshot, data: string, p: nat, m: Marks, c: Control, r: Request)
    requires p < |data| && c.errno.Ok? && !r.complete && MarksFit(m, c.state, p)
    requires RunTo(s, data, p) == Snapshot(c, Pending(r, m, data, p)) && Good(RunTo(s, data, p))
    ensures var d := CountByte(c);
            if d.errno.Ok? then
              && Sound(d, 1) && Building(d, Pending(r, m, data, p)) && d.state == c.state
              && (d.state.HeaderValue? ==> 2 <= d.nread)
              && c == (if ParsingHeader(d.state) then d.(nread := d.nread - 1) else d)
            else !RunTo(s, data, p + 1).c.errno.Ok?
  {
    hide Passes, Pending;
    PendingComplete(r, m, data, p);
  }

  lemma {:induction false} CountedAgain(s: Snapshot, data: string, p: nat, m: Marks, c: Control, r: Request)
    requires p < |data| && c.errno.Ok? && !r.complete && Sound(c, 1) && MarksFit(m, c.state, p)
    requires RunTo(s, data, p)
             == Snapshot(if ParsingHeader(c.state) then c.(nread := c.nread - 1) else c, Pending(r, m, data, p))
    ensures RunTo(s, data, p + 1) == Passes(Snapshot(c, Pending(r, m, data, p)), data[p], Ahead(data, p + 1))
  {
    hide Passes, Pending;
    PendingComplete(r, m, data, p);
    RunNext(s, data, p);
    hide RunTo;
    var d := if ParsingHeader(c.state) then c.(nread := c.nread - 1) else c;
    assert CountByte(d) == c;
  }

  lemma BodySpan(r: Request, m: Marks, data: string, p: nat, q: nat)
    requires Only(m, Body) && Before(m.body, p) && p <= q < |data|
    ensures var at := if m.body.At? then m.body.pos else p;
            var b := Pending(r, m, data, p);
            && b.(body := b.body + data[p..q + 1]) == Deliver(r, Body, data[at..q + 1])
            && Deliver(r, Body, data[at..q + 1]) == Pending(r, m.(body := At(at)), data, q + 1)
            && b.complete == r.complete
  {
    var at := if m.body.At? then m.body.pos else p;
    assert data[at..q + 1] == data[at..p] + data[p..q + 1];
    assert r.body + data[at..p] + data[p..q + 1] == r.body + data[at..q + 1];
    PendingOnly(r, m, Body, data, p);
    PendingOnly(r, m.(body := At(at)), Body, data, q + 1);
  }

  /** As many body bytes as are taken at once, as the reference sees them. */
  lemma {:induction false} BodyStretch(s: Snapshot, data: string, p: nat, k: nat, c: Control, r: Request, m: Marks)
    requires 0 < k && p + k <= |data| && MarksFit(m, c.state, p)
    requires c.errno.Ok? && !r.complete && Bulk(c.state) && Sound(c, 1) && k <= c.contentLength
    requires RunTo(s, data, p) == Snapshot(c, Pending(r, m, data, p))
    ensures var at := if m.body.At? then m.body.pos else p;
            var m', q := m.(body := At(at)), p + k - 1;
            var d := c.(contentLength := c.contentLength - k);
            && at <= p && MarksFit(m', c.state, q) && MarksFit(m', c.state, q + 1) && MarksFit(m', ChunkDataAlmostDone, q + 1)
            && var t := Deliver(r, Body, data[at..q + 1]);
            && t == Pending(r, m', data, q + 1)
            && RunTo(s, data, q + 1) ==
               if k < c.contentLength then Snapshot(d, t)
               else if c.state.ChunkData? then Snapshot(d.(state := ChunkDataAlmostDone), t)
               else Snapshot(d.(state := MessageDone), t.(complete := true))
  {
    hide RunTo, Pending, Deliver, MarksFit;
    var m', q := m.(body := At(if m.body.At? then m.body.pos else p)), p + k - 1;
    BodyMarks(m, c.state, p);
    BodySpan(r, m, data, p, q);
    BodyTaken(s, data, p, k, c, Pending(r, m, data, p));
    BodyMarks(m', c.state, q);
    BodyMarks(m', c.state, q + 1);
    BodyMarks(m', ChunkDataAlmostDone, q + 1);
  }

  lemma {:induction false} BodyBuilding(c: Control, d: Control, r: Request, m: Marks, data: string, p: nat)
    requires Bulk(c.state) && d.state == c.state && MarksFit(m, c.state, p) && p <= |data|
    requires Building(c, Pending(r, m, data, p))
    ensures Building(d, r)
  {
    hide MarksFit;
    BodyMarks(m, c.state, p);
    PendingOnly(r, m, Body, data, p);
  }

  /** One successful pass, seen from the buffer and from the reference. */
  lemma {:induction false} AfterPass(c: Control, r: Request, m: Marks, pass: Pass, data: string, p: nat)
    requires p < |data| && c.errno.Ok? && !r.complete && MarksFit(m, c.state, p)
    requires Building(c, Pending(r, m, data, p)) && Kept(c, pass, data[p]) && pass.c.errno.Ok?
    ensures var m' := MarksAfter(m, pass.act, p);
            var r' := RequestAfter(r, pass.c, m, pass.act, data, p);
            && MarksFit(m', pass.c.state, p + 1)
            && Pending(r', m', data, p + 1) == Record(Pending(r, m, data, p), pass.act, pass.c, data[p])
            && (pass.again ==>
                  && MarksFit(m', pass.c.state, p) && !r'.complete
                  && Pending(r', m', data, p) == Pending(r', m', data, p + 1)
                  && Building(pass.c, Pending(r', m', data, p)) && Sound(pass.c, 1))
  {
    ActKept(c.state, pass.c, r, m, pass.act, data, p);
    var m' := MarksAfter(m, pass.act, p);
    var r' := RequestAfter(r, pass.c, m, pass.act, data, p);
    if pass.again {
      NoMarks(m', pass.c.state, p + 1);
      RecordKept(Snapshot(c, Pending(r, m, data, p)), pass, data[p]);
      CompleteOnlyByMessage(Pending(r, m, data, p), pass.act, pass.c, data[p]);
      PendingComplete(r, m, data, p);
      hide Record, RequestAfter, SpanFits, Sound, Building;
    }
  }

  lemma PendingComplete(r: Request, m: Marks, data: string, p: nat)
    requires p <= |data| && Before(m.url, p) && Before(m.name, p) && Before(m.value, p) && Before(m.body, p)
    ensures Pending(r, m, data, p).complete == r.complete
  {
  }

  lemma DeliverBuilding(r: Request, a: string)
    requires 0 <= r.buildingState <= 1
    ensures 0 <= Deliver(r, FieldValue, a).buildingState <= 1
    ensures Deliver(r, FieldValue, a).complete == r.complete
  {
  }

  lemma {:induction false} BadValueByte(s: Snapshot, data: string, p: nat, q: nat, n: nat, c: Control, r: Request, mark: nat)
    requires Scanned(s, data, p, q, n, c, r, FieldValue, mark) && q < |data| && !r.complete
    requires c.state.HeaderValue? && !c.lenient && !IsHeaderChar(data[q])
    ensures !RunTo(s, data, q + 1).c.errno.Ok?
  {
    hide RunTo, Deliver, Passes;
    ScanEnds(s, data, p, q, n, c, r, FieldValue, mark);
    ValueEnds(Snapshot(c.(nread := n + (q - p)), Deliver(r, FieldValue, data[mark..q])), data[q], Ahead(data, q + 1));
  }

  /** The end of a header value, as the reference sees it. */
  lemma {:induction false} ValueSpan(s: Snapshot, data: string, p: nat, q: nat, n: nat, c: Control, r: Request, mark: nat)
    requires Scanned(s, data, p, q, n, c, r, FieldValue, mark) && q < |data| && !r.complete
    requires c.state.HeaderValue? && (data[q] == CR || data[q] == LF)
    ensures mark <= q
    ensures var t := Snapshot(c.(nread := n + (q - p), state := HeaderAlmostDone), Deliver(r, FieldValue, data[mark..q]));
            if n + (q - p) > MAX_HEADER_SIZE then !RunTo(s, data, q + 1).c.errno.Ok?
            else RunTo(s, data, q + 1) == if data[q] == CR then t else Passes(t, data[q], Ahead(data, q + 1))
  {
    hide RunTo, Deliver, Passes;
    ScanEnds(s, data, p, q, n, c, r, FieldValue, mark);
    ValueEnds(Snapshot(c.(nread := n + (q - p)), Deliver(r, FieldValue, data[mark..q])), data[q], Ahead(data, q + 1));
    DeliverAppend(r, FieldValue, data[mark..q], []);
    assert data[mark..q] + [] == data[mark..q];
  }

  /** A value byte the fast loop does not look at lies beyond the header size limit. */
  lemma {:induction false} SkippedByte(s: Snapshot, data: string, p: nat, q: nat, n: nat, c: Control, r: Request, mark: nat)
    requires Scanned(s, data, p, q, n, c, r, FieldValue, mark) && q < |data|
    requires 2 <= n && MAX_HEADER_SIZE <= q - p
    ensures Scanned(s, data, p, q + 1, n, c, r, FieldValue, mark)
  {
    hide Deliver;
    ErrorStays(s, data, q, q + 1);
  }

  lemma GeneralValue(c: Control, ch: char)
    requires c.headerState.General?
    ensures WithScan(c, ValueStep(ScanOf(c), ch)) == c && ValueStep(ScanOf(c), ch).errno == c.errno
  {
  }

  lemma GeneralName(c: Control, ch: char)
    requires c.headerState.General?
    ensures WithScan(c, NameStep(ScanOf(c), TokenOf(ch))) == c
  {
  }
}
