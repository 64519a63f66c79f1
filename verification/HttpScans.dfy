/** The inner loops over header names, header values and body bytes, one byte at a time. */
module HttpScans {
  import opened HttpTables
  import opened HttpControl
  import opened HttpReference
  import opened HttpInvariant

  lemma RunNext(s: Snapshot, data: string, q: nat)
    requires q < |data|
    ensures RunTo(s, data, q + 1) == Step(RunTo(s, data, q), data[q], Ahead(data, q + 1))
  {
  }

  lemma RunNothing(s: Snapshot, data: string)
    ensures RunTo(s, data, 0) == s
  {
  }

  /** An error is final. */
  lemma {:induction false} ErrorStays(s: Snapshot, data: string, p: nat, q: nat)
    requires p <= q <= |data| && Stopped(RunTo(s, data, p))
    ensures RunTo(s, data, q) == RunTo(s, data, p)
    decreases q - p
  {
    if p < q { ErrorStays(s, data, p, q - 1); }
  }

  /** The invariant holds after every byte of a run. */
  lemma {:induction false} RunGood(s: Snapshot, data: string, p: nat)
    requires p <= |data| && Good(s)
    ensures Good(RunTo(s, data, p))
  {
    hide Good, Step;
    if p > 0 {
      RunGood(s, data, p - 1);
      StepGood(RunTo(s, data, p - 1), data[p - 1], Ahead(data, p));
    }
  }

  /** A scan begun at byte `p` with `n` header bytes counted has reached byte `q`: the reference
      has the same fields, all bytes from `mark` on delivered, and each byte counted; or too
      many header bytes have been read. */
  predicate Scanned(s: Snapshot, data: string, p: nat, q: nat, n: nat, c: Control, r: Request,
                    f: Piece, mark: nat)
  {
    && mark <= p <= q <= |data| && 1 <= n && c.errno.Ok?
    && (if n - 1 + (q - p) <= MAX_HEADER_SIZE then
          RunTo(s, data, q) == Snapshot(c.(nread := n - 1 + (q - p)), Deliver(r, f, data[mark..q]))
        else !RunTo(s, data, q).c.errno.Ok?)
  }

  lemma ScannedFits(s: Snapshot, data: string, p: nat, q: nat, n: nat, c: Control, r: Request, f: Piece, mark: nat)
    requires Scanned(s, data, p, q, n, c, r, f, mark)
    ensures mark <= p <= q <= |data| && c.errno.Ok?
  {
  }

  lemma {:induction false} NameByte(s: Snapshot, ch: char, next: Peek)
    requires !Stopped(s) && s.c.state.HeaderField? && s.c.nread <= MAX_HEADER_SIZE && IsToken(ch)
    ensures Step(s, ch, next) ==
            if s.c.nread == MAX_HEADER_SIZE then
              s.(c := s.c.(nread := s.c.nread + 1, errno := HeaderOverflow))
            else Snapshot(WithScan(s.c.(nread := s.c.nread + 1), NameStep(ScanOf(s.c), TokenOf(ch))),
                          Deliver(s.r, FieldName, [ch]))
  {
    hide NameStep, Deliver;
  }

  lemma {:induction false} ValueByte(s: Snapshot, ch: char, next: Peek)
    requires !Stopped(s) && s.c.state.HeaderValue? && s.c.nread <= MAX_HEADER_SIZE
    requires ch != CR && ch != LF && (s.c.lenient || IsHeaderChar(ch))
    ensures Step(s, ch, next) ==
            if s.c.nread == MAX_HEADER_SIZE then
              s.(c := s.c.(nread := s.c.nread + 1, errno := HeaderOverflow))
            else Snapshot(WithScan(s.c.(nread := s.c.nread + 1), ValueStep(ScanOf(s.c), ch)),
                          Deliver(s.r, FieldValue, [ch]))
  {
    hide ValueStep, Deliver;
  }

  lemma {:induction false} Extend(r: Request, f: Piece, data: string, mark: nat, q: nat)
    requires mark <= q < |data|
    ensures Deliver(Deliver(r, f, data[mark..q]), f, [data[q]]) == Deliver(r, f, data[mark..q + 1])
  {
    hide Deliver;
    assert data[mark..q + 1] == data[mark..q] + [data[q]];
    DeliverAppend(r, f, data[mark..q], [data[q]]);
  }

  /** Two consecutive pieces have the effect of one: how a span is cut does not matter. */
  lemma {:induction false} DeliverAppend(r: Request, f: Piece, a: string, b: string)
    ensures Deliver(Deliver(r, f, a), f, b) == Deliver(r, f, a + b)
  {
    match f
    case Url => assert r.rawUrl + a + b == r.rawUrl + (a + b);
    case FieldName =>
      NameAppend(r, a, b);
      hide OnHeaderField;
    case FieldValue =>
      ValueAppend(r, a, b);
      hide OnHeaderValue;
    case Body => assert r.body + a + b == r.body + (a + b);
  }

  lemma NameAppend(r: Request, a: string, b: string)
    ensures OnHeaderField(OnHeaderField(r, a), b) == OnHeaderField(r, a + b)
  {
    if r.buildingState == 1 { assert r.field + a + b == r.field + (a + b); }
  }

  lemma ValueAppend(r: Request, a: string, b: string)
    ensures OnHeaderValue(OnHeaderValue(r, a), b) == OnHeaderValue(r, a + b)
  {
    if r.buildingState == 0 { assert r.value + a + b == r.value + (a + b); }
  }

  lemma {:induction false} NameAdvances(s: Snapshot, data: string, p: nat, q: nat, n: nat, c: Control, r: Request, mark: nat)
    requires Scanned(s, data, p, q, n, c, r, FieldName, mark) && q < |data| && IsToken(data[q])
    requires c.state.HeaderField? && !r.complete && NameState(c.headerState)
    ensures var d := WithScan(c, NameStep(ScanOf(c), TokenOf(data[q])));
            Scanned(s, data, p, q + 1, n, d, r, FieldName, mark)
            && d.state.HeaderField? && NameState(d.headerState) && d.nread == c.nread
  {
    hide Step, NameStep, Deliver;
    NameStepKept(ScanOf(c), TokenOf(data[q]));
    CompleteKept(r, FieldName, data[mark..q]);
    if n - 1 + (q - p) <= MAX_HEADER_SIZE {
      NameByte(RunTo(s, data, q), data[q], Ahead(data, q + 1));
      Extend(r, FieldName, data, mark, q);
    } else {
      ErrorStays(s, data, q, q + 1);
    }
  }

  lemma CompleteKept(r: Request, f: Piece, a: string)
    ensures Deliver(r, f, a).complete == r.complete
  {
  }

  lemma {:induction false} ValueAdvances(s: Snapshot, data: string, p: nat, q: nat, n: nat, c: Control, r: Request, mark: nat)
    requires Scanned(s, data, p, q, n, c, r, FieldValue, mark) && q < |data|
    requires data[q] != CR && data[q] != LF && (c.lenient || IsHeaderChar(data[q]))
    requires c.state.HeaderValue? && !r.complete
    ensures var k := ValueStep(ScanOf(c), data[q]);
            if k.errno.Ok? then Scanned(s, data, p, q + 1, n, WithScan(c, k), r, FieldValue, mark)
            else !RunTo(s, data, q + 1).c.errno.Ok?
  {
    hide Step, ValueStep, Deliver;
    CompleteKept(r, FieldValue, data[mark..q]);
    if n - 1 + (q - p) <= MAX_HEADER_SIZE {
      ValueByte(RunTo(s, data, q), data[q], Ahead(data, q + 1));
      Extend(r, FieldValue, data, mark, q);
    } else {
      ErrorStays(s, data, q, q + 1);
    }
  }

  /** The byte that ends a scan, with the bytes before it counted. */
  lemma {:induction false} ScanEnds(s: Snapshot, data: string, p: nat, q: nat, n: nat, c: Control, r: Request, f: Piece, mark: nat)
    requires Scanned(s, data, p, q, n, c, r, f, mark) && q < |data| && !r.complete
    requires ParsingHeader(c.state)
    ensures RunTo(s, data, q + 1) ==
            if n + (q - p) <= MAX_HEADER_SIZE then
              Passes(Snapshot(c.(nread := n + (q - p)), Deliver(r, f, data[mark..q])), data[q], Ahead(data, q + 1))
            else RunTo(s, data, q + 1)
    ensures n + (q - p) > MAX_HEADER_SIZE ==> !RunTo(s, data, q + 1).c.errno.Ok?
  {
    hide Passes, Deliver;
    CompleteKept(r, f, data[mark..q]);
    if n - 1 + (q - p) <= MAX_HEADER_SIZE {
      var t := RunTo(s, data, q);
      assert RunTo(s, data, q + 1) == Step(t, data[q], Ahead(data, q + 1));
      assert t.c.nread == n - 1 + (q - p) && !Stopped(t);
    } else {
      ErrorStays(s, data, q, q + 1);
    }
  }

  // ---------------------------------------------------------------- bodies

  predicate Bulk(s: State) { s.BodyIdentity? || s.ChunkData? }

  lemma BodyByte(s: Snapshot, ch: char, next: Peek)
    requires !Stopped(s) && Bulk(s.c.state) && LengthKnown(s.c) && 1 < s.c.contentLength
    requires s.c.state.ChunkData? ==> s.c.flags.chunked
    ensures Step(s, ch, next) ==
            Snapshot(s.c.(contentLength := s.c.contentLength - 1), s.r.(body := s.r.body + [ch]))
  {
  }

  /** Body bytes short of the declared length are taken as they come. */
  lemma {:induction false} BodyRun(s: Snapshot, data: string, p: nat, k: nat, c: Control, r: Request)
    requires p + k <= |data| && RunTo(s, data, p) == Snapshot(c, r)
    requires c.errno.Ok? && !r.complete && Bulk(c.state) && k < c.contentLength < ULLONG_MAX
    requires c.state.ChunkData? ==> c.flags.chunked
    ensures RunTo(s, data, p + k)
            == Snapshot(c.(contentLength := c.contentLength - k), r.(body := r.body + data[p..p + k]))
  {
    hide Step;
    if k == 0 {
      assert r.body + data[p..p] == r.body;
    } else {
      BodyRun(s, data, p, k - 1, c, r);
      var q := p + k - 1;
      BodyByte(RunTo(s, data, q), data[q], Ahead(data, q + 1));
      assert r.body + data[p..p + k] == r.body + data[p..q] + [data[q]];
    }
  }

  lemma LastChunkByte(s: Snapshot, ch: char, next: Peek)
    requires !Stopped(s) && s.c.state.ChunkData? && s.c.contentLength == 1 && s.c.flags.chunked
    ensures Step(s, ch, next) ==
            Snapshot(s.c.(contentLength := 0, state := ChunkDataAlmostDone), s.r.(body := s.r.body + [ch]))
  {
  }

  lemma LastPass(c: Control, ch: char, next: Peek)
    requires c.state.BodyIdentity? && c.contentLength == 1
    ensures var d := c.(contentLength := 0, state := MessageDone);
            Dispatch(c, ch, next) == Pass(d, Last(Body), true) && Dispatch(d, ch, next) == Pass(d, MessageComplete, false)
  {
  }

  lemma {:induction false} LastBodyByte(s: Snapshot, ch: char, next: Peek)
    requires !Stopped(s) && s.c.state.BodyIdentity? && s.c.contentLength == 1
    ensures Step(s, ch, next) ==
            Snapshot(s.c.(contentLength := 0, state := MessageDone),
                     s.r.(body := s.r.body + [ch], complete := true))
  {
    var d := s.c.(contentLength := 0, state := MessageDone);
    var t := Snapshot(d, s.r.(body := s.r.body + [ch]));
    LastPass(s.c, ch, next);
    hide Dispatch;
    assert Passes(t, ch, next) == Snapshot(d, t.r.(complete := true));
  }

  lemma EofByte(s: Snapshot, ch: char, next: Peek)
    requires !Stopped(s) && s.c.state.BodyIdentityEof?
    ensures Step(s, ch, next) == Snapshot(s.c, s.r.(body := s.r.body + [ch]))
  {
  }

  lemma {:induction false} EofRun(s: Snapshot, data: string, p: nat, k: nat, c: Control, r: Request)
    requires p + k <= |data| && RunTo(s, data, p) == Snapshot(c, r)
    requires c.errno.Ok? && !r.complete && c.state.BodyIdentityEof?
    ensures RunTo(s, data, p + k) == Snapshot(c, r.(body := r.body + data[p..p + k]))
  {
    hide Step;
    if k == 0 {
      assert r.body + data[p..p] == r.body;
    } else {
      EofRun(s, data, p, k - 1, c, r);
      var q := p + k - 1;
      EofByte(RunTo(s, data, q), data[q], Ahead(data, q + 1));
      assert r.body + data[p..p + k] == r.body + data[p..q] + [data[q]];
    }
  }

  /** A stretch of body bytes taken at once, up to and including the last one declared. */
  lemma {:induction false} BodyTaken(s: Snapshot, data: string, p: nat, k: nat, c: Control, r: Request)
    requires p + k <= |data| && RunTo(s, data, p) == Snapshot(c, r)
    requires c.errno.Ok? && !r.complete && Bulk(c.state)
    requires 0 < c.contentLength < ULLONG_MAX && k <= c.contentLength
    requires c.state.ChunkData? ==> c.flags.chunked
    ensures var d := c.(contentLength := c.contentLength - k);
            var t := r.(body := r.body + data[p..p + k]);
            RunTo(s, data, p + k) ==
            if k < c.contentLength then Snapshot(d, t)
            else if c.state.ChunkData? then Snapshot(d.(state := ChunkDataAlmostDone), t)
            else Snapshot(d.(state := MessageDone), t.(complete := true))
  {
    hide Step;
    if k < c.contentLength {
      BodyRun(s, data, p, k, c, r);
    } else {
      var q := p + k - 1;
      BodyRun(s, data, p, k - 1, c, r);
      assert RunTo(s, data, q + 1) == Step(RunTo(s, data, q), data[q], Ahead(data, q + 1));
      assert r.body + data[p..q] + [data[q]] == r.body + data[p..p + k];
      if c.state.ChunkData? {
        LastChunkByte(RunTo(s, data, q), data[q], Ahead(data, q + 1));
      } else {
        LastBodyByte(RunTo(s, data, q), data[q], Ahead(data, q + 1));
      }
    }
  }

  // ---------------------------------------------------------------- ends of scans

  lemma {:induction false} NameEnds(s: Snapshot, ch: char, next: Peek)
    requires s.c.state.HeaderField? && !IsToken(ch)
    ensures Passes(s, ch, next) ==
            if ch == ':' then Snapshot(s.c.(state := HeaderValueDiscardWs), Deliver(s.r, FieldName, []))
            else s.(c := s.c.(errno := InvalidHeaderToken))
  {
    hide Deliver;
  }

  lemma {:induction false} ValueEnds(s: Snapshot, ch: char, next: Peek)
    requires s.c.state.HeaderValue?
    ensures var t := Snapshot(s.c.(state := HeaderAlmostDone), Deliver(s.r, FieldValue, []));
            && (ch == CR ==> Passes(s, ch, next) == t)
            && (ch == LF ==> Passes(s, ch, next) == Passes(t, ch, next))
    ensures ch != CR && ch != LF && !s.c.lenient && !IsHeaderChar(ch) ==>
              !Passes(s, ch, next).c.errno.Ok?
  {
    hide Deliver, ValueStep;
  }

  lemma BodyEnds(s: Snapshot, ch: char, next: Peek)
    requires s.c.state.MessageDone?
    ensures Passes(s, ch, next) == s.(r := s.r.(complete := true))
  {
  }
}
