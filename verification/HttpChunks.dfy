/** The chunked coding (section 4.1 of RFC 7230): a decoder written from the format, and the
    proof that the parser agrees with it on every input. */
module HttpChunks {
  import opened HttpTables
  import opened HttpControl
  import opened HttpReference
  import opened HttpInvariant
  import opened HttpScans
  import opened HttpSplits

  // ---------------------------------------------------------------- the format

  predicate HexBytes(hs: string) { forall i :: 0 <= i < |hs| ==> Unhex(hs[i]) != -1 }

  function HexValue(hs: string): nat
    requires HexBytes(hs)
  {
    if hs == "" then 0 else HexValue(hs[..|hs| - 1]) * 16 + Unhex(hs[|hs| - 1])
  }

  /** Where the digits of a chunk size end. */
  function HexEnd(data: string, i: nat): (k: nat)
    requires i <= |data|
    ensures i <= k <= |data| && HexBytes(data[i..k]) && (k < |data| ==> Unhex(data[k]) == -1)
    decreases |data| - i
  {
    if i == |data| || Unhex(data[i]) == -1 then i else HexEnd(data, i + 1)
  }

  /** Where the first CR from `i` on is. */
  function CrFrom(data: string, i: nat): (e: nat)
    requires i <= |data|
    ensures i <= e <= |data| && CR !in data[i..e] && (e < |data| ==> data[e] == CR)
    decreases |data| - i
  {
    if i == |data| || data[i] == CR then i else CrFrom(data, i + 1)
  }

  /** What a chunked body amounts to: rejected; accepted so far, with the payload so far; or
      ended by its last chunk, with what follows it. */
  datatype Verdict = Rejected | Reading(payload: string) | Ended(payload: string, rest: string)

  function Prepend(a: string, v: Verdict): Verdict {
    match v
    case Rejected => Rejected
    case Reading(b) => Reading(a + b)
    case Ended(b, rest) => Ended(a + b, rest)
  }

  /** The largest chunk size accepted is this times sixteen plus fifteen. */
  const CHUNK_LIMIT := (ULLONG_MAX - 16) / 16

  /** A chunk: a hexadecimal size, optional parameters, CR LF, that many bytes, CR LF. The line
      may be no longer than `MAX_HEADER_SIZE`. */
  function Dechunk(data: string): Verdict
    decreases |data|, 1
  {
    var k := HexEnd(data, 0);
    if k == 0 then if data == "" then Reading("") else Rejected
    else if k > MAX_HEADER_SIZE || HexValue(data[0..k]) / 16 > CHUNK_LIMIT then Rejected
    else if k == |data| then Reading("")
    else if data[k] != CR && data[k] != ';' && data[k] != ' ' then Rejected
    else
      var e := CrFrom(data, k);
      var line := if e + 2 < |data| then e + 2 else |data|;
      if line > MAX_HEADER_SIZE then Rejected
      else if e + 1 >= |data| then Reading("")
      else if data[e + 1] != LF then Rejected
      else DechunkData(data[e + 2..], HexValue(data[0..k]))
  }

  function DechunkData(data: string, size: nat): Verdict
    decreases |data|, 2
  {
    if size == 0 then Ended("", data)
    else if |data| <= size then Reading(data)
    else if data[size] != CR then Rejected
    else if |data| == size + 1 then Reading(data[..size])
    else if data[size + 1] != LF then Rejected
    else Prepend(data[..size], Dechunk(data[size + 2..]))
  }

  // ---------------------------------------------------------------- single bytes

  predicate Chunky(s: Snapshot) { !Stopped(s) && s.c.flags.chunked && s.c.nread <= MAX_HEADER_SIZE }

  lemma FirstDigit(s: Snapshot, ch: char, next: Peek)
    requires Chunky(s) && s.c.state.ChunkSizeStart? && s.c.nread == 0
    ensures if Unhex(ch) == -1 then !Step(s, ch, next).c.errno.Ok?
            else Step(s, ch, next) == s.(c := s.c.(state := ChunkSize, contentLength := Unhex(ch), nread := 1))
  {
  }

  /** One byte of a chunk's first line: it is counted, and then dispatched once. */
  lemma {:induction false} LineByte(s: Snapshot, ch: char, next: Peek)
    requires Chunky(s) && LengthBeingRead(s.c.state)
    ensures var c := s.c.(nread := s.c.nread + 1);
            var p := BodyPass(c, ch);
            if s.c.nread == MAX_HEADER_SIZE then !Step(s, ch, next).c.errno.Ok?
            else p.act.Nothing? && !p.again ==> Step(s, ch, next) == Snapshot(p.c, s.r)
  {
    hide BodyPass, StartPass, UrlPass, VersionPass, HeaderPass, Deliver, OnHeadersComplete;
    assert GroupOf(s.c.state).BodyGroup? && ParsingHeader(s.c.state);
    hide GroupOf, ParsingHeader;
  }

  lemma DigitPass(c: Control, ch: char)
    requires c.flags.chunked && c.state.ChunkSize? && Unhex(ch) != -1
    ensures BodyPass(c, ch) ==
            if c.contentLength > CHUNK_LIMIT then Fail(c, InvalidContentLength)
            else Goto(c.(contentLength := c.contentLength * 16 + Unhex(ch)), ChunkSize)
  {
    assert ch != CR;
    if c.contentLength <= CHUNK_LIMIT {
      assert c.contentLength * 16 + Unhex(ch) < ULLONG_MAX + 1;
    }
  }

  lemma {:induction false} NextDigit(s: Snapshot, ch: char, next: Peek)
    requires Chunky(s) && s.c.state.ChunkSize? && Unhex(ch) != -1
    ensures if s.c.nread == MAX_HEADER_SIZE || s.c.contentLength > CHUNK_LIMIT then !Step(s, ch, next).c.errno.Ok?
            else Step(s, ch, next) ==
                 s.(c := s.c.(contentLength := s.c.contentLength * 16 + Unhex(ch), nread := s.c.nread + 1))
  {
    LineByte(s, ch, next);
    DigitPass(s.c.(nread := s.c.nread + 1), ch);
    hide BodyPass, Unhex, Step;
  }

  lemma {:induction false} AfterDigits(s: Snapshot, ch: char, next: Peek)
    requires Chunky(s) && s.c.state.ChunkSize? && Unhex(ch) == -1
    ensures var c := s.c.(nread := s.c.nread + 1);
            if s.c.nread == MAX_HEADER_SIZE then !Step(s, ch, next).c.errno.Ok?
            else if ch == CR then Step(s, ch, next) == s.(c := c.(state := ChunkSizeAlmostDone))
            else if ch == ';' || ch == ' ' then Step(s, ch, next) == s.(c := c.(state := ChunkParameters))
            else !Step(s, ch, next).c.errno.Ok?
  {
    LineByte(s, ch, next);
    AfterDigitsPass(s.c.(nread := s.c.nread + 1), ch);
    hide BodyPass, Unhex, Step;
  }

  lemma {:induction false} AfterDigitsPass(c: Control, ch: char)
    requires c.flags.chunked && c.state.ChunkSize? && Unhex(ch) == -1
    ensures BodyPass(c, ch) ==
            if ch == CR then Goto(c, ChunkSizeAlmostDone)
            else if ch == ';' || ch == ' ' then Goto(c, ChunkParameters)
            else Fail(c, InvalidChunkSize)
  {
    hide Unhex;
  }

  lemma Parameter(s: Snapshot, ch: char, next: Peek)
    requires Chunky(s) && s.c.state.ChunkParameters?
    ensures if s.c.nread == MAX_HEADER_SIZE then !Step(s, ch, next).c.errno.Ok?
            else Step(s, ch, next) ==
                 s.(c := s.c.(nread := s.c.nread + 1,
                              state := if ch == CR then ChunkSizeAlmostDone else ChunkParameters))
  {
  }

  lemma LineFeedPass(c: Control, ch: char)
    requires c.flags.chunked && c.state.ChunkSizeAlmostDone?
    ensures BodyPass(c, ch) ==
            if ch != LF then Fail(c, Strict)
            else if c.contentLength == 0 then
              Goto(c.(nread := 0, flags := c.flags.(trailing := true)), HeaderFieldStart)
            else Goto(c.(nread := 0), ChunkData)
  {
  }

  lemma {:induction false} LineFeed(s: Snapshot, ch: char, next: Peek)
    requires Chunky(s) && s.c.state.ChunkSizeAlmostDone?
    ensures if s.c.nread == MAX_HEADER_SIZE || ch != LF then !Step(s, ch, next).c.errno.Ok?
            else if s.c.contentLength == 0 then
              Step(s, ch, next) ==
              s.(c := s.c.(nread := 0, flags := s.c.flags.(trailing := true), state := HeaderFieldStart))
            else Step(s, ch, next) == s.(c := s.c.(nread := 0, state := ChunkData))
  {
    LineByte(s, ch, next);
    LineFeedPass(s.c.(nread := s.c.nread + 1), ch);
    hide BodyPass, Step;
  }

  lemma DataCr(s: Snapshot, ch: char, next: Peek)
    requires Chunky(s) && s.c.state.ChunkDataAlmostDone? && s.c.contentLength == 0
    ensures if ch != CR then !Step(s, ch, next).c.errno.Ok?
            else Step(s, ch, next) == s.(c := s.c.(state := ChunkDataDone))
  {
    assert s.r.body + [] == s.r.body;
  }

  lemma DataLf(s: Snapshot, ch: char, next: Peek)
    requires Chunky(s) && s.c.state.ChunkDataDone?
    ensures if ch != LF then !Step(s, ch, next).c.errno.Ok?
            else Step(s, ch, next) == s.(c := s.c.(nread := 0, state := ChunkSizeStart))
  {
  }

  // ---------------------------------------------------------------- lines

  /** A run may be resumed anywhere. */
  lemma {:induction false} Resume(s: Snapshot, data: string, q: nat)
    requires q <= |data|
    ensures Feed(s, data) == Feed(RunTo(s, data, q), data[q..])
  {
    hide Step;
    assert data[..q] + data[q..] == data;
    SuffixRun(s, data[..q], data[q..], |data| - q);
  }

  lemma Fails(s: Snapshot, data: string, p: nat)
    requires p <= |data| && !RunTo(s, data, p).c.errno.Ok?
    ensures !Feed(s, data).c.errno.Ok?
  {
    ErrorStays(s, data, p, |data|);
  }

  /** One more digit. */
  lemma HexMore(data: string, k: nat)
    requires 1 <= k <= |data| && HexBytes(data[0..k])
    ensures 0 <= Unhex(data[k - 1]) < 16 && HexBytes(data[0..k - 1]) && HexValue(data[0..0]) == 0
    ensures HexValue(data[0..k]) == HexValue(data[0..k - 1]) * 16 + Unhex(data[k - 1])
  {
    assert data[0..k][..k - 1] == data[0..k - 1] && data[0..k][k - 1] == data[k - 1];
  }

  /** The hexadecimal accumulator: the size read so far, or a refusal, never a wrapped value and
      never the all-ones marker. */
  lemma {:induction false} SizeRun(s: Snapshot, data: string, k: nat)
    requires Chunky(s) && s.c.state.ChunkSizeStart? && s.c.nread == 0
    requires 1 <= k <= |data| && HexBytes(data[0..k])
    ensures var v := HexValue(data[0..k]);
            var t := RunTo(s, data, k);
            if k <= MAX_HEADER_SIZE && v / 16 <= CHUNK_LIMIT then
              t == s.(c := s.c.(state := ChunkSize, contentLength := v, nread := k)) && v < ULLONG_MAX
            else !t.c.errno.Ok?
  {
    hide Step, HexValue, HexBytes, Unhex, RunTo;
    RunNext(s, data, k - 1);
    HexMore(data, k);
    if k == 1 {
      RunNothing(s, data);
      FirstDigit(s, data[0], Ahead(data, 1));
    } else {
      SizeRun(s, data, k - 1);
      var t := RunTo(s, data, k - 1);
      if t.c.errno.Ok? {
        NextDigit(t, data[k - 1], Ahead(data, k));
      } else {
        ErrorStays(s, data, k - 1, k);
      }
    }
  }

  /** Parameters after a chunk size are skipped up to the CR. */
  lemma {:induction false} ParameterRun(s: Snapshot, data: string, p: nat, q: nat)
    requires p <= q <= |data| && CR !in data[p..q]
    requires var t := RunTo(s, data, p); Chunky(t) && t.c.state.ChunkParameters?
    ensures var t := RunTo(s, data, p);
            if t.c.nread + (q - p) <= MAX_HEADER_SIZE then
              RunTo(s, data, q) == t.(c := t.c.(nread := t.c.nread + (q - p)))
            else !RunTo(s, data, q).c.errno.Ok?
    decreases q - p
  {
    hide Step;
    if p < q {
      assert CR !in data[p..q - 1] by { assert data[p..q - 1] <= data[p..q]; }
      assert data[q - 1] != CR by { assert data[p..q][q - 1 - p] == data[q - 1]; }
      ParameterRun(s, data, p, q - 1);
      RunNext(s, data, q - 1);
      var t := RunTo(s, data, q - 1);
      if t.c.errno.Ok? {
        Parameter(t, data[q - 1], Ahead(data, q));
      } else {
        ErrorStays(s, data, q - 1, q);
      }
    }
  }

  /** From the first byte after the digits to the CR that ends the size line. */
  lemma {:induction false} ToCr(s: Snapshot, data: string, k: nat, e: nat)
    requires k <= e <= |data| && e == CrFrom(data, k) && k < |data|
    requires var t := RunTo(s, data, k); Chunky(t) && t.c.state.ChunkSize? && t.c.nread == k
    requires Unhex(data[k]) == -1 && (data[k] == CR || data[k] == ';' || data[k] == ' ')
    ensures var t := RunTo(s, data, k);
            var q := if e < |data| then e + 1 else e;
            if q <= MAX_HEADER_SIZE then
              RunTo(s, data, q) ==
              t.(c := t.c.(nread := q, state := if e < |data| then ChunkSizeAlmostDone else ChunkParameters))
            else !RunTo(s, data, q).c.errno.Ok?
  {
    hide Step;
    var t := RunTo(s, data, k);
    RunNext(s, data, k);
    AfterDigits(t, data[k], Ahead(data, k + 1));
    if data[k] != CR {
      assert CrFrom(data, k + 1) == e;
      if RunTo(s, data, k + 1).c.errno.Ok? {
        ParameterRun(s, data, k + 1, e);
      } else {
        ErrorStays(s, data, k + 1, e);
      }
      if e < |data| {
        RunNext(s, data, e);
        var u := RunTo(s, data, e);
        if u.c.errno.Ok? {
          Parameter(u, data[e], Ahead(data, e + 1));
        } else {
          ErrorStays(s, data, e, e + 1);
        }
      }
    }
  }

  // ---------------------------------------------------------------- the whole body

  /** The parser agrees with the verdict: same payload, same end, and refusal exactly where the
      decoder refuses. */
  predicate Decodes(s: Snapshot, data: string, v: Verdict) {
    match v
    case Rejected => !Feed(s, data).c.errno.Ok?
    case Reading(b) =>
      && !Stopped(Feed(s, data)) && ChunkState(Feed(s, data).c.state)
      && Feed(s, data).r == s.r.(body := s.r.body + b)
    case Ended(b, rest) =>
      Feed(s, data) ==
      Feed(Snapshot(s.c.(nread := 0, contentLength := 0, state := HeaderFieldStart,
                         flags := s.c.flags.(trailing := true)),
                    s.r.(body := s.r.body + b)), rest)
  }

  /** On every input, in every way it can end, a parser at the start of a chunk does what the
      decoder says. */
  lemma {:induction false} ChunkedBody(s: Snapshot, data: string)
    requires Chunky(s) && s.c.state.ChunkSizeStart? && s.c.nread == 0
    ensures Decodes(s, data, Dechunk(data))
    decreases |data|, 1
  {
    hide RunTo, Step;
    var k := HexEnd(data, 0);
    RunNothing(s, data);
    if k == 0 {
      if data == "" {
        assert s.r.body + "" == s.r.body;
      } else {
        RunNext(s, data, 0);
        FirstDigit(s, data[0], Ahead(data, 1));
        Fails(s, data, 1);
      }
      return;
    }
    SizeRun(s, data, k);
    var size := HexValue(data[0..k]);
    if k > MAX_HEADER_SIZE || size / 16 > CHUNK_LIMIT {
      Fails(s, data, k);
    } else if k == |data| {
      assert s.r.body + "" == s.r.body;
    } else if data[k] != CR && data[k] != ';' && data[k] != ' ' {
      RunNext(s, data, k);
      AfterDigits(RunTo(s, data, k), data[k], Ahead(data, k + 1));
      Fails(s, data, k + 1);
    } else {
      ChunkLine(s, data, k, CrFrom(data, k));
    }
  }

  lemma {:induction false} ChunkLine(s: Snapshot, data: string, k: nat, e: nat)
    requires Chunky(s) && s.c.state.ChunkSizeStart? && s.c.nread == 0
    requires 0 < k < |data| && HexEnd(data, 0) == k && k <= MAX_HEADER_SIZE
    requires HexValue(data[0..k]) / 16 <= CHUNK_LIMIT
    requires data[k] == CR || data[k] == ';' || data[k] == ' '
    requires e == CrFrom(data, k)
    requires RunTo(s, data, k) ==
             s.(c := s.c.(state := ChunkSize, contentLength := HexValue(data[0..k]), nread := k))
    ensures Decodes(s, data, Dechunk(data))
    decreases |data|, 0
  {
    hide RunTo, Step, HexEnd, CrFrom, HexValue, DechunkData;
    ToCr(s, data, k, e);
    var q := if e < |data| then e + 1 else e;
    assert s.r.body + "" == s.r.body;
    if q > MAX_HEADER_SIZE {
      Fails(s, data, q);
    } else if e + 1 < |data| {
      var size := HexValue(data[0..k]);
      RunNext(s, data, e + 1);
      LineFeed(RunTo(s, data, e + 1), data[e + 1], Ahead(data, e + 2));
      if e + 2 > MAX_HEADER_SIZE || data[e + 1] != LF {
        Fails(s, data, e + 2);
      } else {
        Resume(s, data, e + 2);
        if size != 0 {
          ChunkPayload(RunTo(s, data, e + 2), data[e + 2..]);
          PayloadAgrees(s, RunTo(s, data, e + 2), data[e + 2..], DechunkData(data[e + 2..], size), data);
        } else {
          ZeroEnds(data[e + 2..]);
        }
      }
    }
  }

  lemma {:induction false} PayloadAgrees(s: Snapshot, t: Snapshot, rest: string, v: Verdict, data: string)
    requires Feed(s, data) == Feed(t, rest) && Decodes(t, rest, v) && t.r == s.r
    requires t.c == s.c.(state := ChunkData, contentLength := t.c.contentLength, nread := 0)
    ensures Decodes(s, data, v)
  {
    hide RunTo;
  }

  lemma {:induction false} ChunkPayload(s: Snapshot, data: string)
    requires Chunky(s) && s.c.state.ChunkData? && 0 < s.c.contentLength < ULLONG_MAX && s.c.nread == 0
    ensures Decodes(s, data, DechunkData(data, s.c.contentLength))
    decreases |data|, 2
  {
    hide RunTo, Step, Dechunk;
    var n := s.c.contentLength;
    RunNothing(s, data);
    if |data| < n {
      BodyTaken(s, data, 0, |data|, s.c, s.r);
      assert data[0..|data|] == data;
    } else {
      BodyTaken(s, data, 0, n, s.c, s.r);
      assert data[0..n] == data[..n];
      var t := RunTo(s, data, n);
      if n < |data| {
        RunNext(s, data, n);
        DataCr(t, data[n], Ahead(data, n + 1));
        if data[n] != CR {
          Fails(s, data, n + 1);
        } else if n + 1 < |data| {
          RunNext(s, data, n + 1);
          DataLf(RunTo(s, data, n + 1), data[n + 1], Ahead(data, n + 2));
          if data[n + 1] != LF {
            Fails(s, data, n + 2);
          } else {
            Resume(s, data, n + 2);
            ChunkedBody(RunTo(s, data, n + 2), data[n + 2..]);
            NextAgrees(s, RunTo(s, data, n + 2), data[..n], data[n + 2..], Dechunk(data[n + 2..]), data);
          }
        }
      } else {
        assert data[..n] == data;
      }
    }
  }

  lemma {:induction false} NextAgrees(s: Snapshot, t: Snapshot, a: string, rest: string, v: Verdict, data: string)
    requires Feed(s, data) == Feed(t, rest) && Decodes(t, rest, v)
    requires t.r == s.r.(body := s.r.body + a)
    requires t.c == s.c.(state := ChunkSizeStart, contentLength := 0, nread := 0)
    ensures Decodes(s, data, Prepend(a, v))
  {
    hide RunTo;
    match v
    case Rejected =>
    case Reading(b) => assert s.r.body + a + b == s.r.body + (a + b);
    case Ended(b, _) => assert s.r.body + a + b == s.r.body + (a + b);
  }

  // ---------------------------------------------------------------- what the decoder decodes

  datatype Chunk = Chunk(size: string, parameters: string, payload: string)

  predicate WellFormed(c: Chunk) {
    && c.size != "" && HexBytes(c.size) && c.payload != "" && HexValue(c.size) == |c.payload|
    && |c.payload| / 16 <= CHUNK_LIMIT
    && (c.parameters == "" || c.parameters[0] == ';' || c.parameters[0] == ' ')
    && CR !in c.parameters && |c.size| + |c.parameters| + 2 <= MAX_HEADER_SIZE
  }

  function Encode(cs: seq<Chunk>, rest: string): string {
    if cs == [] then "0\r\n" + rest
    else cs[0].size + cs[0].parameters + "\r\n" + cs[0].payload + "\r\n" + Encode(cs[1..], rest)
  }

  function Payloads(cs: seq<Chunk>): string {
    if cs == [] then "" else cs[0].payload + Payloads(cs[1..])
  }

  lemma {:induction false} HexEndAt(data: string, i: nat, k: nat)
    requires i <= k < |data| && HexBytes(data[i..k]) && Unhex(data[k]) == -1
    ensures HexEnd(data, i) == k
    decreases k - i
  {
    if i < k {
      assert Unhex(data[i..k][0]) != -1 && data[i..k][1..] == data[i + 1..k];
      HexEndAt(data, i + 1, k);
    }
  }

  lemma {:induction false} CrAt(data: string, i: nat, e: nat)
    requires i <= e < |data| && CR !in data[i..e] && data[e] == CR
    ensures CrFrom(data, i) == e
    decreases e - i
  {
    if i < e {
      assert data[i..e][0] == data[i] && data[i..e][1..] == data[i + 1..e];
      CrAt(data, i + 1, e);
    }
  }

  lemma {:induction false} SizeLine(data: string, k: nat, e: nat)
    requires 0 < k <= e && e + 1 < |data| && e + 2 <= MAX_HEADER_SIZE
    requires HexBytes(data[0..k]) && HexValue(data[0..k]) / 16 <= CHUNK_LIMIT && Unhex(data[k]) == -1
    requires data[k] == CR || data[k] == ';' || data[k] == ' '
    requires CR !in data[k..e] && data[e] == CR && data[e + 1] == LF
    ensures Dechunk(data) == DechunkData(data[e + 2..], HexValue(data[0..k]))
  {
    hide Dechunk, DechunkData, HexValue, HexEnd, CrFrom;
    HexEndAt(data, 0, k);
    CrAt(data, k, e);
    LineShape(data, k, e);
  }

  lemma {:induction false} LineShape(data: string, k: nat, e: nat)
    requires 0 < k <= e && e + 1 < |data| && e + 2 <= MAX_HEADER_SIZE
    requires k == HexEnd(data, 0) && e == CrFrom(data, k)
    requires HexValue(data[0..k]) / 16 <= CHUNK_LIMIT
    requires data[k] == CR || data[k] == ';' || data[k] == ' '
    requires data[e + 1] == LF
    ensures Dechunk(data) == DechunkData(data[e + 2..], HexValue(data[0..k]))
  {
    hide DechunkData, HexValue, HexEnd, CrFrom;
  }

  lemma {:induction false} Payload(a: string, tail: string)
    requires a != ""
    ensures DechunkData(a + "\r\n" + tail, |a|) == Prepend(a, Dechunk(tail))
  {
    hide Dechunk;
    var data := a + "\r\n" + tail;
    assert data[..|a|] == a && data[|a|] == CR && data[|a| + 1] == LF && data[|a| + 2..] == tail;
  }

  lemma {:induction false} OneChunk(c: Chunk, tail: string)
    requires WellFormed(c)
    ensures Dechunk(c.size + c.parameters + "\r\n" + c.payload + "\r\n" + tail)
            == Prepend(c.payload, Dechunk(tail))
  {
    hide Dechunk, DechunkData, HexValue, Prepend;
    var k, e := |c.size|, |c.size| + |c.parameters|;
    var after := c.payload + "\r\n" + tail;
    var data := c.size + c.parameters + "\r\n" + after;
    assert data == c.size + c.parameters + "\r\n" + c.payload + "\r\n" + tail;
    assert data[0..k] == c.size && data[k..e] == c.parameters && data[e] == CR && data[e + 1] == LF;
    assert data[e + 2..] == after;
    assert data[k] == if c.parameters == "" then CR else c.parameters[0];
    SizeLine(data, k, e);
    Payload(c.payload, tail);
  }

  /** The concatenation of the payloads is what an encoded chunk list decodes to. */
  lemma {:induction false} EncodeDechunk(cs: seq<Chunk>, rest: string)
    requires forall i :: 0 <= i < |cs| ==> WellFormed(cs[i])
    ensures Dechunk(Encode(cs, rest)) == Ended(Payloads(cs), rest)
    decreases |cs|
  {
    hide Dechunk, DechunkData;
    if cs == [] {
      var data := "0\r\n" + rest;
      assert data[0..1] == "0" && data[1] == CR && data[2] == LF && data[3..] == rest;
      assert HexValue("0") == 0 by { assert "0"[..0] == ""; }
      SizeLine(data, 1, 1);
      ZeroEnds(rest);
    } else {
      EncodeDechunk(cs[1..], rest);
      OneChunk(cs[0], Encode(cs[1..], rest));
    }
  }

  lemma ZeroEnds(data: string)
    ensures DechunkData(data, 0) == Ended("", data)
  {
  }

  /** Every list of chunks is delivered as the concatenation of its payloads, and what follows the
      last chunk is read as trailing headers. */
  lemma {:induction false} ChunksDelivered(s: Snapshot, cs: seq<Chunk>, rest: string)
    requires Chunky(s) && s.c.state.ChunkSizeStart? && s.c.nread == 0
    requires forall i :: 0 <= i < |cs| ==> WellFormed(cs[i])
    ensures Decodes(s, Encode(cs, rest), Ended(Payloads(cs), rest))
  {
    hide RunTo;
    EncodeDechunk(cs, rest);
    ChunkedBody(s, Encode(cs, rest));
  }

  // ---------------------------------------------------------------- trailing headers

  /** Reading the headers that follow the last chunk. */
  predicate InTrailer(c: Control) {
    && c.flags.trailing && HeaderLine(c.state) && !c.state.HeadersDone?
  }

  predicate TrailerKept(p: Pass) {
    p.c.errno.Ok? && !p.act.MessageComplete? ==> InTrailer(p.c)
  }

  lemma ValueStartTrailer(c: Control, ch: char, next: Peek)
    ensures var p := ValueStartPass(c, ch, next);
            p.c.state.HeaderValue? && p.c.flags.trailing == c.flags.trailing && !p.act.MessageComplete?
  {
    if c.headerState.Upgrade? {
    } else if c.headerState.TransferEncoding? {
    } else if c.headerState.ContentLength? {
    } else if c.headerState.Connection? {
    } else {
    }
  }

  lemma {:induction false} ValueTrailer(c: Control, ch: char, next: Peek)
    requires InTrailer(c) && c.errno.Ok? && c.state.HeaderValue?
    ensures TrailerKept(HeaderPass(c, ch, next))
  {
    hide ValueStep;
  }

  lemma {:induction false} BlankTrailer(c: Control, ch: char, next: Peek)
    requires InTrailer(c) && c.errno.Ok?
    requires c.state.HeaderValueDiscardWs? || c.state.HeaderValueStart?
    ensures TrailerKept(HeaderPass(c, ch, next))
  {
    ValueStartTrailer(c, ch, next);
    hide ValueStartPass;
  }

  lemma {:induction false} NameTrailer(c: Control, ch: char, next: Peek)
    requires InTrailer(c) && c.errno.Ok? && c.state.HeaderField?
    ensures TrailerKept(HeaderPass(c, ch, next))
  {
    hide NameStep;
  }

  lemma StartTrailer(c: Control, ch: char, next: Peek)
    requires InTrailer(c) && c.errno.Ok?
    requires c.state.HeaderFieldStart? || c.state.HeadersAlmostDone?
    ensures TrailerKept(HeaderPass(c, ch, next))
  {
  }

  lemma LineTrailer(c: Control, ch: char, next: Peek)
    requires InTrailer(c) && c.errno.Ok? && c.state.HeaderAlmostDone?
    ensures TrailerKept(HeaderPass(c, ch, next))
  {
  }

  lemma {:induction false} EndTrailer(c: Control, ch: char, next: Peek)
    requires InTrailer(c) && c.errno.Ok? && c.state.HeaderValueLws?
    ensures TrailerKept(HeaderPass(c, ch, next))
  {
    assert FinishHeader(c.flags, c.headerState).trailing;
    hide FinishHeader;
    if ch == ' ' || ch == '\t' {
    } else {
    }
  }

  lemma FoldTrailer(c: Control, ch: char, next: Peek)
    requires InTrailer(c) && c.errno.Ok?
    requires c.state.HeaderValueDiscardWsAlmostDone? || c.state.HeaderValueDiscardLws?
    ensures TrailerKept(HeaderPass(c, ch, next))
  {
  }

  lemma {:induction false} DispatchTrailer(c: Control, ch: char, next: Peek)
    requires InTrailer(c) && c.errno.Ok?
    ensures TrailerKept(Dispatch(c, ch, next))
  {
    hide HeaderPass, TrailerKept, GroupOf;
    HeaderLineGroup(c.state);
    match c.state
    case HeaderValueDiscardWs => BlankTrailer(c, ch, next);
    case HeaderValueStart => BlankTrailer(c, ch, next);
    case HeaderValue => ValueTrailer(c, ch, next);
    case HeaderFieldStart => StartTrailer(c, ch, next);
    case HeaderField => NameTrailer(c, ch, next);
    case HeadersAlmostDone => StartTrailer(c, ch, next);
    case HeaderAlmostDone => LineTrailer(c, ch, next);
    case HeaderValueLws => EndTrailer(c, ch, next);
    case _ => FoldTrailer(c, ch, next);
  }

  lemma NotBody(s: State)
    ensures HeaderLine(s) ==> !InBody(s)
  {
  }

  lemma RecordBody(s: Snapshot, p: Pass, ch: char)
    requires !InBody(s.c.state) && (SpanFits(s.c.state, p.act, p.c.state) || p.act.MessageComplete? || p.act.Nothing?)
    requires !InBody(p.c.state)
    ensures Record(s.r, p.act, p.c, ch).body == s.r.body
  {
  }

  lemma {:induction false} PassesTrailer(s: Snapshot, ch: char, next: Peek)
    requires !Stopped(s) && Sound(s.c, 1) && InTrailer(s.c)
    ensures var t := Passes(s, ch, next); t.c.errno.Ok? ==> t.r.body == s.r.body
    ensures var t := Passes(s, ch, next); !Stopped(t) ==> InTrailer(t.c)
    decreases Rank(s.c.state)
  {
    hide Dispatch, Sound, HeaderLine, SpanFits, InBody, NoSpan, Record;
    var p := Dispatch(s.c, ch, next);
    DispatchKept(s.c, ch, next);
    DispatchTrailer(s.c, ch, next);
    AgainDecreases(s.c, ch, next);
    CompleteOnlyByMessage(s.r, p.act, p.c, ch);
    NotBody(s.c.state);
    NotBody(p.c.state);
    if p.act.MessageComplete? {
      CompleteBody(s.r, p.act, p.c, ch);
    } else if p.c.errno.Ok? {
      RecordBody(s, p, ch);
      if p.again { PassesTrailer(Snapshot(p.c, Record(s.r, p.act, p.c, ch)), ch, next); }
    }
  }

  lemma CompleteBody(r: Request, act: Act, c: Control, ch: char)
    requires act.MessageComplete?
    ensures Record(r, act, c, ch).body == r.body
  {
  }

  /** Trailing headers add nothing to the body. */
  lemma {:induction false} TrailersKeepBody(s: Snapshot, data: string, p: nat)
    requires p <= |data| && !Stopped(s) && Good(s) && InTrailer(s.c)
    ensures var t := RunTo(s, data, p); t.c.errno.Ok? ==> t.r.body == s.r.body
    ensures var t := RunTo(s, data, p); !Stopped(t) ==> InTrailer(t.c)
  {
    hide Passes, HeaderLine, Sound, Building;
    if p > 0 {
      TrailersKeepBody(s, data, p - 1);
      RunGood(s, data, p - 1);
      var t := RunTo(s, data, p - 1);
      if !Stopped(t) && CountByte(t.c).errno.Ok? {
        CountSound(t.c);
        PassesTrailer(t.(c := CountByte(t.c)), data[p - 1], Ahead(data, p));
      }
    }
  }

  function PayloadOf(v: Verdict): string
    requires !v.Rejected?
  {
    if v.Reading? then v.payload else v.payload
  }

  /** On every error-free run of a chunked body, up to any point and through any trailing
      headers, the body delivered is exactly the payload of the chunks. */
  lemma {:induction false} BodyIsPayload(s: Snapshot, data: string)
    requires Good(s) && Chunky(s) && s.c.state.ChunkSizeStart? && Feed(s, data).c.errno.Ok?
    ensures !Dechunk(data).Rejected? && Feed(s, data).r.body == s.r.body + PayloadOf(Dechunk(data))
  {
    hide RunTo, Dechunk;
    ChunkedBody(s, data);
    var v := Dechunk(data);
    if v.Ended? {
      var t := Snapshot(s.c.(nread := 0, contentLength := 0, state := HeaderFieldStart,
                             flags := s.c.flags.(trailing := true)),
                        s.r.(body := s.r.body + v.payload));
      TrailersKeepBody(t, v.rest, |v.rest|);
    }
  }

  // ---------------------------------------------------------------- digits

  predicate AsciiHex(c: char) { '0' <= c <= '9' || 'a' <= c <= 'f' || 'A' <= c <= 'F' }

  /** A chunk-size byte is a hexadecimal digit, exactly if it is an ASCII byte: the table leaves
      the upper half of its entries zero, so a byte from 128 up passes for a digit zero. */
  lemma HexDigitOrNot(c: char)
    ensures Unhex(c) != -1 <==> AsciiHex(c) || 128 as char <= c
    ensures 128 as char <= c ==> Unhex(c) == 0
  {
  }

  /** A chunk whose size is written with the byte 128 is taken for the last chunk: the parser, at the
      start of a chunk, goes on to the trailing headers. */
  lemma {:induction false} HighByteIsZero(s: Snapshot)
    requires Chunky(s) && s.c.state.ChunkSizeStart? && s.c.nread == 0
    ensures Dechunk("\U{80}\r\n") == Ended("", "")
    ensures Feed(s, "\U{80}\r\n") ==
            Snapshot(s.c.(contentLength := 0, state := HeaderFieldStart, flags := s.c.flags.(trailing := true)), s.r)
  {
    var data := "\U{80}\r\n";
    hide Dechunk, Step;
    assert data[0..1] == "\U{80}" && "\U{80}"[..0] == "" && data[3..] == "";
    SizeLine(data, 1, 1);
    ZeroEnds("");
    ChunkedBody(s, data);
    assert s.r.body + "" == s.r.body;
    RunNothing(Snapshot(s.c.(nread := 0, contentLength := 0, state := HeaderFieldStart,
                             flags := s.c.flags.(trailing := true)), s.r), "");
  }
}
