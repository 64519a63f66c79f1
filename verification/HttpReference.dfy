/** The request assembled by the callbacks of `HTTPParser`, and the byte-at-a-time reference:
    what one byte does to the parser, without spans, marks or inner loops. */
module HttpReference {
  import opened HttpTables
  import opened HttpControl

  /** The fields `HTTPParser` fills from its callbacks. A string that has been moved from is
      taken to be empty. */
  datatype Request = Request(
    verb: Method, rawUrl: string,
    buildingState: int, field: string, value: string,
    headers: seq<(string, string)>, keepAlive: bool, closeConnection: bool, upgrade: bool,
    body: string, complete: bool)

  function OnHeaderField(r: Request, at: string): Request {
    if r.buildingState == 0 then
      var emitted := r.value != "";
      r.(headers := if emitted then r.headers + [(r.field, r.value)] else r.headers,
         value := "", field := at, buildingState := 1)
    else if r.buildingState == 1 then r.(field := r.field + at)
    else r
  }

  function OnHeaderValue(r: Request, at: string): Request {
    if r.buildingState == 0 then r.(value := r.value + at)
    else if r.buildingState == 1 then r.(buildingState := 0, value := at)
    else r
  }

  /** A data callback with the bytes `at`. */
  function Deliver(r: Request, piece: Piece, at: string): Request {
    match piece
    case Url => r.(rawUrl := r.rawUrl + at)
    case FieldName => OnHeaderField(r, at)
    case FieldValue => OnHeaderValue(r, at)
    case Body => r.(body := r.body + at)
  }

  function OnHeadersComplete(r: Request, c: Control): Request {
    var old10 := c.major == 1 && c.minor == 0;
    var now11 := c.major == 1 && c.minor == 1;
    r.(headers := if r.field != "" then r.headers + [(r.field, r.value)] else r.headers,
       field := "", value := if r.field != "" then "" else r.value,
       keepAlive := if old10 then c.flags.keepAlive else now11,
       closeConnection := if old10 then !c.flags.keepAlive else now11 && c.flags.close,
       upgrade := c.upgrade)
  }

  /** A parser together with the request it has assembled. */
  datatype Snapshot = Snapshot(c: Control, r: Request)

  predicate Stopped(s: Snapshot) { !s.c.errno.Ok? || s.r.complete }

  /** Callbacks for a single byte: a byte of a span is delivered as soon as it is read. */
  function Record(r: Request, act: Act, c: Control, ch: char): Request {
    match act
    case Nothing => r
    case OnMethod => r.(verb := c.verb)
    case Mark(f) => Deliver(r, f, [ch])
    case In(f) => Deliver(r, f, [ch])
    case Last(f) => Deliver(r, f, [ch])
    case Data(f) => Deliver(r, f, [])
    case Empty(f) => Deliver(r, f, [])
    case HeadersComplete => OnHeadersComplete(r, c)
    case MessageComplete => r.(complete := true)
  }

  /** How many more passes over the same byte a state can lead to. */
  function Rank(s: State): nat {
    match s
    case HeaderValueLws => 4
    case HeaderValueDiscardLws => 4
    case HeaderFieldStart => 3
    case HeadersAlmostDone => 2
    case HeaderValue => 5
    case HeaderAlmostDone => 0
    case BodyIdentity => 1
    case _ => 0
  }

  /** `CROW_COUNT_HEADER_SIZE(V)` on the 32-bit counter. */
  function Count(c: Control, v: nat): Control {
    var n := (c.nread + v) % 0x1_0000_0000;
    c.(nread := n, errno := if n > MAX_HEADER_SIZE then HeaderOverflow else c.errno)
  }

  function CountByte(c: Control): Control {
    if ParsingHeader(c.state) then Count(c, 1) else c
  }

  lemma StartNeverAgain(c: Control, ch: char)
    ensures !StartPass(c, ch).again
  {
  }

  lemma UrlNeverAgain(c: Control, ch: char)
    ensures !UrlPass(c, ch).again
  {
  }

  lemma VersionNeverAgain(c: Control, ch: char)
    ensures !VersionPass(c, ch).again
  {
  }

  lemma {:induction false} HeaderAgainDecreases(c: Control, ch: char, next: Peek)
    ensures var p := HeaderPass(c, ch, next);
            p.again ==> Rank(p.c.state) < Rank(c.state) && p.c.errno == c.errno
  {
    hide NameStep, ValueStep;
    assert !ValueStartPass(c, ch, next).again;
  }

  lemma ChunkNeverAgain(c: Control, ch: char)
    ensures !ChunkPass(c, ch).again
  {
  }

  lemma {:induction false} BodyAgainDecreases(c: Control, ch: char)
    ensures var p := BodyPass(c, ch);
            p.again ==> Rank(p.c.state) < Rank(c.state) && p.c.errno == c.errno
  {
    hide ChunkPass;
    ChunkNeverAgain(c, ch);
  }

  lemma {:induction false} AgainDecreases(c: Control, ch: char, next: Peek)
    ensures var p := Dispatch(c, ch, next);
            p.again ==> Rank(p.c.state) < Rank(c.state) && p.c.errno == c.errno
  {
    hide StartPass, UrlPass, VersionPass, HeaderPass, BodyPass, Rank, GroupOf;
    StartNeverAgain(c, ch);
    UrlNeverAgain(c, ch);
    VersionNeverAgain(c, ch);
    HeaderAgainDecreases(c, ch, next);
    BodyAgainDecreases(c, ch);
  }

  /** Passes over one byte until `reexecute` is no longer taken. */
  function Passes(s: Snapshot, ch: char, next: Peek): Snapshot
    decreases Rank(s.c.state)
  {
    var p := Dispatch(s.c, ch, next);
    var t := Snapshot(p.c, Record(s.r, p.act, p.c, ch));
    AgainDecreases(s.c, ch, next);
    if p.again then Passes(t, ch, next) else t
  }

  /** The effect of one byte. */
  function Step(s: Snapshot, ch: char, next: Peek): Snapshot {
    if Stopped(s) then s
    else
      var c := CountByte(s.c);
      if !c.errno.Ok? then s.(c := c) else Passes(s.(c := c), ch, next)
  }

  /** The look-ahead byte available after the first `p` bytes of a buffer. */
  function Ahead(data: string, p: nat): Peek {
    if p < |data| then Byte(data[p]) else End
  }

  /** The effect of the first `p` bytes of a buffer. */
  function RunTo(s: Snapshot, data: string, p: nat): Snapshot
    requires p <= |data|
  {
    if p == 0 then s else Step(RunTo(s, data, p - 1), data[p - 1], Ahead(data, p))
  }

  /** The effect of a whole buffer. */
  function Feed(s: Snapshot, data: string): Snapshot { RunTo(s, data, |data|) }
}
