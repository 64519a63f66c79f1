/** The parser's control fields and what one pass through its `switch` does to them. */
module HttpControl {
  import opened HttpTables

  /** `CROW_HTTP_MAX_HEADER_SIZE` */
  const MAX_HEADER_SIZE := 80 * 1024
  /** `CROW_ULLONG_MAX`: the "no Content-Length" marker */
  const ULLONG_MAX := 0xFFFF_FFFF_FFFF_FFFF

  datatype State =
    | Dead | StartReq | ReqMethod | ReqSpacesBeforeUrl | ReqSchema | ReqSchemaSlash
    | ReqSchemaSlashSlash | ReqServerStart | ReqServer | ReqServerWithAt | ReqPath
    | ReqQueryStringStart | ReqQueryString | ReqHttpStart | ReqHttpH | ReqHttpHT | ReqHttpHTT
    | ReqHttpHTTP | ReqHttpI | ReqHttpIC | ReqHttpMajor | ReqHttpDot | ReqHttpMinor
    | ReqHttpEnd | ReqLineAlmostDone
    | HeaderFieldStart | HeaderField | HeaderValueDiscardWs | HeaderValueDiscardWsAlmostDone
    | HeaderValueDiscardLws | HeaderValueStart | HeaderValue | HeaderValueLws
    | HeaderAlmostDone
    | ChunkSizeStart | ChunkSize | ChunkParameters | ChunkSizeAlmostDone
    | HeadersAlmostDone | HeadersDone
    | ChunkData | ChunkDataAlmostDone | ChunkDataDone
    | BodyIdentity | BodyIdentityEof | MessageDone

  /** `CROW_PARSING_HEADER` */
  predicate ParsingHeader(s: State) {
    !s.ChunkData? && !s.ChunkDataAlmostDone? && !s.ChunkDataDone?
    && !s.BodyIdentity? && !s.BodyIdentityEof? && !s.MessageDone?
  }

  datatype HeaderState =
    | General | C | CO | CON
    | MatchingConnection | MatchingProxyConnection | MatchingContentLength
    | MatchingTransferEncoding | MatchingUpgrade
    | Connection | ContentLength | ContentLengthNum | ContentLengthWs | TransferEncoding | Upgrade
    | MatchingTokenStart | MatchingChunked | MatchingToken
    | MatchingKeepAlive | MatchingClose
    | Chunked | ConnectionKeepAlive | ConnectionClose

  /** The seven bits of the `flags` field. */
  datatype Flags = Flags(chunked: bool, keepAlive: bool, close: bool, trailing: bool,
                         upgrade: bool, skipBody: bool, contentLength: bool)

  const NO_FLAGS := Flags(false, false, false, false, false, false, false)

  /** `AssertFailed` records that one of the source's own `assert`s did not hold. */
  datatype Errno =
    | Ok | InvalidEofState | HeaderOverflow | ClosedConnection | InvalidVersion | InvalidMethod
    | InvalidUrl | LfExpected | InvalidHeaderToken | InvalidContentLength
    | UnexpectedContentLength | InvalidChunkSize | InvalidConstant | Strict
    | InvalidTransferEncoding | AssertFailed

  /** The fields of `struct http_parser`. */
  datatype Control = Control(
    state: State, headerState: HeaderState, index: nat, flags: Flags,
    usesTransferEncoding: bool, allowChunkedLength: bool, lenient: bool,
    nread: nat, contentLength: nat, major: nat, minor: nat, verb: Method,
    upgrade: bool, errno: Errno)

  datatype Piece = Url | FieldName | FieldValue | Body

  /** What a pass asks of the callbacks. `Mark` is `CROW_MARK`: the span begins here unless it
      has begun; `In` is a byte inside a span; `Last` is the final body byte, delivered at
      once; `Data` delivers the open span; `Empty` marks and delivers an empty span. */
  datatype Act =
    | Nothing | OnMethod | Mark(piece: Piece) | In(piece: Piece) | Last(piece: Piece)
    | Data(piece: Piece) | Empty(piece: Piece) | HeadersComplete | MessageComplete

  /** Result of one pass: the new fields, the callback, and whether `reexecute` is taken. */
  datatype Pass = Pass(c: Control, act: Act, again: bool)

  function Fail(c: Control, e: Errno): Pass { Pass(c.(errno := e), Nothing, false) }

  function Goto(c: Control, s: State): Pass { Pass(c.(state := s), Nothing, false) }

  /** `++parser->index` on a five-bit field. */
  function Next(index: nat): nat { (index + 1) % 32 }

  // ---------------------------------------------------------------- request line

  function ParseUrlChar(s: State, ch: char): State {
    if ch == ' ' || ch == CR || ch == LF || ch == '\t' || ch == 12 as char then Dead
    else match s
      case ReqSpacesBeforeUrl =>
        if ch == '/' || ch == '*' then ReqPath else if IsAlpha(ch) then ReqSchema else Dead
      case ReqSchema =>
        if IsAlpha(ch) then ReqSchema else if ch == ':' then ReqSchemaSlash else Dead
      case ReqSchemaSlash => if ch == '/' then ReqSchemaSlashSlash else Dead
      case ReqSchemaSlashSlash => if ch == '/' then ReqServerStart else Dead
      case ReqServerWithAt => if ch == '@' then Dead else ServerChar(ch)
      case ReqServerStart => ServerChar(ch)
      case ReqServer => ServerChar(ch)
      case ReqPath =>
        if IsUrlChar(ch) then ReqPath else if ch == '?' then ReqQueryStringStart else Dead
      case ReqQueryStringStart => if IsUrlChar(ch) || ch == '?' then ReqQueryString else Dead
      case ReqQueryString => if IsUrlChar(ch) || ch == '?' then ReqQueryString else Dead
      case _ => Dead
  }

  function ServerChar(ch: char): State {
    if ch == '/' then ReqPath
    else if ch == '?' then ReqQueryStringStart
    else if ch == '@' then ReqServerWithAt
    else if IsUserInfoChar(ch) || ch == '[' || ch == ']' then ReqServer
    else Dead
  }

  function UrlChar(c: Control, act: Act, from: State, ch: char): Pass {
    var s := ParseUrlChar(from, ch);
    if s.Dead? then Fail(c.(state := Dead), InvalidUrl) else Pass(c.(state := s), act, false)
  }

  function StartPass(c: Control, ch: char): Pass {
    match c.state
    case Dead =>
      if ch == CR || ch == LF then Goto(c, Dead) else Fail(c, ClosedConnection)
    case StartReq =>
      if ch == CR || ch == LF then Goto(c, StartReq) else
      var d := c.(flags := NO_FLAGS, usesTransferEncoding := false, contentLength := ULLONG_MAX);
      if !IsAlpha(ch) then Fail(d, InvalidMethod) else
      (match FirstGuess(ch)
       case Unknown => Fail(d, InvalidMethod)
       case Known(m) => Goto(d.(verb := m, index := 1), ReqMethod))
    case ReqMethod =>
      var matcher := MethodString(c.verb);
      if ch == NUL then Fail(c, InvalidMethod)
      else if ch == ' ' && StrAt(matcher, c.index) == NUL then
        Pass(c.(state := ReqSpacesBeforeUrl, index := Next(c.index)), OnMethod, false)
      else if ch == StrAt(matcher, c.index) then
        Pass(c.(index := Next(c.index)), OnMethod, false)
      else
        (match Revise(c.verb, c.index, ch)
         case Unknown => Fail(c, InvalidMethod)
         case Known(m) => Pass(c.(verb := m, index := Next(c.index)), OnMethod, false))
    case _ => Fail(c, AssertFailed)
  }

  function UrlPass(c: Control, ch: char): Pass {
    match c.state
    case ReqSpacesBeforeUrl =>
      if ch == ' ' then Goto(c, ReqSpacesBeforeUrl)
      else UrlChar(c, Mark(Url), if c.verb == Connect then ReqServerStart else c.state, ch)
    case ReqSchema => UrlNoSpace(c, ch)
    case ReqSchemaSlash => UrlNoSpace(c, ch)
    case ReqSchemaSlashSlash => UrlNoSpace(c, ch)
    case ReqServerStart => UrlNoSpace(c, ch)
    case _ =>
      if ch == ' ' then Pass(c.(state := ReqHttpStart), Data(Url), false)
      else if ch == CR || ch == LF then
        if c.verb != Get then Fail(c.(state := Dead), InvalidVersion)
        else Pass(c.(major := 0, minor := 9,
                     state := if ch == CR then ReqLineAlmostDone else HeaderFieldStart),
                  Data(Url), false)
      else UrlChar(c, In(Url), c.state, ch)
  }

  function UrlNoSpace(c: Control, ch: char): Pass {
    if ch == ' ' || ch == CR || ch == LF then Fail(c, InvalidUrl) else UrlChar(c, In(Url), c.state, ch)
  }

  function Expect(c: Control, ch: char, want: char, next: State, e: Errno): Pass {
    if ch == want then Goto(c, next) else Fail(c, e)
  }

  function VersionPass(c: Control, ch: char): Pass {
    match c.state
    case ReqHttpStart =>
      if ch == ' ' then Goto(c, ReqHttpStart)
      else if ch == 'H' then Goto(c, ReqHttpH)
      else if ch == 'I' && c.verb == Source then Goto(c, ReqHttpI)
      else Fail(c, InvalidConstant)
    case ReqHttpH => Expect(c, ch, 'T', ReqHttpHT, Strict)
    case ReqHttpHT => Expect(c, ch, 'T', ReqHttpHTT, Strict)
    case ReqHttpHTT => Expect(c, ch, 'P', ReqHttpHTTP, Strict)
    case ReqHttpI => Expect(c, ch, 'C', ReqHttpIC, Strict)
    case ReqHttpIC => Expect(c, ch, 'E', ReqHttpHTTP, Strict)
    case ReqHttpHTTP => Expect(c, ch, '/', ReqHttpMajor, Strict)
    case ReqHttpMajor =>
      if !IsNum(ch) then Fail(c, InvalidVersion)
      else Goto(c.(major := ch as int - '0' as int), ReqHttpDot)
    case ReqHttpDot => Expect(c, ch, '.', ReqHttpMinor, InvalidVersion)
    case ReqHttpMinor =>
      if !IsNum(ch) then Fail(c, InvalidVersion)
      else Goto(c.(minor := ch as int - '0' as int), ReqHttpEnd)
    case ReqHttpEnd =>
      if ch == CR then Goto(c, ReqLineAlmostDone)
      else Expect(c, ch, LF, HeaderFieldStart, InvalidVersion)
    case ReqLineAlmostDone => Expect(c, ch, LF, HeaderFieldStart, LfExpected)
    case _ => Fail(c, AssertFailed)
  }

  // ---------------------------------------------------------------- header names

  /** The part of the fields that the inner loop over a header name or value updates. */
  datatype Scan = Scan(h: HeaderState, index: nat, usesTransferEncoding: bool,
                       contentLength: nat, errno: Errno)

  function ScanOf(c: Control): Scan {
    Scan(c.headerState, c.index, c.usesTransferEncoding, c.contentLength, c.errno)
  }

  function WithScan(c: Control, k: Scan): Control {
    c.(headerState := k.h, index := k.index, usesTransferEncoding := k.usesTransferEncoding,
       contentLength := k.contentLength, errno := k.errno)
  }

  /** One letter of a name being compared with `word`; `found` when its last letter matches. */
  function MatchName(k: Scan, t: char, word: string, found: HeaderState): Scan {
    var i := Next(k.index);
    if i > |word| || t != StrAt(word, i) then k.(index := i, h := General)
    else if i == |word| - 1 then k.(index := i, h := found)
    else k.(index := i)
  }

  /** The switch on `header_state` for the token character `t` of a header name. */
  function NameStep(k: Scan, t: char): Scan {
    match k.h
    case General => k
    case C => k.(index := Next(k.index), h := if t == 'o' then CO else General)
    case CO => k.(index := Next(k.index), h := if t == 'n' then CON else General)
    case CON =>
      k.(index := Next(k.index),
         h := if t == 'n' then MatchingConnection
              else if t == 't' then MatchingContentLength else General)
    case MatchingConnection => MatchName(k, t, "connection", Connection)
    case MatchingProxyConnection => MatchName(k, t, "proxy-connection", Connection)
    case MatchingContentLength => MatchName(k, t, "content-length", ContentLength)
    case MatchingTransferEncoding =>
      var r := MatchName(k, t, "transfer-encoding", TransferEncoding);
      if r.h.TransferEncoding? then r.(usesTransferEncoding := true) else r
    case MatchingUpgrade => MatchName(k, t, "upgrade", Upgrade)
    case Connection => k.(h := General)
    case ContentLength => k.(h := General)
    case TransferEncoding => k.(h := General)
    case Upgrade => k.(h := General)
    case _ => k.(errno := AssertFailed)
  }

  // ---------------------------------------------------------------- header values

  /** The header state in which the value begins. */
  function FirstHeaderState(t: char): HeaderState {
    match t
    case 'c' => C
    case 'p' => MatchingProxyConnection
    case 't' => MatchingTransferEncoding
    case 'u' => MatchingUpgrade
    case _ => General
  }

  /** `s_header_value_start`. `next` is the next byte of the same buffer, if there is one: the
      test for "h2" looks ahead. */
  function ValueStartPass(c: Control, ch: char, next: Peek): Pass {
    var d := c.(state := HeaderValue, index := 0);
    var l := Lower(ch);
    match c.headerState
    case Upgrade =>
      var plain := ch != 'h' || next != Byte('2');
      Pass(d.(headerState := General,
              flags := if plain then d.flags.(upgrade := true) else d.flags), Mark(FieldValue), false)
    case TransferEncoding =>
      Pass(d.(headerState := if l == 'c' then MatchingChunked else MatchingToken), Mark(FieldValue), false)
    case MatchingTokenStart => Pass(d, Mark(FieldValue), false)
    case ContentLength =>
      if !IsNum(ch) then Fail(d, InvalidContentLength)
      else if d.flags.contentLength then Fail(d, UnexpectedContentLength)
      else Pass(d.(flags := d.flags.(contentLength := true),
                   contentLength := ch as int - '0' as int,
                   headerState := ContentLengthNum), Mark(FieldValue), false)
    case ContentLengthWs => Pass(d, Mark(FieldValue), false)
    case Connection =>
      Pass(d.(headerState := if l == 'k' then MatchingKeepAlive
                             else if l == 'c' then MatchingClose
                             else if l == ' ' || l == '\t' then Connection
                             else General), Mark(FieldValue), false)
    case _ => Pass(d.(headerState := General), Mark(FieldValue), false)
  }

  function MatchValue(k: Scan, l: char, word: string, found: HeaderState, other: HeaderState): Scan {
    var i := Next(k.index);
    if i > |word| || l != StrAt(word, i) then k.(index := i, h := other)
    else if i == |word| - 1 then k.(index := i, h := found)
    else k.(index := i)
  }

  function ContentLengthStep(k: Scan, ch: char): Scan {
    if ch == ' ' then k.(h := ContentLengthWs)
    else if !IsNum(ch) then k.(h := ContentLengthNum, errno := InvalidContentLength)
    else if (ULLONG_MAX - 10) / 10 < k.contentLength then
      k.(h := ContentLengthNum, errno := InvalidContentLength)
    else k.(h := ContentLengthNum,
            contentLength := (k.contentLength * 10 + ch as int - '0' as int) % (ULLONG_MAX + 1))
  }

  /** The switch on `h_state` for one byte of a header value. */
  function ValueStep(k: Scan, ch: char): Scan {
    var l := Lower(ch);
    match k.h
    case General => k
    case Connection => k.(errno := AssertFailed)
    case TransferEncoding => k.(errno := AssertFailed)
    case ContentLength => if ch == ' ' then k else ContentLengthStep(k, ch)
    case ContentLengthNum => ContentLengthStep(k, ch)
    case ContentLengthWs => if ch == ' ' then k else k.(errno := InvalidContentLength)
    case MatchingTokenStart =>
      k.(h := if l == 'c' then MatchingChunked
              else if IsToken(l) then MatchingToken
              else if l == ' ' || l == '\t' then MatchingTokenStart
              else General)
    case MatchingChunked => MatchValue(k, l, "chunked", Chunked, MatchingToken)
    case MatchingToken =>
      if ch == ',' then k.(h := MatchingTokenStart, index := 0) else k
    case MatchingKeepAlive => MatchValue(k, l, "keep-alive", ConnectionKeepAlive, General)
    case MatchingClose => MatchValue(k, l, "close", ConnectionClose, General)
    case Chunked => if ch != ' ' then k.(h := MatchingToken) else k
    case ConnectionKeepAlive => if ch != ' ' then k.(h := General) else k
    case ConnectionClose => if ch != ' ' then k.(h := General) else k
    case _ => k.(h := General)
  }

  function FinishHeader(f: Flags, h: HeaderState): Flags {
    match h
    case ConnectionKeepAlive => f.(keepAlive := true)
    case ConnectionClose => f.(close := true)
    case Chunked => f.(chunked := true)
    case _ => f
  }

  function HeaderPass(c: Control, ch: char, next: Peek): Pass {
    match c.state
    case HeaderFieldStart =>
      if ch == CR then Goto(c, HeadersAlmostDone)
      else if ch == LF then Pass(c.(state := HeadersAlmostDone), Nothing, true)
      else if !IsToken(ch) then Fail(c, InvalidHeaderToken)
      else Pass(c.(index := 0, state := HeaderField, headerState := FirstHeaderState(TokenOf(ch))),
                Mark(FieldName), false)
    case HeaderField =>
      if IsToken(ch) then Pass(WithScan(c, NameStep(ScanOf(c), TokenOf(ch))), In(FieldName), false)
      else if ch == ':' then Pass(c.(state := HeaderValueDiscardWs), Data(FieldName), false)
      else Fail(c, InvalidHeaderToken)
    case HeaderValueDiscardWs =>
      if ch == ' ' || ch == '\t' then Goto(c, HeaderValueDiscardWs)
      else if ch == CR then Goto(c, HeaderValueDiscardWsAlmostDone)
      else if ch == LF then Goto(c, HeaderValueDiscardLws)
      else ValueStartPass(c, ch, next)
    case HeaderValueStart => ValueStartPass(c, ch, next)
    case HeaderValue =>
      if ch == CR then Pass(c.(state := HeaderAlmostDone), Data(FieldValue), false)
      else if ch == LF then Pass(c.(state := HeaderAlmostDone), Data(FieldValue), true)
      else if !c.lenient && !IsHeaderChar(ch) then Fail(c, InvalidHeaderToken)
      else Pass(WithScan(c, ValueStep(ScanOf(c), ch)), In(FieldValue), false)
    case HeaderAlmostDone => Expect(c, ch, LF, HeaderValueLws, LfExpected)
    case HeaderValueLws =>
      if ch == ' ' || ch == '\t' then
        Pass(c.(headerState := if c.headerState.ContentLengthNum? then ContentLengthWs else c.headerState,
                state := HeaderValueStart), Nothing, true)
      else Pass(c.(flags := FinishHeader(c.flags, c.headerState), state := HeaderFieldStart), Nothing, true)
    case HeaderValueDiscardWsAlmostDone => Expect(c, ch, LF, HeaderValueDiscardLws, Strict)
    case HeaderValueDiscardLws =>
      if ch == ' ' || ch == '\t' then Goto(c, HeaderValueDiscardWs)
      else Pass(c.(state := HeaderFieldStart), Empty(FieldValue), true)
    case HeadersAlmostDone =>
      if ch != LF then Fail(c, Strict)
      else if c.flags.trailing then Pass(c, MessageComplete, false)
      else if c.usesTransferEncoding && c.flags.contentLength
              && (if c.flags.chunked then !c.allowChunkedLength else !c.lenient) then
        Fail(c, UnexpectedContentLength)
      else Pass(c.(state := HeadersDone, upgrade := c.flags.upgrade || c.verb == Connect),
                HeadersComplete, true)
    case HeadersDone =>
      var d := c.(nread := 0);
      if ch != LF then Fail(c, Strict)
      else if c.upgrade || c.flags.skipBody then Pass(d, MessageComplete, false)
      else if c.flags.chunked then Goto(d, ChunkSizeStart)
      else if c.usesTransferEncoding then
        if c.lenient then Goto(d, BodyIdentityEof) else Fail(d, InvalidTransferEncoding)
      else if c.contentLength == 0 || c.contentLength == ULLONG_MAX then Pass(d, MessageComplete, false)
      else Goto(d, BodyIdentity)
    case _ => Fail(c, AssertFailed)
  }

  // ---------------------------------------------------------------- body

  predicate LengthKnown(c: Control) { c.contentLength != 0 && c.contentLength != ULLONG_MAX }

  function BodyPass(c: Control, ch: char): Pass {
    match c.state
    case BodyIdentity =>
      if !LengthKnown(c) then Fail(c, AssertFailed)
      else if c.contentLength == 1 then
        Pass(c.(contentLength := 0, state := MessageDone), Last(Body), true)
      else Pass(c.(contentLength := c.contentLength - 1), Mark(Body), false)
    case BodyIdentityEof => Pass(c, Mark(Body), false)
    case MessageDone => Pass(c, MessageComplete, false)
    case _ =>
      if !c.flags.chunked then Fail(c, AssertFailed) else ChunkPass(c, ch)
  }

  function ChunkPass(c: Control, ch: char): Pass {
    match c.state
    case ChunkSizeStart =>
      if c.nread != 1 then Fail(c, AssertFailed)
      else if Unhex(ch) == -1 then Fail(c, InvalidChunkSize)
      else Goto(c.(contentLength := Unhex(ch)), ChunkSize)
    case ChunkSize =>
      if ch == CR then Goto(c, ChunkSizeAlmostDone)
      else if Unhex(ch) == -1 then
        if ch == ';' || ch == ' ' then Goto(c, ChunkParameters) else Fail(c, InvalidChunkSize)
      else if (ULLONG_MAX - 16) / 16 < c.contentLength then Fail(c, InvalidContentLength)
      else Goto(c.(contentLength := (c.contentLength * 16 + Unhex(ch)) % (ULLONG_MAX + 1)), ChunkSize)
    case ChunkParameters =>
      if ch == CR then Goto(c, ChunkSizeAlmostDone) else Goto(c, ChunkParameters)
    case ChunkSizeAlmostDone =>
      if ch != LF then Fail(c, Strict)
      else if c.contentLength == 0 then
        Goto(c.(nread := 0, flags := c.flags.(trailing := true)), HeaderFieldStart)
      else Goto(c.(nread := 0), ChunkData)
    case ChunkData =>
      if !LengthKnown(c) then Fail(c, AssertFailed)
      else Pass(c.(contentLength := c.contentLength - 1,
                   state := if c.contentLength == 1 then ChunkDataAlmostDone else ChunkData),
                Mark(Body), false)
    case ChunkDataAlmostDone =>
      if c.contentLength != 0 then Fail(c, AssertFailed)
      else if ch != CR then Fail(c, Strict)
      else Pass(c.(state := ChunkDataDone), Data(Body), false)
    case ChunkDataDone =>
      if ch != LF then Fail(c, Strict) else Goto(c.(nread := 0), ChunkSizeStart)
    case _ => Fail(c, AssertFailed)
  }

  // ---------------------------------------------------------------- the whole switch

  datatype Group = StartGroup | UrlGroup | VersionGroup | HeaderGroup | BodyGroup

  function GroupOf(s: State): Group {
    match s
    case Dead => StartGroup case StartReq => StartGroup case ReqMethod => StartGroup
    case ReqSpacesBeforeUrl => UrlGroup case ReqSchema => UrlGroup case ReqSchemaSlash => UrlGroup
    case ReqSchemaSlashSlash => UrlGroup case ReqServerStart => UrlGroup case ReqServer => UrlGroup
    case ReqServerWithAt => UrlGroup case ReqPath => UrlGroup
    case ReqQueryStringStart => UrlGroup case ReqQueryString => UrlGroup
    case ReqHttpStart => VersionGroup case ReqHttpH => VersionGroup case ReqHttpHT => VersionGroup
    case ReqHttpHTT => VersionGroup case ReqHttpHTTP => VersionGroup case ReqHttpI => VersionGroup
    case ReqHttpIC => VersionGroup case ReqHttpMajor => VersionGroup case ReqHttpDot => VersionGroup
    case ReqHttpMinor => VersionGroup case ReqHttpEnd => VersionGroup
    case ReqLineAlmostDone => VersionGroup
    case ChunkSizeStart => BodyGroup case ChunkSize => BodyGroup case ChunkParameters => BodyGroup
    case ChunkSizeAlmostDone => BodyGroup case ChunkData => BodyGroup
    case ChunkDataAlmostDone => BodyGroup case ChunkDataDone => BodyGroup
    case BodyIdentity => BodyGroup case BodyIdentityEof => BodyGroup case MessageDone => BodyGroup
    case _ => HeaderGroup
  }

  function Dispatch(c: Control, ch: char, next: Peek): Pass {
    match GroupOf(c.state)
    case StartGroup => StartPass(c, ch)
    case UrlGroup => UrlPass(c, ch)
    case VersionGroup => VersionPass(c, ch)
    case HeaderGroup => HeaderPass(c, ch, next)
    case BodyGroup => BodyPass(c, ch)
  }
}
