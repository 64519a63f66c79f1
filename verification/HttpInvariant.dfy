/** What every byte keeps: the facts the source's `assert`s and its spans rely on. */
module HttpInvariant {
  import opened HttpTables
  import opened HttpControl
  import opened HttpReference

  /** Header states possible while a header name is being read. */
  predicate NameState(h: HeaderState) {
    h.General? || h.C? || h.CO? || h.CON? || h.MatchingConnection? || h.MatchingProxyConnection?
    || h.MatchingContentLength? || h.MatchingTransferEncoding? || h.MatchingUpgrade?
    || h.Connection? || h.ContentLength? || h.TransferEncoding? || h.Upgrade?
  }

  predicate ChunkState(s: State) {
    s.ChunkSizeStart? || s.ChunkSize? || s.ChunkParameters? || s.ChunkSizeAlmostDone?
    || s.ChunkData? || s.ChunkDataAlmostDone? || s.ChunkDataDone?
  }

  predicate LengthBeingRead(s: State) { s.ChunkSize? || s.ChunkParameters? || s.ChunkSizeAlmostDone? }

  /** The states of the header block. */
  predicate HeaderLine(s: State) {
    s.HeaderFieldStart? || s.HeaderField? || s.HeaderValueDiscardWs? || s.HeaderValueDiscardWsAlmostDone?
    || s.HeaderValueDiscardLws? || s.HeaderValueStart? || s.HeaderValue? || s.HeaderValueLws?
    || s.HeaderAlmostDone? || s.HeadersAlmostDone? || s.HeadersDone?
  }

  lemma HeaderLineGroup(s: State)
    ensures HeaderLine(s) <==> GroupOf(s).HeaderGroup?
  {
  }

  predicate InUrl(s: State) {
    s.ReqSchema? || s.ReqSchemaSlash? || s.ReqSchemaSlashSlash? || s.ReqServerStart? || s.ReqServer?
    || s.ReqServerWithAt? || s.ReqPath? || s.ReqQueryStringStart? || s.ReqQueryString?
  }

  /** Invariant of the control fields; `counted` is 1 between counting a header byte and
      dispatching on it. */
  predicate Sound(c: Control, counted: nat) {
    && c.nread <= MAX_HEADER_SIZE
    && (ParsingHeader(c.state) ==> counted <= c.nread)
    && c.contentLength <= ULLONG_MAX
    && (c.state.HeaderField? ==> NameState(c.headerState))
    && (c.state.HeaderValue? ==> 1 <= c.nread && !c.headerState.TransferEncoding?)
    && (ChunkState(c.state) ==> c.flags.chunked)
    && (c.state.ChunkSizeStart? ==> c.nread == counted)
    && (LengthBeingRead(c.state) ==> c.contentLength <= ULLONG_MAX - 16)
    && (c.state.BodyIdentity? || c.state.ChunkData? ==> LengthKnown(c))
    && (c.state.ChunkDataAlmostDone? ==> c.contentLength == 0)
    && (c.state.MessageDone? ==> counted == 1)
  }

  /** The one place where an `assert` of the source can fail: inside a `Connection` value whose
      first byte was taken for white space. */
  predicate Trap(c: Control, ch: char) {
    c.state.HeaderValue? && c.headerState.Connection? && ch != CR && ch != LF
    && (c.lenient || IsHeaderChar(ch))
  }

  /** The kind of span a state is in. A body span may still be waiting for its first byte. */
  datatype Kind = NoKind | UrlKind | NameKind | ValueKind | BodyKind

  function KindOf(s: State): Kind {
    if InUrl(s) then UrlKind
    else if s.HeaderField? then NameKind
    else if s.HeaderValue? then ValueKind
    else if s.BodyIdentity? || s.BodyIdentityEof? || s.ChunkData? || s.ChunkDataAlmostDone? then BodyKind
    else NoKind
  }

  predicate NoSpan(s: State) { KindOf(s).NoKind? }

  predicate InBody(s: State) { KindOf(s).BodyKind? }

  predicate OfPiece(k: Kind, f: Piece) {
    match f
    case Url => k.UrlKind?
    case FieldName => k.NameKind?
    case FieldValue => k.ValueKind?
    case Body => k.BodyKind?
  }

  /** Spans open, go on and close exactly where the state says so. */
  predicate SpanFits(from: State, act: Act, to: State) {
    match act
    case Mark(f) => OfPiece(KindOf(to), f) && (KindOf(from).NoKind? || OfPiece(KindOf(from), f))
    case In(f) => OfPiece(KindOf(from), f) && OfPiece(KindOf(to), f) && !f.Body?
    case Last(f) => f.Body? && OfPiece(KindOf(from), f) && KindOf(to).NoKind?
    case Data(f) => OfPiece(KindOf(from), f) && KindOf(to).NoKind?
    case Empty(f) => f.FieldValue? && KindOf(from).NoKind? && KindOf(to).NoKind?
    case _ => KindOf(from).NoKind? && (KindOf(to).NoKind? || KindOf(to).BodyKind?)
  }

  /** What one pass keeps. */
  predicate Kept(c: Control, p: Pass, ch: char) {
    && (p.c.errno.AssertFailed? <==> Trap(c, ch))
    && (p.c.errno.Ok? && !p.act.MessageComplete? ==>
          Sound(p.c, if p.again then 1 else 0) && SpanFits(c.state, p.act, p.c.state))
    && (p.again ==> p.c.errno.Ok? && NoSpan(p.c.state) && !p.act.MessageComplete?)
    && (p.act.MessageComplete? ==> p.c.errno.Ok? && NoSpan(c.state) && NoSpan(p.c.state))
  }

  /** States in which no span is open and no body is being read. */
  predicate Plain(s: State) { NoSpan(s) && !ChunkState(s) && !s.MessageDone? }

  /** A pass between plain states that neither counts nor resets header bytes. */
  predicate Quiet(c: Control, p: Pass) {
    && p.c.nread == c.nread && p.c.contentLength <= ULLONG_MAX
    && !p.c.errno.AssertFailed?
    && (p.again ==> p.c.errno.Ok?)
    && (p.act.Nothing? || p.act.OnMethod? || p.act.HeadersComplete?)
  }

  lemma QuietKept(c: Control, p: Pass, ch: char)
    requires Sound(c, 1) && Plain(c.state) && ParsingHeader(c.state)
    requires Quiet(c, p) && (p.c.errno.Ok? ==> Plain(p.c.state))
    ensures Kept(c, p, ch)
  {
  }

  lemma {:induction false} StartKept(c: Control, ch: char)
    requires c.errno.Ok? && Sound(c, 1) && GroupOf(c.state).StartGroup?
    ensures Kept(c, StartPass(c, ch), ch)
  {
    hide Revise, FirstGuess, MethodString, Kept;
    var s := c.state;
    assert Start(s) && Plain(s) && ParsingHeader(s);
    StartTargets(c, ch);
    QuietKept(c, StartPass(c, ch), ch);
  }

  predicate Start(s: State) { s.Dead? || s.StartReq? || s.ReqMethod? }

  lemma {:induction false} StartTargets(c: Control, ch: char)
    requires c.errno.Ok? && c.contentLength <= ULLONG_MAX && Start(c.state)
    ensures var p := StartPass(c, ch);
            Quiet(c, p) && (p.c.errno.Ok? ==> Start(p.c.state) || p.c.state.ReqSpacesBeforeUrl?)
  {
    hide Revise, FirstGuess, MethodString;
  }

  predicate Version(s: State) {
    s.ReqHttpStart? || s.ReqHttpH? || s.ReqHttpHT? || s.ReqHttpHTT? || s.ReqHttpHTTP? || s.ReqHttpI?
    || s.ReqHttpIC? || s.ReqHttpMajor? || s.ReqHttpDot? || s.ReqHttpMinor? || s.ReqHttpEnd?
    || s.ReqLineAlmostDone?
  }

  lemma VersionTargets(c: Control, ch: char)
    requires c.errno.Ok? && Version(c.state)
    ensures var p := VersionPass(c, ch);
            p.c.errno.Ok? ==> Version(p.c.state) || p.c.state.HeaderFieldStart?
  {
  }

  /** A pass that at most moves on, notes a version number or fails. */
  predicate Moves(c: Control, p: Pass) {
    && p == Pass(c.(state := p.c.state, major := p.c.major, minor := p.c.minor, errno := p.c.errno), Nothing, false)
    && (p.c.errno.AssertFailed? ==> c.errno.AssertFailed?) && (p.c.errno.Ok? ==> c.errno.Ok?)
  }

  lemma GotoMoves(c: Control, next: State)
    ensures Moves(c, Goto(c, next))
  {
  }

  lemma FailMoves(c: Control, e: Errno)
    requires !e.AssertFailed? && !e.Ok?
    ensures Moves(c, Fail(c, e))
  {
  }

  lemma {:induction false} ExpectMoves(c: Control, ch: char, want: char, next: State, e: Errno)
    requires !e.AssertFailed? && !e.Ok?
    ensures Moves(c, Expect(c, ch, want, next, e))
  {
    GotoMoves(c, next);
    FailMoves(c, e);
    hide Moves, Goto, Fail;
  }

  lemma {:induction false} VersionChanges(c: Control, ch: char)
    requires Version(c.state)
    ensures Moves(c, VersionPass(c, ch))
  {
    match c.state
    case ReqHttpH => ExpectMoves(c, ch, 'T', ReqHttpHT, Strict); hide Moves, Expect;
    case ReqHttpHT => ExpectMoves(c, ch, 'T', ReqHttpHTT, Strict); hide Moves, Expect;
    case ReqHttpHTT => ExpectMoves(c, ch, 'P', ReqHttpHTTP, Strict); hide Moves, Expect;
    case ReqHttpI => ExpectMoves(c, ch, 'C', ReqHttpIC, Strict); hide Moves, Expect;
    case ReqHttpIC => ExpectMoves(c, ch, 'E', ReqHttpHTTP, Strict); hide Moves, Expect;
    case ReqHttpHTTP => ExpectMoves(c, ch, '/', ReqHttpMajor, Strict); hide Moves, Expect;
    case ReqHttpDot => ExpectMoves(c, ch, '.', ReqHttpMinor, InvalidVersion); hide Moves, Expect;
    case ReqLineAlmostDone => ExpectMoves(c, ch, LF, HeaderFieldStart, LfExpected); hide Moves, Expect;
    case _ => NumberMoves(c, ch);
  }

  lemma NumberMoves(c: Control, ch: char)
    requires c.state.ReqHttpStart? || c.state.ReqHttpMajor? || c.state.ReqHttpMinor? || c.state.ReqHttpEnd?
    ensures Moves(c, VersionPass(c, ch))
  {
  }

  lemma {:induction false} VersionQuiet(c: Control, ch: char)
    requires c.errno.Ok? && c.contentLength <= ULLONG_MAX && Version(c.state)
    ensures Quiet(c, VersionPass(c, ch))
  {
    VersionChanges(c, ch);
    hide VersionPass, Version;
  }

  lemma VersionPlain(s: State)
    ensures Version(s) ==> Plain(s) && ParsingHeader(s)
    ensures GroupOf(s).VersionGroup? ==> Version(s)
  {
  }

  lemma {:induction false} VersionKept(c: Control, ch: char)
    requires c.errno.Ok? && Sound(c, 1) && GroupOf(c.state).VersionGroup?
    ensures Kept(c, VersionPass(c, ch), ch)
  {
    VersionPlain(c.state);
    VersionTargets(c, ch);
    VersionQuiet(c, ch);
    VersionPlain(VersionPass(c, ch).c.state);
    hide VersionPass, Version, GroupOf, Kept;
    QuietKept(c, VersionPass(c, ch), ch);
  }

  lemma ParseUrlCharStays(s: State, ch: char)
    ensures ParseUrlChar(s, ch).Dead? || InUrl(ParseUrlChar(s, ch))
  {
  }

  lemma {:induction false} UrlCharKept(c: Control, act: Act, from: State, ch: char)
    requires c.errno.Ok? && Sound(c, 1)
    requires if InUrl(c.state) then act == In(Url)
             else c.state.ReqSpacesBeforeUrl? && act == Mark(Url)
    ensures Kept(c, UrlChar(c, act, from, ch), ch)
  {
    ParseUrlCharStays(from, ch);
    hide ParseUrlChar;
  }

  lemma UrlEndKept(c: Control, ch: char, to: State)
    requires c.errno.Ok? && Sound(c, 1) && InUrl(c.state)
    requires to.ReqHttpStart? || to.ReqLineAlmostDone? || to.HeaderFieldStart?
    ensures Kept(c, Pass(c.(state := to), Data(Url), false), ch)
    ensures Kept(c, Pass(c.(major := 0, minor := 9, state := to), Data(Url), false), ch)
  {
  }

  lemma UrlFailKept(c: Control, ch: char)
    requires c.errno.Ok? && Sound(c, 1) && !c.state.HeaderValue?
    ensures Kept(c, Fail(c, InvalidUrl), ch)
    ensures Kept(c, Fail(c.(state := Dead), InvalidVersion), ch)
    ensures c.state.ReqSpacesBeforeUrl? ==> Kept(c, Goto(c, ReqSpacesBeforeUrl), ch)
  {
  }

  lemma {:induction false} UrlKept(c: Control, ch: char)
    requires c.errno.Ok? && Sound(c, 1) && GroupOf(c.state).UrlGroup?
    ensures Kept(c, UrlPass(c, ch), ch)
  {
    hide Kept, Goto, Fail, UrlChar;
    UrlFailKept(c, ch);
    if c.state.ReqSpacesBeforeUrl? {
      UrlCharKept(c, Mark(Url), c.state, ch);
      UrlCharKept(c, Mark(Url), ReqServerStart, ch);
    } else {
      assert InUrl(c.state);
      UrlCharKept(c, In(Url), c.state, ch);
      UrlEndKept(c, ch, ReqHttpStart);
      UrlEndKept(c, ch, ReqLineAlmostDone);
      UrlEndKept(c, ch, HeaderFieldStart);
    }
  }

  lemma NameStepKept(k: Scan, t: char)
    requires NameState(k.h) && k.errno.Ok?
    ensures var r := NameStep(k, t);
            NameState(r.h) && r.errno.Ok? && r.contentLength == k.contentLength
  {
  }

  lemma ValueStepKept(k: Scan, ch: char)
    requires k.errno.Ok? && k.contentLength <= ULLONG_MAX && !k.h.TransferEncoding?
    ensures var r := ValueStep(k, ch);
            && r.contentLength <= ULLONG_MAX && !r.h.TransferEncoding?
            && (r.errno.AssertFailed? <==> k.h.Connection?)
  {
  }

  lemma ValueStartShape(c: Control, ch: char, next: Peek)
    requires c.errno.Ok? && c.contentLength <= ULLONG_MAX
    ensures var p := ValueStartPass(c, ch, next);
            && p.c.state.HeaderValue? && p.c.nread == c.nread && p.c.contentLength <= ULLONG_MAX
            && !p.again && !p.c.errno.AssertFailed? && !p.act.MessageComplete?
            && (p.c.errno.Ok? ==> p.act.Mark? && p.act.piece.FieldValue? && !p.c.headerState.TransferEncoding?)
  {
    if c.headerState.Upgrade? {
    } else if c.headerState.TransferEncoding? {
    } else if c.headerState.ContentLength? {
    } else if c.headerState.Connection? {
    } else {
    }
  }

  lemma {:induction false} ValueStartKept(c: Control, ch: char, next: Peek)
    requires c.errno.Ok? && Sound(c, 1)
    requires c.state.HeaderValueDiscardWs? || c.state.HeaderValueStart?
    ensures Kept(c, ValueStartPass(c, ch, next), ch)
  {
    ValueStartShape(c, ch, next);
    hide ValueStartPass;
  }

  lemma {:induction false} FieldKept(c: Control, ch: char, next: Peek)
    requires c.errno.Ok? && Sound(c, 1) && c.state.HeaderField?
    ensures Kept(c, HeaderPass(c, ch, next), ch)
  {
    hide NameStep, NameState, IsToken, TokenOf;
    NameStepKept(ScanOf(c), TokenOf(ch));
    if IsToken(ch) {
    } else if ch == ':' {
    } else {
    }
  }

  lemma {:induction false} ValueKept(c: Control, ch: char, next: Peek)
    requires c.errno.Ok? && Sound(c, 1) && c.state.HeaderValue?
    ensures Kept(c, HeaderPass(c, ch, next), ch)
  {
    hide ValueStep;
    ValueStepKept(ScanOf(c), ch);
    if ch == CR {
    } else if ch == LF {
    } else if !c.lenient && !IsHeaderChar(ch) {
    } else {
    }
  }

  lemma EndOfHeadersKept(c: Control, ch: char, next: Peek)
    requires c.errno.Ok? && Sound(c, 1) && c.state.HeadersAlmostDone?
    ensures Kept(c, HeaderPass(c, ch, next), ch)
  {
    if ch != LF {
    } else if c.flags.trailing {
    } else {
    }
  }

  lemma BodyOpensKept(c: Control, to: State, ch: char)
    requires c.errno.Ok? && Sound(c, 1) && c.state.HeadersDone?
    requires (to.ChunkSizeStart? && c.flags.chunked) || to.BodyIdentityEof? || (to.BodyIdentity? && LengthKnown(c))
    ensures Kept(c, Goto(c.(nread := 0), to), ch)
  {
  }

  lemma NoBodyKept(c: Control, ch: char)
    requires c.errno.Ok? && c.state.HeadersDone?
    ensures Kept(c, Pass(c.(nread := 0), MessageComplete, false), ch)
    ensures Kept(c, Fail(c, Strict), ch) && Kept(c, Fail(c.(nread := 0), InvalidTransferEncoding), ch)
  {
  }

  lemma {:induction false} HeadersDoneKept(c: Control, ch: char, next: Peek)
    requires c.errno.Ok? && Sound(c, 1) && c.state.HeadersDone?
    ensures Kept(c, HeaderPass(c, ch, next), ch)
  {
    NoBodyKept(c, ch);
    BodyOpensKept(c, BodyIdentityEof, ch);
    if c.flags.chunked { BodyOpensKept(c, ChunkSizeStart, ch); }
    if LengthKnown(c) { BodyOpensKept(c, BodyIdentity, ch); }
    hide Kept, Sound, Goto, Fail;
  }

  lemma NameStateFirst(t: char)
    ensures NameState(FirstHeaderState(t))
  {
  }

  lemma {:induction false} FieldStartKept(c: Control, ch: char, next: Peek)
    requires c.errno.Ok? && Sound(c, 1) && c.state.HeaderFieldStart?
    ensures Kept(c, HeaderPass(c, ch, next), ch)
  {
    hide FirstHeaderState;
    NameStateFirst(TokenOf(ch));
    if ch == CR {
    } else if ch == LF {
    } else if !IsToken(ch) {
    } else {
    }
  }

  lemma {:induction false} DiscardKept(c: Control, ch: char, next: Peek)
    requires c.errno.Ok? && Sound(c, 1) && c.state.HeaderValueDiscardWs?
    ensures Kept(c, HeaderPass(c, ch, next), ch)
  {
    hide ValueStartPass;
    ValueStartKept(c, ch, next);
  }

  lemma {:induction false} ValueBeginKept(c: Control, ch: char, next: Peek)
    requires c.errno.Ok? && Sound(c, 1) && c.state.HeaderValueStart?
    ensures Kept(c, HeaderPass(c, ch, next), ch)
  {
    hide ValueStartPass, Kept;
    ValueStartKept(c, ch, next);
  }

  lemma FoldBreakKept(c: Control, ch: char, next: Peek)
    requires c.errno.Ok? && Sound(c, 1) && c.state.HeaderValueDiscardWsAlmostDone?
    ensures Kept(c, HeaderPass(c, ch, next), ch)
  {
  }

  lemma FoldKept(c: Control, ch: char, next: Peek)
    requires c.errno.Ok? && Sound(c, 1) && c.state.HeaderValueDiscardLws?
    ensures Kept(c, HeaderPass(c, ch, next), ch)
  {
    if ch == ' ' || ch == '\t' {
    } else {
    }
  }

  lemma LineEndKept(c: Control, ch: char, next: Peek)
    requires c.errno.Ok? && Sound(c, 1) && c.state.HeaderAlmostDone?
    ensures Kept(c, HeaderPass(c, ch, next), ch)
  {
  }

  lemma {:induction false} LineKept(c: Control, ch: char, next: Peek)
    requires c.errno.Ok? && Sound(c, 1) && c.state.HeaderValueLws?
    ensures Kept(c, HeaderPass(c, ch, next), ch)
  {
    hide FinishHeader;
    if ch == ' ' || ch == '\t' {
    } else {
    }
  }

  lemma {:induction false} HeaderKept(c: Control, ch: char, next: Peek)
    requires c.errno.Ok? && Sound(c, 1) && GroupOf(c.state).HeaderGroup?
    ensures Kept(c, HeaderPass(c, ch, next), ch)
  {
    hide HeaderPass, Kept, Sound;
    match c.state
    case HeaderFieldStart => FieldStartKept(c, ch, next);
    case HeaderField => FieldKept(c, ch, next);
    case HeaderValue => ValueKept(c, ch, next);
    case HeaderValueDiscardWs => DiscardKept(c, ch, next);
    case HeaderValueStart => ValueBeginKept(c, ch, next);
    case HeaderValueDiscardWsAlmostDone => FoldBreakKept(c, ch, next);
    case HeaderValueDiscardLws => FoldKept(c, ch, next);
    case HeaderAlmostDone => LineEndKept(c, ch, next);
    case HeaderValueLws => LineKept(c, ch, next);
    case HeadersAlmostDone => EndOfHeadersKept(c, ch, next);
    case HeadersDone => HeadersDoneKept(c, ch, next);
    case _ =>
  }

  lemma IdentityKept(c: Control, ch: char)
    requires c.errno.Ok? && Sound(c, 1)
    requires c.state.BodyIdentity? || c.state.BodyIdentityEof? || c.state.MessageDone?
    ensures Kept(c, BodyPass(c, ch), ch)
  {
  }

  lemma ChunkSizeStartKept(c: Control, ch: char)
    requires c.errno.Ok? && Sound(c, 1) && c.state.ChunkSizeStart?
    ensures Kept(c, BodyPass(c, ch), ch)
  {
  }

  /** A size that may take one more digit stays clear of the all-ones marker. */
  lemma SizeFits(c: Control, ch: char)
    requires Unhex(ch) != -1 && c.contentLength <= (ULLONG_MAX - 16) / 16
    ensures (c.contentLength * 16 + Unhex(ch)) % (ULLONG_MAX + 1) <= ULLONG_MAX - 16
  {
  }

  lemma ChunkGoesKept(c: Control, n: nat, to: State, ch: char)
    requires c.errno.Ok? && Sound(c, 1) && c.state.ChunkSize? && n <= ULLONG_MAX - 16 && LengthBeingRead(to)
    ensures Kept(c, Goto(c.(contentLength := n), to), ch)
  {
  }

  lemma ChunkFailKept(c: Control, e: Errno, ch: char)
    requires c.state.ChunkSize? && !e.Ok? && !e.AssertFailed?
    ensures Kept(c, Fail(c, e), ch)
  {
  }

  lemma {:induction false} ChunkSizeKept(c: Control, ch: char)
    requires c.errno.Ok? && Sound(c, 1) && c.state.ChunkSize?
    ensures Kept(c, BodyPass(c, ch), ch)
  {
    ChunkFailKept(c, InvalidChunkSize, ch);
    ChunkFailKept(c, InvalidContentLength, ch);
    ChunkGoesKept(c, c.contentLength, ChunkSizeAlmostDone, ch);
    ChunkGoesKept(c, c.contentLength, ChunkParameters, ch);
    assert c.(contentLength := c.contentLength) == c;
    if Unhex(ch) != -1 && c.contentLength <= (ULLONG_MAX - 16) / 16 {
      SizeFits(c, ch);
      ChunkGoesKept(c, (c.contentLength * 16 + Unhex(ch)) % (ULLONG_MAX + 1), ChunkSize, ch);
    }
    hide Unhex, Kept, Sound, Goto, Fail;
  }

  lemma ChunkParametersKept(c: Control, ch: char)
    requires c.errno.Ok? && Sound(c, 1) && c.state.ChunkParameters?
    ensures Kept(c, BodyPass(c, ch), ch)
  {
  }

  lemma ChunkLineKept(c: Control, ch: char)
    requires c.errno.Ok? && Sound(c, 1) && c.state.ChunkSizeAlmostDone?
    ensures Kept(c, BodyPass(c, ch), ch)
  {
    if ch != LF {
    } else if c.contentLength == 0 {
    } else {
    }
  }

  lemma ChunkDataKept(c: Control, ch: char)
    requires c.errno.Ok? && Sound(c, 1) && c.state.ChunkData?
    ensures Kept(c, BodyPass(c, ch), ch)
  {
  }

  lemma ChunkEndKept(c: Control, ch: char)
    requires c.errno.Ok? && Sound(c, 1) && c.state.ChunkDataAlmostDone?
    ensures Kept(c, BodyPass(c, ch), ch)
  {
  }

  lemma ChunkDoneKept(c: Control, ch: char)
    requires c.errno.Ok? && Sound(c, 1) && c.state.ChunkDataDone?
    ensures Kept(c, BodyPass(c, ch), ch)
  {
  }

  lemma {:induction false} BodyKept(c: Control, ch: char)
    requires c.errno.Ok? && Sound(c, 1) && GroupOf(c.state).BodyGroup?
    ensures Kept(c, BodyPass(c, ch), ch)
  {
    hide BodyPass, Kept, Sound;
    match c.state
    case BodyIdentity => IdentityKept(c, ch);
    case BodyIdentityEof => IdentityKept(c, ch);
    case MessageDone => IdentityKept(c, ch);
    case ChunkSizeStart => ChunkSizeStartKept(c, ch);
    case ChunkSize => ChunkSizeKept(c, ch);
    case ChunkParameters => ChunkParametersKept(c, ch);
    case ChunkSizeAlmostDone => ChunkLineKept(c, ch);
    case ChunkData => ChunkDataKept(c, ch);
    case ChunkDataAlmostDone => ChunkEndKept(c, ch);
    case _ => ChunkDoneKept(c, ch);
  }

  lemma {:induction false} DispatchKept(c: Control, ch: char, next: Peek)
    requires c.errno.Ok? && Sound(c, 1)
    ensures Kept(c, Dispatch(c, ch, next), ch)
  {
    hide StartPass, UrlPass, VersionPass, HeaderPass, BodyPass, Kept, Sound;
    match GroupOf(c.state)
    case StartGroup => StartKept(c, ch);
    case UrlGroup => UrlKept(c, ch);
    case VersionGroup => VersionKept(c, ch);
    case HeaderGroup => HeaderKept(c, ch, next);
    case BodyGroup => BodyKept(c, ch);
  }

  // ---------------------------------------------------------------- every byte

  /** The header-building state of the request follows the parser's state. */
  predicate Building(c: Control, r: Request) {
    0 <= r.buildingState <= 1
    && (c.state.HeaderField? ==> r.buildingState == 1)
    && (c.state.HeaderValue? ==> r.buildingState == 0)
  }

  /** The invariant of a parser between two bytes. */
  predicate Good(s: Snapshot) { !Stopped(s) ==> Sound(s.c, 0) && Building(s.c, s.r) }

  lemma RecordKept(s: Snapshot, p: Pass, ch: char)
    requires Building(s.c, s.r) && SpanFits(s.c.state, p.act, p.c.state)
    ensures Building(p.c, Record(s.r, p.act, p.c, ch))
  {
  }

  lemma {:induction false} PassesGood(s: Snapshot, ch: char, next: Peek)
    requires !Stopped(s) && Sound(s.c, 1) && Building(s.c, s.r)
    ensures Good(Passes(s, ch, next))
    ensures Passes(s, ch, next).c.errno.AssertFailed? <==> Trap(s.c, ch)
    decreases Rank(s.c.state)
  {
    hide Dispatch, Sound, Building, SpanFits;
    var p := Dispatch(s.c, ch, next);
    DispatchKept(s.c, ch, next);
    AgainDecreases(s.c, ch, next);
    if p.c.errno.Ok? && !p.act.MessageComplete? {
      RecordKept(s, p, ch);
      CompleteOnlyByMessage(s.r, p.act, p.c, ch);
    }
    if p.again {
      PassesGood(Snapshot(p.c, Record(s.r, p.act, p.c, ch)), ch, next);
    }
  }

  lemma CompleteOnlyByMessage(r: Request, act: Act, c: Control, ch: char)
    ensures Record(r, act, c, ch).complete == (r.complete || act.MessageComplete?)
  {
  }

  lemma CountSound(c: Control)
    requires c.errno.Ok? && Sound(c, 0) && CountByte(c).errno.Ok?
    ensures Sound(CountByte(c), 1)
  {
  }

  /** Every byte keeps the invariant, and an `assert` fails exactly in the trap. */
  lemma {:induction false} StepGood(s: Snapshot, ch: char, next: Peek)
    requires Good(s)
    ensures Good(Step(s, ch, next))
    ensures !Stopped(s) ==>
              (Step(s, ch, next).c.errno.AssertFailed? <==> CountByte(s.c).errno.Ok? && Trap(s.c, ch))
  {
    hide Passes;
    if !Stopped(s) && CountByte(s.c).errno.Ok? {
      CountSound(s.c);
      PassesGood(s.(c := CountByte(s.c)), ch, next);
    }
  }
}
