/** Whole requests: from the first byte on, the body is as long as the `Content-Length` header the
    request carries says, or is the payload of its chunks (section 3.3.3 of RFC 7230). */
module HttpMessages {
  import opened HttpTables
  import opened HttpControl
  import opened HttpReference
  import opened HttpInvariant
  import opened HttpScans
  import opened HttpAsserts
  import opened HttpBodies
  import opened HttpChunks

  // ---------------------------------------------------------------- what a header declares

  const CONTENT_LENGTH := "content-length"

  function NameOf(field: string): (name: string)
    ensures |name| == |field|
  {
    seq(|field|, i requires 0 <= i < |field| => TokenOf(field[i]))
  }

  predicate Blanks(v: string) { forall i :: 0 <= i < |v| ==> v[i] == ' ' || v[i] == '\t' }

  /** The value begins with a numeral of `k` digits for `n`, and only blanks follow. */
  predicate Numeral(v: string, k: nat, n: nat)
    requires k <= |v|
  {
    Digits(v[..k]) && DecValue(v[..k]) == n && Blanks(v[k..])
  }

  predicate Says(v: string, n: nat) { exists k :: 0 < k <= |v| && Numeral(v, k, n) }

  predicate Declares(header: (string, string), n: nat) { NameOf(header.0) == CONTENT_LENGTH && Says(header.1, n) }

  /** Some header of the request is a `Content-Length` of `n`. */
  predicate Declared(r: Request, n: nat) { exists i :: 0 <= i < |r.headers| && Declares(r.headers[i], n) }

  // ---------------------------------------------------------------- what is tracked

  /** The first `n` bytes of the name, and no more, have been read. */
  predicate Spelled(field: string, n: nat) {
    n <= |CONTENT_LENGTH| && NameOf(field) == CONTENT_LENGTH[..n]
  }

  predicate NameTracks(h: HeaderState, index: nat, field: string) {
    match h
    case C => index == 0 && Spelled(field, 1)
    case CO => index == 1 && Spelled(field, 2)
    case CON => index == 2 && Spelled(field, 3)
    case MatchingContentLength => 3 <= index < |CONTENT_LENGTH| - 1 && Spelled(field, index + 1)
    case ContentLength => Spelled(field, |CONTENT_LENGTH|)
    case _ => true
  }

  predicate Unmeasured(c: Control) { !c.flags.contentLength && c.contentLength == ULLONG_MAX }

  predicate Measured(s: Snapshot) { Unmeasured(s.c) || Declared(s.r, s.c.contentLength) }

  /** The header not yet put into the list declares the length. */
  predicate Pending(s: Snapshot) { Declares((s.r.field, s.r.value), s.c.contentLength) }

  predicate ValueTracks(s: Snapshot) {
    match s.c.headerState
    case ContentLengthNum => Declares((s.r.field, s.r.value), s.c.contentLength) && Digits(s.r.value)
                             && DecValue(s.r.value) == s.c.contentLength && s.r.value != ""
    case ContentLengthWs => Pending(s)
    case ContentLength => false
    case _ => Measured(s)
  }

  predicate Early(s: State) { GroupOf(s).StartGroup? || GroupOf(s).UrlGroup? || GroupOf(s).VersionGroup? }
  predicate NamePart(s: State) {
    s.HeaderField? || s.HeaderValueDiscardWs? || s.HeaderValueDiscardWsAlmostDone? || s.HeaderValueDiscardLws?
  }
  predicate ValuePart(s: State) {
    s.HeaderValue? || s.HeaderAlmostDone? || s.HeaderValueLws? || s.HeaderValueStart?
  }

  /** Up to the body: nothing is delivered to it, and the length is that of a header. */
  predicate Tracked(s: Snapshot) {
    && s.r.body == "" && !s.c.lenient && !s.c.flags.trailing
    && (if Early(s.c.state) then
          s.r.buildingState == 0 && (s.c.state.StartReq? || s.c.state.Dead? || Unmeasured(s.c))
        else if NamePart(s.c.state) then
          s.r.buildingState == 1 && Measured(s) && NameState(s.c.headerState)
          && NameTracks(s.c.headerState, s.c.index, s.r.field)
        else if ValuePart(s.c.state) then
          s.r.buildingState == 0 && ValueTracks(s)
          && (s.c.state.HeaderValueStart? ==> !s.c.headerState.ContentLengthNum?)
        else if s.c.state.HeaderFieldStart? || s.c.state.HeadersAlmostDone? then
          s.r.buildingState == 0 && (Measured(s) || Pending(s))
        else
          (s.c.state.HeadersDone? || s.c.state.BodyIdentity? || s.c.state.ChunkSizeStart?) && Measured(s))
  }

  /** Why a message may end with its headers. */
  predicate Bodiless(c: Control) {
    c.upgrade || c.flags.skipBody || c.contentLength == 0 || c.contentLength == ULLONG_MAX
  }

  predicate TrackedAfter(s: Snapshot, p: Pass, ch: char) {
    p.c.errno.Ok? ==>
      if p.act.MessageComplete? then Bodiless(p.c) && !BodyBegins(p.c.state) && Record(s.r, p.act, p.c, ch).body == ""
      else
        && Tracked(Snapshot(p.c, Record(s.r, p.act, p.c, ch)))
        && (p.c.state.HeaderValueStart? ==> p.again && (ch == ' ' || ch == '\t'))
  }

  // ---------------------------------------------------------------- names and values

  lemma NameGrows(field: string, ch: char)
    ensures NameOf(field + [ch]) == NameOf(field) + [TokenOf(ch)]
  {
  }

  lemma SpelledMore(field: string, n: nat, ch: char)
    requires n < |CONTENT_LENGTH| && Spelled(field, n) && TokenOf(ch) == CONTENT_LENGTH[n]
    ensures Spelled(field + [ch], n + 1)
  {
    NameGrows(field, ch);
    assert CONTENT_LENGTH[..n + 1] == CONTENT_LENGTH[..n] + [CONTENT_LENGTH[n]];
  }

  lemma {:induction false} NameStepTracks(k: Scan, field: string, ch: char)
    requires NameState(k.h) && NameTracks(k.h, k.index, field)
    ensures var q := NameStep(k, TokenOf(ch)); NameTracks(q.h, q.index, field + [ch])
  {
    hide Spelled, MatchName;
    match k.h
    case C => if TokenOf(ch) == 'o' { SpelledMore(field, 1, ch); }
    case CO => if TokenOf(ch) == 'n' { SpelledMore(field, 2, ch); }
    case CON => if TokenOf(ch) == 't' { SpelledMore(field, 3, ch); }
    case MatchingContentLength => MatchTracks(k, field, ch);
    case _ => NoMatch(k, TokenOf(ch));
  }

  lemma {:induction false} MatchTracks(k: Scan, field: string, ch: char)
    requires k.h.MatchingContentLength? && NameTracks(k.h, k.index, field)
    ensures var q := MatchName(k, TokenOf(ch), CONTENT_LENGTH, ContentLength); NameTracks(q.h, q.index, field + [ch])
  {
    hide Spelled, TokenOf;
    var i := k.index + 1;
    assert Next(k.index) == i && StrAt(CONTENT_LENGTH, i) == CONTENT_LENGTH[i];
    if TokenOf(ch) == CONTENT_LENGTH[i] { SpelledMore(field, i, ch); }
  }

  lemma NoMatch(k: Scan, t: char)
    requires !k.h.C? && !k.h.CO? && !k.h.CON? && !k.h.MatchingContentLength?
    ensures var h := NameStep(k, t).h; !h.C? && !h.CO? && !h.CON? && !h.MatchingContentLength? && !h.ContentLength?
  {
  }

  lemma DigitMore(v: string, ch: char)
    requires Digits(v) && IsNum(ch)
    ensures Digits(v + [ch]) && DecValue(v + [ch]) == DecValue(v) * 10 + (ch as int - '0' as int)
  {
    assert (v + [ch])[..|v|] == v;
  }

  lemma DigitsSay(v: string)
    requires Digits(v) && v != ""
    ensures Says(v, DecValue(v))
  {
    assert v[..|v|] == v && Numeral(v, |v|, DecValue(v));
  }

  lemma BlankMore(v: string, ch: char, n: nat)
    requires Says(v, n) && (ch == ' ' || ch == '\t')
    ensures Says(v + [ch], n)
  {
    var k :| 0 < k <= |v| && Numeral(v, k, n);
    assert (v + [ch])[..k] == v[..k] && (v + [ch])[k..] == v[k..] + [ch];
    assert Numeral(v + [ch], k, n);
  }

  lemma DeclaredStays(r: Request, x: (string, string), n: nat)
    requires Declared(r, n)
    ensures Declared(r.(headers := r.headers + [x]), n)
  {
    var i :| 0 <= i < |r.headers| && Declares(r.headers[i], n);
    assert (r.headers + [x])[i] == r.headers[i];
  }

  lemma DeclaredNow(r: Request, x: (string, string), n: nat)
    requires Declares(x, n)
    ensures Declared(r.(headers := r.headers + [x]), n)
  {
    assert (r.headers + [x])[|r.headers|] == x;
  }

  lemma SameHeaders(r: Request, q: Request, n: nat)
    requires r.headers == q.headers
    ensures Declared(r, n) == Declared(q, n)
  {
  }

  // ---------------------------------------------------------------- one pass, by state

  lemma {:induction false} EarlyTracked(s: Snapshot, ch: char, next: Peek)
    requires Tracked(s) && Sound(s.c, 1) && s.c.errno.Ok? && Early(s.c.state)
    ensures TrackedAfter(s, Dispatch(s.c, ch, next), ch)
  {
    hide Declared, Declares;
    match GroupOf(s.c.state)
    case StartGroup => StartTracked(s, ch);
    case UrlGroup => UrlTracked(s, ch);
    case _ => VersionTracked(s, ch);
  }

  /** A pass of the request line. */
  predicate LinePass(s: Snapshot, p: Pass) {
    p.c.errno.Ok? ==>
      && !p.act.MessageComplete? && !p.act.HeadersComplete?
      && (p.act.Nothing? || p.act.OnMethod? || p.act == Data(Url) || p.act == Mark(Url) || p.act == In(Url))
      && (p.c.lenient == s.c.lenient)
      && (Early(p.c.state) || p.c.state.HeaderFieldStart?)
      && (if s.c.state.StartReq? then
            p.c == s.c || (Early(p.c.state) && Unmeasured(p.c) && !p.c.flags.trailing)
          else if s.c.state.Dead? then p.c == s.c
          else p.c.flags == s.c.flags && p.c.contentLength == s.c.contentLength)
  }

  lemma {:induction false} LineTracked(s: Snapshot, p: Pass, ch: char)
    requires Tracked(s) && s.c.errno.Ok? && Early(s.c.state) && LinePass(s, p)
    ensures TrackedAfter(s, p, ch)
  {
    hide Declared, Declares, Early;
    NotLate(s.c.state);
    NotLate(p.c.state);
  }

  lemma NotLate(s: State)
    ensures Early(s) ==> !NamePart(s) && !ValuePart(s) && !s.HeaderFieldStart? && !s.HeadersAlmostDone?
    ensures s.HeaderFieldStart? || NamePart(s) || ValuePart(s) || s.HeadersAlmostDone? ==> !Early(s)
    ensures s.HeadersDone? || s.BodyIdentity? || s.ChunkSizeStart? ==> !Early(s) && !NamePart(s) && !ValuePart(s)
  {
  }

  lemma {:induction false} StartTracked(s: Snapshot, ch: char)
    requires Tracked(s) && s.c.errno.Ok? && GroupOf(s.c.state).StartGroup?
    ensures TrackedAfter(s, StartPass(s.c, ch), ch)
  {
    StartLine(s, ch);
    hide StartPass, Tracked, TrackedAfter, LinePass;
    LineTracked(s, StartPass(s.c, ch), ch);
  }

  lemma {:induction false} StartLine(s: Snapshot, ch: char)
    requires GroupOf(s.c.state).StartGroup?
    ensures LinePass(s, StartPass(s.c, ch))
  {
    hide Revise, FirstGuess, MethodString;
  }

  lemma {:induction false} UrlTracked(s: Snapshot, ch: char)
    requires Tracked(s) && s.c.errno.Ok? && GroupOf(s.c.state).UrlGroup?
    ensures TrackedAfter(s, UrlPass(s.c, ch), ch)
  {
    UrlLine(s, ch);
    hide UrlPass, Tracked, TrackedAfter, LinePass;
    LineTracked(s, UrlPass(s.c, ch), ch);
  }

  lemma {:induction false} UrlLine(s: Snapshot, ch: char)
    requires GroupOf(s.c.state).UrlGroup?
    ensures LinePass(s, UrlPass(s.c, ch))
  {
    UrlCharLine(s, Mark(Url), s.c.state, ch);
    UrlCharLine(s, Mark(Url), ReqServerStart, ch);
    UrlCharLine(s, In(Url), s.c.state, ch);
    UrlFailLine(s);
    UrlEndLine(s, ReqHttpStart);
    UrlEndLine(s, ReqLineAlmostDone);
    UrlEndLine(s, HeaderFieldStart);
    hide UrlChar, LinePass, Goto, Fail;
  }

  lemma UrlEndLine(s: Snapshot, to: State)
    requires GroupOf(s.c.state).UrlGroup? && (to.ReqHttpStart? || to.ReqLineAlmostDone? || to.HeaderFieldStart?)
    ensures LinePass(s, Pass(s.c.(state := to), Data(Url), false))
    ensures LinePass(s, Pass(s.c.(major := 0, minor := 9, state := to), Data(Url), false))
  {
  }

  lemma UrlFailLine(s: Snapshot)
    ensures LinePass(s, Fail(s.c, InvalidUrl)) && LinePass(s, Fail(s.c.(state := Dead), InvalidVersion))
    ensures s.c.state.ReqSpacesBeforeUrl? ==> LinePass(s, Goto(s.c, ReqSpacesBeforeUrl))
  {
  }

  lemma {:induction false} UrlCharLine(s: Snapshot, act: Act, from: State, ch: char)
    requires GroupOf(s.c.state).UrlGroup? && (act == Mark(Url) || act == In(Url))
    ensures LinePass(s, UrlChar(s.c, act, from, ch))
  {
    ParseUrlCharStays(from, ch);
    UrlEarly(ParseUrlChar(from, ch));
    hide ParseUrlChar, InUrl;
  }

  lemma UrlEarly(s: State)
    ensures InUrl(s) ==> Early(s)
  {
  }

  lemma {:induction false} VersionTracked(s: Snapshot, ch: char)
    requires Tracked(s) && s.c.errno.Ok? && GroupOf(s.c.state).VersionGroup?
    ensures TrackedAfter(s, VersionPass(s.c, ch), ch)
  {
    VersionLine(s, ch);
    hide VersionPass, Tracked, TrackedAfter, LinePass;
    LineTracked(s, VersionPass(s.c, ch), ch);
  }

  lemma {:induction false} VersionLine(s: Snapshot, ch: char)
    requires GroupOf(s.c.state).VersionGroup?
    ensures LinePass(s, VersionPass(s.c, ch))
  {
    VersionPlain(s.c.state);
    if s.c.errno.Ok? { VersionTargets(s.c, ch); }
    VersionFields(s.c, ch);
    VersionEarly(s.c.state);
    VersionEarly(VersionPass(s.c, ch).c.state);
    hide VersionPass, Version, GroupOf;
  }

  lemma {:induction false} VersionFields(c: Control, ch: char)
    requires Version(c.state)
    ensures var p := VersionPass(c, ch);
            && p.act.Nothing? && p.c.flags == c.flags && p.c.contentLength == c.contentLength && p.c.lenient == c.lenient
            && (p.c.errno.Ok? ==> c.errno.Ok?)
  {
    VersionChanges(c, ch);
    hide VersionPass, Version;
  }

  lemma VersionEarly(s: State)
    ensures Version(s) ==> Early(s) && !s.StartReq? && !s.Dead?
  {
  }

  /** The header before goes into the list. */
  lemma {:induction false} ListGrows(s: Snapshot)
    requires Measured(s) || Pending(s)
    ensures var x := (s.r.field, s.r.value);
            var headers := if s.r.value != "" then s.r.headers + [x] else s.r.headers;
            Unmeasured(s.c) || Declared(s.r.(headers := headers), s.c.contentLength)
  {
    var x, n := (s.r.field, s.r.value), s.c.contentLength;
    SaysSomethingPending(s);
    if Pending(s) { DeclaredNow(s.r, x, n); }
    if Declared(s.r, n) { DeclaredStays(s.r, x, n); }
    SameHeaders(s.r, s.r.(headers := s.r.headers), n);
    hide Declares, Declared;
  }

  /** A new header. */
  lemma {:induction false} NameStarts(s: Snapshot, ch: char)
    requires Tracked(s) && s.c.state.HeaderFieldStart? && IsToken(ch)
    ensures Tracked(Snapshot(s.c.(index := 0, state := HeaderField, headerState := FirstHeaderState(TokenOf(ch))),
                             OnHeaderField(s.r, [ch])))
  {
    var x, n := (s.r.field, s.r.value), s.c.contentLength;
    FirstLetter(ch);
    NameStateFirst(TokenOf(ch));
    ListGrows(s);
    SameHeaders(OnHeaderField(s.r, [ch]),
                s.r.(headers := if s.r.value != "" then s.r.headers + [x] else s.r.headers), n);
    hide FirstHeaderState, NameTracks, Declares, Declared, NameState;
  }

  lemma {:induction false} NamesEnd(s: Snapshot)
    requires Tracked(s) && s.c.state.HeaderFieldStart?
    ensures Tracked(s.(c := s.c.(state := HeadersAlmostDone)))
  {
    hide Declares, Declared;
  }

  lemma {:induction false} FieldStartTracked(s: Snapshot, ch: char, next: Peek)
    requires Tracked(s) && s.c.errno.Ok? && s.c.state.HeaderFieldStart?
    ensures TrackedAfter(s, HeaderPass(s.c, ch, next), ch)
  {
    NamesEnd(s);
    if IsToken(ch) { NameStarts(s, ch); }
    hide FirstHeaderState, Tracked, OnHeaderField;
  }

  lemma SaysSomethingPending(s: Snapshot)
    ensures Pending(s) ==> s.r.value != "" && s.r.field != ""
  {
  }

  lemma FirstLetter(ch: char)
    ensures NameTracks(FirstHeaderState(TokenOf(ch)), 0, [ch])
  {
    assert CONTENT_LENGTH[..1] == "c";
  }

  lemma {:induction false} FieldTracked(s: Snapshot, ch: char, next: Peek)
    requires Tracked(s) && s.c.errno.Ok? && s.c.state.HeaderField?
    ensures TrackedAfter(s, HeaderPass(s.c, ch, next), ch)
  {
    if IsToken(ch) {
      FieldByte(s, ch);
    } else if ch == ':' {
      NameCloses(s);
    }
    hide NameStep, Tracked;
  }

  lemma {:induction false} FieldByte(s: Snapshot, ch: char)
    requires Tracked(s) && s.c.state.HeaderField?
    ensures Tracked(Snapshot(WithScan(s.c, NameStep(ScanOf(s.c), TokenOf(ch))), Deliver(s.r, FieldName, [ch])))
    ensures WithScan(s.c, NameStep(ScanOf(s.c), TokenOf(ch))).state.HeaderField?
  {
    NameStepTracks(ScanOf(s.c), s.r.field, ch);
    NameStepStays(ScanOf(s.c), TokenOf(ch));
    hide NameStep, NameState, NameTracks;
    NameMore(s, NameStep(ScanOf(s.c), TokenOf(ch)), ch);
  }

  lemma NameStepStays(k: Scan, t: char)
    requires NameState(k.h)
    ensures NameState(NameStep(k, t).h) && NameStep(k, t).contentLength == k.contentLength
  {
  }

  lemma {:induction false} NameCloses(s: Snapshot)
    requires Tracked(s) && s.c.state.HeaderField?
    ensures Tracked(Snapshot(s.c.(state := HeaderValueDiscardWs), Deliver(s.r, FieldName, [])))
  {
    assert s.r.field + [] == s.r.field;
    hide NameState, NameTracks, Declared;
  }

  lemma {:induction false} NameMore(s: Snapshot, q: Scan, ch: char)
    requires Tracked(s) && s.c.state.HeaderField? && q.contentLength == s.c.contentLength
    requires NameState(q.h) && NameTracks(q.h, q.index, s.r.field + [ch])
    ensures Tracked(Snapshot(WithScan(s.c, q), Deliver(s.r, FieldName, [ch])))
  {
    SameHeaders(s.r.(field := s.r.field + [ch]), s.r, s.c.contentLength);
    hide NameState, NameTracks, Declared;
  }

  lemma {:induction false} BlanksGoOn(s: Snapshot, to: State)
    requires Tracked(s) && NamePart(s.c.state) && !s.c.state.HeaderField? && NamePart(to) && !to.HeaderField?
    ensures Tracked(s.(c := s.c.(state := to)))
  {
    hide NameTracks, Declared, NameState, Declares;
  }

  lemma {:induction false} NoValue(s: Snapshot)
    requires Tracked(s) && NamePart(s.c.state)
    ensures Tracked(Snapshot(s.c.(state := HeaderFieldStart), Deliver(s.r, FieldValue, [])))
  {
    SameHeaders(s.r.(buildingState := 0, value := []), s.r, s.c.contentLength);
    hide NameTracks, Declared, NameState, Declares;
  }

  lemma {:induction false} DiscardTracked(s: Snapshot, ch: char, next: Peek)
    requires Tracked(s) && s.c.errno.Ok? && s.c.state.HeaderValueDiscardWs?
    ensures TrackedAfter(s, HeaderPass(s.c, ch, next), ch)
  {
    ValueStartTracked(s, ch, next);
    BlanksGoOn(s, HeaderValueDiscardWs);
    BlanksGoOn(s, HeaderValueDiscardWsAlmostDone);
    BlanksGoOn(s, HeaderValueDiscardLws);
    hide ValueStartPass, Tracked;
  }

  lemma {:induction false} DiscardLineTracked(s: Snapshot, ch: char, next: Peek)
    requires Tracked(s) && s.c.errno.Ok?
    requires s.c.state.HeaderValueDiscardWsAlmostDone? || s.c.state.HeaderValueDiscardLws?
    ensures TrackedAfter(s, HeaderPass(s.c, ch, next), ch)
  {
    BlanksGoOn(s, HeaderValueDiscardWs);
    BlanksGoOn(s, HeaderValueDiscardLws);
    NoValue(s);
    hide Tracked;
  }

  /** A value begins: of `Content-Length`, with its first digit. */
  lemma {:induction false} ValueStartTracked(s: Snapshot, ch: char, next: Peek)
    requires Tracked(s) && s.c.errno.Ok? && s.c.state.HeaderValueDiscardWs?
    ensures TrackedAfter(s, ValueStartPass(s.c, ch, next), ch)
  {
    if s.c.headerState.ContentLength? {
      if IsNum(ch) && !s.c.flags.contentLength { LengthStarts(s, ch); }
      hide Tracked;
    } else {
      OtherValue(s.c, ch, next);
      hide ValueStartPass;
      OtherStarts(s, ValueStartPass(s.c, ch, next).c, ch);
      hide Tracked;
    }
  }

  /** A value of another header begins or goes on. */
  lemma {:induction false} OtherStarts(s: Snapshot, c: Control, ch: char)
    requires Tracked(s) && (s.c.state.HeaderValueDiscardWs? || s.c.state.HeaderValueStart?) && c.state.HeaderValue?
    requires s.c.state.HeaderValueStart? ==> !s.c.headerState.ContentLengthWs?
    requires !c.headerState.ContentLength? && !c.headerState.ContentLengthWs? && !c.headerState.ContentLengthNum?
    requires c.contentLength == s.c.contentLength && c.flags.contentLength == s.c.flags.contentLength
    requires c.flags.trailing == s.c.flags.trailing && c.lenient == s.c.lenient
    ensures Tracked(Snapshot(c, Deliver(s.r, FieldValue, [ch])))
  {
    SameHeaders(Deliver(s.r, FieldValue, [ch]), s.r, s.c.contentLength);
    hide Declared, Declares, Digits, DecValue, NameTracks, NameState;
  }

  lemma {:induction false} LengthStarts(s: Snapshot, ch: char)
    requires Tracked(s) && s.c.state.HeaderValueDiscardWs? && s.c.headerState.ContentLength? && IsNum(ch)
    ensures Tracked(Snapshot(s.c.(state := HeaderValue, index := 0, flags := s.c.flags.(contentLength := true),
                                  contentLength := ch as int - '0' as int, headerState := ContentLengthNum),
                             Deliver(s.r, FieldValue, [ch])))
  {
    OneDigit(ch);
    assert CONTENT_LENGTH[..|CONTENT_LENGTH|] == CONTENT_LENGTH;
    hide Says, Declared, Digits, DecValue, NameState;
  }

  lemma OneDigit(ch: char)
    requires IsNum(ch)
    ensures Digits([ch]) && DecValue([ch]) == ch as int - '0' as int && Says([ch], DecValue([ch]))
  {
    DigitMore("", ch);
    DigitsSay([ch]);
    assert "" + [ch] == [ch];
  }

  lemma OtherValue(c: Control, ch: char, next: Peek)
    requires !c.headerState.ContentLength? && !c.headerState.ContentLengthWs? && c.errno.Ok?
    requires !c.headerState.ContentLengthNum?
    ensures var p := ValueStartPass(c, ch, next);
            && p.act == Mark(FieldValue) && p.c.state.HeaderValue? && p.c.contentLength == c.contentLength
            && p.c.flags.contentLength == c.flags.contentLength && p.c.flags.trailing == c.flags.trailing
            && p.c.lenient == c.lenient
            && !p.c.headerState.ContentLength? && !p.c.headerState.ContentLengthWs? && !p.c.headerState.ContentLengthNum?
  {
    if c.headerState.Upgrade? {
    } else if c.headerState.TransferEncoding? {
    } else if c.headerState.Connection? {
    } else {
    }
  }

  /** A folded line goes on with white space. */
  lemma {:induction false} ResumeTracked(s: Snapshot, ch: char, next: Peek)
    requires Tracked(s) && s.c.errno.Ok? && s.c.state.HeaderValueStart? && (ch == ' ' || ch == '\t')
    ensures TrackedAfter(s, ValueStartPass(s.c, ch, next), ch)
  {
    if s.c.headerState.ContentLengthWs? {
      WhiteMore(s, ch);
      hide Tracked;
    } else {
      OtherValue(s.c, ch, next);
      hide ValueStartPass;
      OtherStarts(s, ValueStartPass(s.c, ch, next).c, ch);
      hide Tracked;
    }
  }

  lemma {:induction false} WhiteMore(s: Snapshot, ch: char)
    requires Tracked(s) && s.c.state.HeaderValueStart? && s.c.headerState.ContentLengthWs? && (ch == ' ' || ch == '\t')
    ensures Tracked(Snapshot(s.c.(state := HeaderValue, index := 0), Deliver(s.r, FieldValue, [ch])))
  {
    BlankMore(s.r.value, ch, s.c.contentLength);
    NotLate(HeaderValueStart);
    NotLate(HeaderValue);
    hide Says, Declared, Digits, DecValue, NameTracks, NameState, Early;
  }

  lemma {:induction false} ValueTracked(s: Snapshot, ch: char, next: Peek)
    requires Tracked(s) && s.c.errno.Ok? && s.c.state.HeaderValue? && s.c.contentLength <= ULLONG_MAX
    ensures TrackedAfter(s, HeaderPass(s.c, ch, next), ch)
  {
    if ch == CR || ch == LF {
      assert s.r.value + [] == s.r.value;
      LineGoesOn(s, HeaderAlmostDone);
    } else {
      ValueByteTracked(s, ch);
    }
    hide ValueStep, Tracked;
  }

  lemma {:induction false} ValueByteTracked(s: Snapshot, ch: char)
    requires Tracked(s) && s.c.state.HeaderValue? && s.c.contentLength <= ULLONG_MAX
    ensures var q := ValueStep(ScanOf(s.c), ch);
            q.errno.Ok? ==> Tracked(Snapshot(WithScan(s.c, q), Deliver(s.r, FieldValue, [ch])))
  {
    ValueStepTracks(s, ch);
    hide ValueTracks, ValueStep;
  }

  lemma {:induction false} ValueStepTracks(s: Snapshot, ch: char)
    requires s.c.state.HeaderValue? && ValueTracks(s) && s.r.buildingState == 0 && s.c.contentLength <= ULLONG_MAX
    ensures var q := ValueStep(ScanOf(s.c), ch);
            q.errno.Ok? ==> ValueTracks(Snapshot(WithScan(s.c, q), s.r.(value := s.r.value + [ch])))
  {
    SameHeaders(s.r.(value := s.r.value + [ch]), s.r, s.c.contentLength);
    if s.c.headerState.ContentLengthNum? {
      NumStepTracks(s, ch);
    } else if s.c.headerState.ContentLengthWs? {
      if ch == ' ' { BlankMore(s.r.value, ch, s.c.contentLength); }
      hide Says, Declared, Digits, DecValue;
    } else {
      OtherStep(ScanOf(s.c), ch);
      hide ValueStep, Declared, Declares, Digits, DecValue;
    }
  }

  lemma {:induction false} NumStepTracks(s: Snapshot, ch: char)
    requires s.c.headerState.ContentLengthNum? && ValueTracks(s) && s.c.contentLength <= ULLONG_MAX
    ensures var q := ContentLengthStep(ScanOf(s.c), ch);
            q.errno.Ok? ==> ValueTracks(Snapshot(WithScan(s.c, q), s.r.(value := s.r.value + [ch])))
  {
    if ch == ' ' {
      BlankMore(s.r.value, ch, s.c.contentLength);
      hide Says, Declared, Digits, DecValue;
    } else if IsNum(ch) && s.c.contentLength <= (ULLONG_MAX - 10) / 10 {
      DigitTracks(s, ch);
      NoWrap(s.c.contentLength, ch);
      hide ValueTracks;
    }
  }

  lemma {:induction false} DigitTracks(s: Snapshot, ch: char)
    requires s.c.headerState.ContentLengthNum? && ValueTracks(s) && IsNum(ch)
    ensures var n := s.c.contentLength * 10 + (ch as int - '0' as int);
            ValueTracks(Snapshot(s.c.(contentLength := n), s.r.(value := s.r.value + [ch])))
  {
    DigitMore(s.r.value, ch);
    DigitsSay(s.r.value + [ch]);
    hide Says, Declared, Digits, DecValue;
  }

  lemma NoWrap(n: nat, ch: char)
    requires n <= (ULLONG_MAX - 10) / 10 && IsNum(ch)
    ensures (n * 10 + ch as int - '0' as int) % (ULLONG_MAX + 1) == n * 10 + (ch as int - '0' as int)
  {
  }

  lemma OtherStep(k: Scan, ch: char)
    requires !k.h.ContentLength? && !k.h.ContentLengthNum? && !k.h.ContentLengthWs?
    ensures var q := ValueStep(k, ch);
            && q.contentLength == k.contentLength
            && !q.h.ContentLength? && !q.h.ContentLengthNum? && !q.h.ContentLengthWs?
  {
  }

  /** The value's line ends, without or with its carriage return. */
  lemma {:induction false} LineGoesOn(s: Snapshot, to: State)
    requires Tracked(s) && ValuePart(s.c.state) && (to.HeaderAlmostDone? || to.HeaderValueLws?)
    ensures Tracked(s.(c := s.c.(state := to)))
  {
    hide Declared, Says, Digits, DecValue;
  }

  lemma {:induction false} LineFolds(s: Snapshot)
    requires Tracked(s) && s.c.state.HeaderValueLws?
    ensures Tracked(s.(c := s.c.(state := HeaderValueStart,
                                 headerState := if s.c.headerState.ContentLengthNum? then ContentLengthWs
                                                else s.c.headerState)))
  {
    hide Declared, Says, Digits, DecValue;
  }

  lemma {:induction false} LineCloses(s: Snapshot, flags: Flags)
    requires Tracked(s) && s.c.state.HeaderValueLws?
    requires flags.contentLength == s.c.flags.contentLength && flags.trailing == s.c.flags.trailing
    ensures Tracked(s.(c := s.c.(state := HeaderFieldStart, flags := flags)))
  {
    hide Declared, Says, Digits, DecValue;
  }

  lemma {:induction false} LineEndTracked(s: Snapshot, ch: char, next: Peek)
    requires Tracked(s) && s.c.errno.Ok? && (s.c.state.HeaderAlmostDone? || s.c.state.HeaderValueLws?)
    ensures TrackedAfter(s, HeaderPass(s.c, ch, next), ch)
  {
    if s.c.state.HeaderAlmostDone? {
      LineGoesOn(s, HeaderValueLws);
    } else if ch == ' ' || ch == '\t' {
      LineFolds(s);
    } else {
      FinishKeeps(s.c.flags, s.c.headerState);
      LineCloses(s, FinishHeader(s.c.flags, s.c.headerState));
    }
    hide FinishHeader, Tracked;
  }

  lemma FinishKeeps(f: Flags, h: HeaderState)
    ensures FinishHeader(f, h).contentLength == f.contentLength && FinishHeader(f, h).trailing == f.trailing
  {
  }

  /** The list of headers is complete. */
  lemma {:induction false} ListCloses(s: Snapshot, c: Control)
    requires Tracked(s) && s.c.state.HeadersAlmostDone?
    requires c == s.c.(state := HeadersDone, upgrade := c.upgrade)
    ensures Tracked(Snapshot(c, OnHeadersComplete(s.r, c)))
  {
    var x, n := (s.r.field, s.r.value), s.c.contentLength;
    SaysSomethingPending(s);
    if Pending(s) { DeclaredNow(s.r, x, n); }
    if Declared(s.r, n) { DeclaredStays(s.r, x, n); }
    SameHeaders(OnHeadersComplete(s.r, c), if s.r.field != "" then s.r.(headers := s.r.headers + [x]) else s.r, n);
    NotLate(HeadersAlmostDone);
    NotLate(HeadersDone);
    hide Declared, Declares, Early, NameTracks, NameState;
  }

  lemma HeadersEndPass(c: Control, ch: char, next: Peek)
    requires c.state.HeadersAlmostDone? && !c.flags.trailing
    ensures var p := HeaderPass(c, ch, next);
            p.c.errno.Ok? ==>
              p == Pass(c.(state := HeadersDone, upgrade := c.flags.upgrade || c.verb == Connect), HeadersComplete, true)
  {
  }

  lemma {:induction false} HeadersEndTracked(s: Snapshot, ch: char, next: Peek)
    requires Tracked(s) && s.c.errno.Ok? && s.c.state.HeadersAlmostDone?
    ensures TrackedAfter(s, HeaderPass(s.c, ch, next), ch)
  {
    assert !s.c.flags.trailing;
    HeadersEndPass(s.c, ch, next);
    ListCloses(s, s.c.(state := HeadersDone, upgrade := s.c.flags.upgrade || s.c.verb == Connect));
    hide Tracked, OnHeadersComplete, Early, BodyBegins, Bodiless, HeaderPass;
  }

  lemma {:induction false} BodyStartTracked(s: Snapshot, ch: char, next: Peek)
    requires Tracked(s) && s.c.errno.Ok? && s.c.state.HeadersDone?
    ensures TrackedAfter(s, HeaderPass(s.c, ch, next), ch)
  {
    NotLate(HeadersDone);
    NotLate(BodyIdentity);
    NotLate(ChunkSizeStart);
    hide Declared, Early, NameTracks, NameState, Declares;
    if ch != LF {
    } else if s.c.upgrade || s.c.flags.skipBody {
    } else if s.c.flags.chunked {
    } else {
    }
  }

  lemma {:induction false} DispatchTracked(s: Snapshot, ch: char, next: Peek)
    requires Tracked(s) && Sound(s.c, 1) && s.c.errno.Ok? && !BodyBegins(s.c.state)
    requires s.c.state.HeaderValueStart? ==> ch == ' ' || ch == '\t'
    ensures TrackedAfter(s, Dispatch(s.c, ch, next), ch)
  {
    if Early(s.c.state) {
      EarlyTracked(s, ch, next);
    } else {
      HeaderPart(s);
      hide Tracked, TrackedAfter, Sound, HeaderPass;
      match s.c.state
      case HeaderFieldStart => FieldStartTracked(s, ch, next);
      case HeaderField => FieldTracked(s, ch, next);
      case HeaderValueDiscardWs => DiscardTracked(s, ch, next);
      case HeaderValueDiscardWsAlmostDone => DiscardLineTracked(s, ch, next);
      case HeaderValueDiscardLws => DiscardLineTracked(s, ch, next);
      case HeaderValueStart => ResumePass(s, ch, next);
      case HeaderValue => ValueTracked(s, ch, next);
      case HeaderAlmostDone => LineEndTracked(s, ch, next);
      case HeaderValueLws => LineEndTracked(s, ch, next);
      case HeadersAlmostDone => HeadersEndTracked(s, ch, next);
      case _ => BodyStartTracked(s, ch, next);
    }
  }

  lemma HeaderPart(s: Snapshot)
    requires Tracked(s) && !Early(s.c.state) && !BodyBegins(s.c.state) && Sound(s.c, 1)
    ensures HeaderLine(s.c.state) && GroupOf(s.c.state).HeaderGroup? && s.c.contentLength <= ULLONG_MAX
  {
  }

  lemma {:induction false} ResumePass(s: Snapshot, ch: char, next: Peek)
    requires Tracked(s) && s.c.errno.Ok? && s.c.state.HeaderValueStart? && (ch == ' ' || ch == '\t')
    ensures TrackedAfter(s, HeaderPass(s.c, ch, next), ch)
  {
    ResumeTracked(s, ch, next);
    hide ValueStartPass, Tracked, TrackedAfter;
  }

  // ---------------------------------------------------------------- runs

  /** At the end of a byte. */
  predicate TrackedBetween(s: Snapshot) {
    s.c.errno.Ok? ==>
      && s.r.body == ""
      && (s.r.complete ==> Bodiless(s.c) && !BodyBegins(s.c.state))
      && (!s.r.complete ==> Tracked(s) && !s.c.state.HeaderValueStart?)
  }

  lemma TrackedNoBody(s: Snapshot)
    requires Tracked(s)
    ensures s.r.body == ""
  {
  }

  lemma {:induction false} PassesTracked(s: Snapshot, ch: char, next: Peek)
    requires !Stopped(s) && Sound(s.c, 1) && Tracked(s) && !BodyBegins(s.c.state)
    requires s.c.state.HeaderValueStart? ==> ch == ' ' || ch == '\t'
    ensures TrackedBetween(Passes(s, ch, next))
    decreases Rank(s.c.state)
  {
    hide Dispatch, Tracked, Sound, Kept, BodyBegins, Bodiless;
    var p := Dispatch(s.c, ch, next);
    DispatchTracked(s, ch, next);
    DispatchKept(s.c, ch, next);
    PassKeepsSound(s.c, p, ch);
    AgainDecreases(s.c, ch, next);
    AgainStays(s.c, ch, next);
    CompleteOnlyByMessage(s.r, p.act, p.c, ch);
    var t := Snapshot(p.c, Record(s.r, p.act, p.c, ch));
    if p.c.errno.Ok? && !p.act.MessageComplete? { TrackedNoBody(t); }
    if p.again { PassesTracked(t, ch, next); }
  }

  lemma PassKeepsSound(c: Control, p: Pass, ch: char)
    requires Kept(c, p, ch)
    ensures p.again ==> p.c.errno.Ok? && !p.act.MessageComplete? && Sound(p.c, 1)
  {
  }

  lemma CountTracked(s: Snapshot)
    requires Tracked(s)
    ensures Tracked(s.(c := CountByte(s.c).(errno := s.c.errno))) && CountByte(s.c).state == s.c.state
  {
    SameHeaders(s.r, s.r, s.c.contentLength);
  }

  lemma {:induction false} RunTracked(data: string, p: nat)
    requires p <= |data| && forall i :: 0 <= i < p ==> !BodyBegins(RunTo(FRESH, data, i).c.state)
    ensures TrackedBetween(RunTo(FRESH, data, p))
  {
    hide Tracked, Passes, Sound, Bodiless, BodyBegins;
    if p == 0 {
      FreshTracked();
    } else {
      RunTracked(data, p - 1);
      FreshTracked();
      RunGood(FRESH, data, p - 1);
      var t := RunTo(FRESH, data, p - 1);
      if !Stopped(t) && CountByte(t.c).errno.Ok? {
        CountSound(t.c);
        CountTracked(t);
        PassesTracked(t.(c := CountByte(t.c)), data[p - 1], Ahead(data, p));
      }
    }
  }

  lemma FreshTracked()
    ensures TrackedBetween(FRESH) && Good(FRESH)
  {
  }

  // ---------------------------------------------------------------- the theorem

  /** Where the body begins, or beyond the end of the input. */
  ghost function BodyAt(data: string, p: nat): (b: nat)
    requires p <= |data|
    ensures p <= b <= |data| + 1
    decreases |data| - p
  {
    if BodyBegins(RunTo(FRESH, data, p).c.state) then p
    else if p == |data| then |data| + 1
    else BodyAt(data, p + 1)
  }

  lemma {:induction false} BodyAtIsFirst(data: string, p: nat)
    requires p <= |data|
    ensures var b := BodyAt(data, p);
            && (b <= |data| ==> BodyBegins(RunTo(FRESH, data, b).c.state))
            && (forall i :: p <= i < b && i <= |data| ==> !BodyBegins(RunTo(FRESH, data, i).c.state))
    decreases |data| - p
  {
    hide RunTo, BodyBegins;
    if !BodyBegins(RunTo(FRESH, data, p).c.state) && p < |data| { BodyAtIsFirst(data, p + 1); }
  }

  lemma BetweenNoBody(s: Snapshot)
    requires TrackedBetween(s) && s.c.errno.Ok?
    ensures s.r.body == "" && (s.r.complete ==> Bodiless(s.c))
  {
  }

  lemma AtBody(s: Snapshot)
    requires TrackedBetween(s) && Good(s) && s.c.errno.Ok? && BodyBegins(s.c.state)
    ensures !Stopped(s) && s.r.body == "" && (s.c.state.BodyIdentity? || s.c.state.ChunkSizeStart?)
    ensures s.c.state.BodyIdentity? ==> Declared(s.r, s.c.contentLength) && LengthKnown(s.c)
    ensures s.c.contentLength <= ULLONG_MAX
    ensures s.c.state.ChunkSizeStart? ==> Chunky(s) && s.c.nread == 0
  {
  }

  lemma {:induction false} LengthFrom(s: Snapshot, rest: string)
    requires !Stopped(s) && Good(s) && s.c.state.BodyIdentity? && s.r.body == "" && Declared(s.r, s.c.contentLength)
    ensures var t, n := Feed(s, rest), s.c.contentLength;
            && t.r.headers == s.r.headers && Declared(t.r, n)
            && t.r.body == (if n <= |rest| then rest[..n] else rest) && (t.r.complete <==> n <= |rest|)
  {
    hide RunTo, Declared, Good;
    IdentityBody(s, rest);
    SameHeaders(s.r, Feed(s, rest).r, s.c.contentLength);
    assert "" + rest == rest;
    if s.c.contentLength <= |rest| { assert "" + rest[..s.c.contentLength] == rest[..s.c.contentLength]; }
  }

  lemma {:induction false} ChunksFrom(s: Snapshot, rest: string)
    requires Good(s) && Chunky(s) && s.c.state.ChunkSizeStart? && s.c.nread == 0 && s.r.body == ""
    requires Feed(s, rest).c.errno.Ok?
    ensures var t := Feed(s, rest);
            && !Dechunk(rest).Rejected? && t.r.body == PayloadOf(Dechunk(rest))
            && (t.r.complete ==> Dechunk(rest).Ended?)
  {
    hide RunTo, Dechunk, Good;
    BodyIsPayload(s, rest);
    ChunkedBody(s, rest);
    assert "" + PayloadOf(Dechunk(rest)) == PayloadOf(Dechunk(rest));
  }

  datatype Framing = NoBody | Length(n: nat, from: nat) | Chunks(from: nat)

  /** How the body of a request is delimited. */
  ghost function FramingOf(data: string): Framing {
    var b := BodyAt(data, 0);
    if b > |data| then NoBody
    else
      var c := RunTo(FRESH, data, b).c;
      if c.state.ChunkSizeStart? then Chunks(b) else Length(c.contentLength, b)
  }

  /** Every error-free input, up to any point: without a body, nothing is delivered; with a length,
      it is the numeral of a `Content-Length` header the request carries, and exactly that many
      bytes are the body; with chunks, the body is exactly their payload. */
  lemma {:induction false} MessageBody(data: string)
    requires Feed(FRESH, data).c.errno.Ok?
    ensures var t := Feed(FRESH, data);
            match FramingOf(data)
            case NoBody => t.r.body == "" && (t.r.complete ==> Bodiless(t.c))
            case Length(n, b) =>
              && b <= |data| && 0 < n < ULLONG_MAX && Declared(t.r, n)
              && (t.r.complete <==> n <= |data| - b)
              && t.r.body == if n <= |data| - b then data[b..b + n] else data[b..]
            case Chunks(b) =>
              && b <= |data| && RunTo(FRESH, data, b).c.flags.chunked && !Dechunk(data[b..]).Rejected?
              && t.r.body == PayloadOf(Dechunk(data[b..]))
              && (t.r.complete ==> Dechunk(data[b..]).Ended?)
  {
    hide RunTo, Dechunk, TrackedBetween;
    var b := BodyAt(data, 0);
    BodyAtIsFirst(data, 0);
    if b > |data| {
      RunTracked(data, |data|);
      BetweenNoBody(Feed(FRESH, data));
    } else {
      RunTracked(data, b);
      var s := RunTo(FRESH, data, b);
      FreshTracked();
      RunGood(FRESH, data, b);
      Resume(FRESH, data, b);
      if !s.c.errno.Ok? { ErrorStays(FRESH, data, b, |data|); }
      AtBody(s);
      if s.c.state.ChunkSizeStart? {
        ChunksFrom(s, data[b..]);
      } else {
        LengthFrom(s, data[b..]);
        assert data[b..][..|data| - b] == data[b..];
        if s.c.contentLength <= |data| - b { assert data[b..][..s.c.contentLength] == data[b..b + s.c.contentLength]; }
      }
    }
  }
}
