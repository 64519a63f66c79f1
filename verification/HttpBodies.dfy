/** Message bodies: the length numerals, bodies of a declared length, and the chunked coding
    (sections 3.3.3 and 4.1 of RFC 7230). */
module HttpBodies {
  import opened HttpTables
  import opened HttpControl
  import opened HttpReference
  import opened HttpInvariant
  import opened HttpScans
  import opened HttpSplits

  // ---------------------------------------------------------------- numerals

  predicate Digits(ds: string) { forall i :: 0 <= i < |ds| ==> IsNum(ds[i]) }

  function DecValue(ds: string): nat
    requires Digits(ds)
  {
    if ds == "" then 0
    else DecValue(ds[..|ds| - 1]) * 10 + (ds[|ds| - 1] as int - '0' as int)
  }

  lemma LengthFirst(s: Snapshot, ch: char, next: Peek)
    requires !Stopped(s) && s.c.state.HeaderValueDiscardWs? && s.c.headerState.ContentLength?
    requires !s.c.flags.contentLength && IsNum(ch) && s.c.nread < MAX_HEADER_SIZE
    ensures var t := Step(s, ch, next);
            && t.c.errno.Ok? && t.c.state.HeaderValue? && t.c.headerState.ContentLengthNum?
            && t.c.contentLength == ch as int - '0' as int && t.c.nread == s.c.nread + 1
            && t.c.flags == s.c.flags.(contentLength := true) && !Stopped(t)
  {
  }

  lemma {:induction false} LengthNext(s: Snapshot, ch: char, next: Peek)
    requires !Stopped(s) && s.c.state.HeaderValue? && s.c.headerState.ContentLengthNum?
    requires IsNum(ch) && s.c.nread < MAX_HEADER_SIZE
    ensures var t := Step(s, ch, next);
            if s.c.contentLength <= (ULLONG_MAX - 10) / 10 then
              && t.c == s.c.(contentLength := s.c.contentLength * 10 + ch as int - '0' as int, nread := s.c.nread + 1)
              && !Stopped(t)
            else t.c.errno.InvalidContentLength?
  {
    ValueByte(s, ch, next);
    LengthStep(s.c.(nread := s.c.nread + 1), ch);
    CompleteKept(s.r, FieldValue, [ch]);
    hide Step, ValueStep, Deliver;
  }

  lemma LengthStep(c: Control, ch: char)
    requires c.headerState.ContentLengthNum? && c.errno.Ok? && IsNum(ch)
    ensures var d := WithScan(c, ValueStep(ScanOf(c), ch));
            if c.contentLength <= (ULLONG_MAX - 10) / 10 then
              d == c.(contentLength := c.contentLength * 10 + ch as int - '0' as int)
            else d.errno.InvalidContentLength?
  {
  }

  /** The decimal accumulator: it accepts a numeral exactly up to a bound below the all-ones
      marker, and then holds its value. */
  lemma {:induction false} DeclaredLength(s: Snapshot, ds: string, k: nat)
    requires !Stopped(s) && s.c.state.HeaderValueDiscardWs? && s.c.headerState.ContentLength?
    requires !s.c.flags.contentLength && Digits(ds) && 1 <= k <= |ds|
    requires s.c.nread + |ds| <= MAX_HEADER_SIZE
    ensures var t := RunTo(s, ds, k);
            var v := DecValue(ds[..k]);
            && (t.c.errno.Ok? <==> v / 10 <= (ULLONG_MAX - 10) / 10)
            && (t.c.errno.Ok? ==>
                  && t.c.contentLength == v < ULLONG_MAX && t.c.flags.contentLength && !Stopped(t)
                  && t.c.flags.trailing == s.c.flags.trailing
                  && t.c.state.HeaderValue? && t.c.headerState.ContentLengthNum?
                  && t.c.nread == s.c.nread + k)
  {
    hide Step;
    var init := ds[..k - 1];
    assert ds[..k][..k - 1] == init && ds[..k][k - 1] == ds[k - 1];
    RunNext(s, ds, k - 1);
    if k == 1 {
      RunNothing(s, ds);
      LengthFirst(s, ds[0], Ahead(ds, 1));
      assert DecValue(init) == 0;
    } else {
      DeclaredLength(s, ds, k - 1);
      var t := RunTo(s, ds, k - 1);
      if t.c.errno.Ok? {
        LengthNext(t, ds[k - 1], Ahead(ds, k));
      } else {
        ErrorStays(s, ds, k - 1, k);
      }
    }
  }

  // ---------------------------------------------------------------- bodies of a declared length

  /** After the `Content-Length` value: header states in which no further length digit can be
      accepted. */
  predicate LengthFixed(c: Control) {
    && HeaderLine(c.state) && c.flags.contentLength && !c.flags.trailing
    && (c.state.HeaderValue? ==> !c.headerState.ContentLength?)
    && (c.headerState.ContentLengthNum? ==>
          c.state.HeaderAlmostDone? || c.state.HeaderValueLws? || c.state.HeaderFieldStart?
          || c.state.HeadersAlmostDone? || c.state.HeadersDone?)
  }

  /** A successful pass leaves the declared length alone and stays among such states until the
      body begins. */
  predicate LengthKept(c: Control, p: Pass) {
    p.c.errno.Ok? && !p.act.MessageComplete? ==>
      p.c.contentLength == c.contentLength && (LengthFixed(p.c) || BodyBegins(p.c.state))
  }

  predicate BodyBegins(s: State) { s.BodyIdentity? || s.BodyIdentityEof? || s.ChunkSizeStart? }

  lemma ValueStartLength(c: Control, ch: char, next: Peek)
    requires LengthFixed(c) && c.errno.Ok? && (c.state.HeaderValueDiscardWs? || c.state.HeaderValueStart?)
    ensures LengthKept(c, ValueStartPass(c, ch, next))
  {
    if c.headerState.Upgrade? {
    } else if c.headerState.TransferEncoding? {
    } else if c.headerState.ContentLength? {
    } else if c.headerState.Connection? {
    } else {
    }
  }

  lemma {:induction false} ValueLength(c: Control, ch: char, next: Peek)
    requires LengthFixed(c) && c.errno.Ok? && c.state.HeaderValue?
    ensures LengthKept(c, HeaderPass(c, ch, next))
  {
    var k := ValueStep(ScanOf(c), ch);
    assert k.contentLength == c.contentLength && !k.h.ContentLengthNum? && !k.h.ContentLength?;
    hide ValueStep;
  }

  lemma NameStepLength(k: Scan, t: char)
    ensures var q := NameStep(k, t);
            q.contentLength == k.contentLength && (q.h.ContentLengthNum? ==> k.h.ContentLengthNum?)
  {
  }

  lemma {:induction false} NameLength(c: Control, ch: char, next: Peek)
    requires LengthFixed(c) && c.errno.Ok? && c.state.HeaderField?
    ensures LengthKept(c, HeaderPass(c, ch, next))
  {
    NameStepLength(ScanOf(c), TokenOf(ch));
    hide NameStep;
    if IsToken(ch) {
    } else if ch == ':' {
    } else {
    }
  }

  lemma StartLength(c: Control, ch: char, next: Peek)
    requires LengthFixed(c) && c.errno.Ok? && c.state.HeaderFieldStart?
    ensures LengthKept(c, HeaderPass(c, ch, next))
  {
  }

  lemma EndLength(c: Control, ch: char, next: Peek)
    requires LengthFixed(c) && c.errno.Ok? && (c.state.HeadersAlmostDone? || c.state.HeadersDone?)
    ensures LengthKept(c, HeaderPass(c, ch, next))
  {
  }

  lemma {:induction false} FoldLength(c: Control, ch: char, next: Peek)
    requires LengthFixed(c) && c.errno.Ok? && c.state.HeaderValueLws?
    ensures LengthKept(c, HeaderPass(c, ch, next))
  {
    if ch == ' ' || ch == '\t' {
    } else {
      assert FinishHeader(c.flags, c.headerState).contentLength;
      assert !FinishHeader(c.flags, c.headerState).trailing;
      hide FinishHeader;
    }
  }

  lemma LineLength(c: Control, ch: char, next: Peek)
    requires LengthFixed(c) && c.errno.Ok? && c.state.HeaderAlmostDone?
    ensures LengthKept(c, HeaderPass(c, ch, next))
  {
  }

  lemma {:induction false} BlankLength(c: Control, ch: char, next: Peek)
    requires LengthFixed(c) && c.errno.Ok?
    requires c.state.HeaderValueDiscardWs? || c.state.HeaderValueStart?
    ensures LengthKept(c, HeaderPass(c, ch, next))
  {
    ValueStartLength(c, ch, next);
    hide ValueStartPass;
  }

  lemma EmptyLength(c: Control, ch: char, next: Peek)
    requires LengthFixed(c) && c.errno.Ok?
    requires c.state.HeaderValueDiscardLws? || c.state.HeaderValueDiscardWsAlmostDone?
    ensures LengthKept(c, HeaderPass(c, ch, next))
  {
  }

  lemma {:induction false} DispatchLength(c: Control, ch: char, next: Peek)
    requires LengthFixed(c) && c.errno.Ok?
    ensures LengthKept(c, Dispatch(c, ch, next))
  {
    hide HeaderPass, LengthKept, GroupOf;
    HeaderLineGroup(c.state);
    match c.state
    case HeaderField => NameLength(c, ch, next);
    case HeaderFieldStart => StartLength(c, ch, next);
    case HeaderValue => ValueLength(c, ch, next);
    case HeadersAlmostDone => EndLength(c, ch, next);
    case HeadersDone => EndLength(c, ch, next);
    case HeaderAlmostDone => LineLength(c, ch, next);
    case HeaderValueLws => FoldLength(c, ch, next);
    case HeaderValueDiscardWs => BlankLength(c, ch, next);
    case HeaderValueStart => BlankLength(c, ch, next);
    case _ => EmptyLength(c, ch, next);
  }

  lemma {:induction false} AgainStays(c: Control, ch: char, next: Peek)
    ensures var p := Dispatch(c, ch, next); p.again ==> !BodyBegins(p.c.state) && p.c.errno == c.errno
  {
    hide StartPass, UrlPass, VersionPass, HeaderPass, BodyPass, GroupOf;
    StartNeverAgain(c, ch);
    UrlNeverAgain(c, ch);
    VersionNeverAgain(c, ch);
    HeaderAgainDecreases(c, ch, next);
    BodyAgainDecreases(c, ch);
    HeaderAgainTargets(c, ch, next);
    BodyAgainNotH(c, ch);
  }

  lemma {:induction false} HeaderAgainTargets(c: Control, ch: char, next: Peek)
    ensures var p := HeaderPass(c, ch, next); p.again ==> !BodyBegins(p.c.state)
  {
    hide NameStep, ValueStep;
    assert !ValueStartPass(c, ch, next).again;
    hide ValueStartPass;
  }

  lemma {:induction false} PassesLength(s: Snapshot, ch: char, next: Peek)
    requires LengthFixed(s.c) && s.c.errno.Ok? && !s.r.complete
    ensures var t := Passes(s, ch, next);
            !Stopped(t) ==> t.c.contentLength == s.c.contentLength && (LengthFixed(t.c) || BodyBegins(t.c.state))
    decreases Rank(s.c.state)
  {
    AgainGoesOn(s.c, ch, next);
    hide Dispatch, LengthFixed;
    var p := Dispatch(s.c, ch, next);
    DispatchLength(s.c, ch, next);
    AgainDecreases(s.c, ch, next);
    AgainStays(s.c, ch, next);
    CompleteOnlyByMessage(s.r, p.act, p.c, ch);
    if p.again {
      PassesLength(Snapshot(p.c, Record(s.r, p.act, p.c, ch)), ch, next);
    }
  }

  lemma {:induction false} AgainGoesOn(c: Control, ch: char, next: Peek)
    requires HeaderLine(c.state)
    ensures var p := Dispatch(c, ch, next); p.again ==> !p.act.MessageComplete?
  {
    HeaderLineGroup(c.state);
    hide NameStep, ValueStep, GroupOf;
    assert !ValueStartPass(c, ch, next).again;
    hide ValueStartPass;
  }

  /** The declared length is still the one read when the body begins, whatever headers follow. */
  lemma {:induction false} LengthSurvives(s: Snapshot, data: string, p: nat)
    requires p <= |data| && !Stopped(s) && LengthFixed(s.c)
    requires forall i :: 0 <= i < p ==> !BodyBegins(RunTo(s, data, i).c.state)
    ensures var t := RunTo(s, data, p);
            !Stopped(t) ==> t.c.contentLength == s.c.contentLength && (LengthFixed(t.c) || BodyBegins(t.c.state))
  {
    hide Passes, LengthFixed;
    if p > 0 {
      LengthSurvives(s, data, p - 1);
      var t := RunTo(s, data, p - 1);
      if !Stopped(t) && CountByte(t.c).errno.Ok? {
        CountLength(t.c);
        PassesLength(t.(c := CountByte(t.c)), data[p - 1], Ahead(data, p));
      }
    }
  }

  lemma CountLength(c: Control)
    ensures LengthFixed(c) ==> LengthFixed(CountByte(c)) && CountByte(c).contentLength == c.contentLength
  {
  }

  /** A body of a declared length is exactly the next that many bytes, and the message is
      complete with the last of them. */
  lemma {:induction false} IdentityBody(s: Snapshot, data: string)
    requires !Stopped(s) && Good(s) && s.c.state.BodyIdentity?
    ensures var n := s.c.contentLength;
            Feed(s, data) ==
            if |data| < n then Snapshot(s.c.(contentLength := n - |data|), s.r.(body := s.r.body + data))
            else Snapshot(s.c.(contentLength := 0, state := MessageDone),
                          s.r.(body := s.r.body + data[..n], complete := true))
  {
    var n := s.c.contentLength;
    var k := if |data| < n then |data| else n;
    hide Step;
    RunNothing(s, data);
    BodyTaken(s, data, 0, k, s.c, s.r);
    assert data[0..k] == data[..k];
    if k < |data| {
      ErrorStays(s, data, k, |data|);
    } else {
      assert data[..k] == data;
    }
  }

  predicate Spaces(ws: string) { forall i :: 0 <= i < |ws| ==> ws[i] == ' ' }

  /** Spaces behind the numeral. */
  lemma {:induction false} SpaceRun(s: Snapshot, ws: string, k: nat)
    requires !Stopped(s) && s.c.state.HeaderValue? && s.c.headerState.ContentLengthNum?
    requires Spaces(ws) && k <= |ws| && s.c.nread + |ws| <= MAX_HEADER_SIZE
    ensures var t := RunTo(s, ws, k);
            && !Stopped(t)
            && t.c == s.c.(headerState := if k == 0 then ContentLengthNum else ContentLengthWs, nread := s.c.nread + k)
  {
    hide Step;
    if k == 0 {
      RunNothing(s, ws);
    } else {
      SpaceRun(s, ws, k - 1);
      RunNext(s, ws, k - 1);
      SpaceNext(RunTo(s, ws, k - 1), Ahead(ws, k));
    }
  }

  lemma {:induction false} SpaceNext(s: Snapshot, next: Peek)
    requires !Stopped(s) && s.c.state.HeaderValue? && s.c.nread < MAX_HEADER_SIZE
    requires s.c.headerState.ContentLengthNum? || s.c.headerState.ContentLengthWs?
    ensures var t := Step(s, ' ', next);
            !Stopped(t) && t.c == s.c.(headerState := ContentLengthWs, nread := s.c.nread + 1)
  {
    ValueByte(s, ' ', next);
    hide Step;
  }

  /** From the `Content-Length` numeral to the last body byte: after any spaces and any further
      headers that lead to a body, that body is exactly as long as the numeral says. */
  lemma {:induction false} DeclaredBody(s: Snapshot, ds: string, ws: string, headers: string, body: string)
    requires !Stopped(s) && Good(s) && s.c.state.HeaderValueDiscardWs? && s.c.headerState.ContentLength?
    requires !s.c.flags.contentLength && !s.c.flags.trailing && ds != "" && Digits(ds) && Spaces(ws)
    requires s.c.nread + |ds| + |ws| < MAX_HEADER_SIZE
    requires var t := Feed(Feed(Feed(Feed(s, ds), ws), "\r"), headers); !Stopped(t) && t.c.state.BodyIdentity?
    requires var h := Feed(Feed(Feed(s, ds), ws), "\r");
             forall i :: 0 <= i < |headers| ==> !BodyBegins(RunTo(h, headers, i).c.state)
    ensures var t := Feed(Feed(Feed(Feed(s, ds), ws), "\r"), headers);
            && (|body| == DecValue(ds) ==> Feed(t, body).r == t.r.(body := t.r.body + body, complete := true))
            && (|body| < DecValue(ds) ==> !Feed(t, body).r.complete)
  {
    hide RunTo, Passes, Good;
    var d := Feed(s, ds);
    var e := Feed(d, ws);
    var h := Feed(e, "\r");
    assert ds[..|ds|] == ds;
    DeclaredLength(s, ds, |ds|);
    if !d.c.errno.Ok? {
      StaysFailed(d, ws);
      StaysFailed(e, "\r");
      StaysFailed(h, headers);
    } else {
      RunGood(s, ds, |ds|);
      SpaceRun(d, ws, |ws|);
      RunGood(d, ws, |ws|);
      RunOne(e, '\r');
      LengthEnds(e);
      RunGood(e, "\r", 1);
      LengthSurvives(h, headers, |headers|);
      RunGood(h, headers, |headers|);
      IdentityBody(Feed(h, headers), body);
      assert body[..|body|] == body;
    }
  }

  lemma {:induction false} StaysFailed(s: Snapshot, data: string)
    requires !s.c.errno.Ok?
    ensures !Feed(s, data).c.errno.Ok?
  {
    hide RunTo;
    RunNothing(s, data);
    ErrorStays(s, data, 0, |data|);
  }

  lemma LengthEnds(s: Snapshot)
    requires !Stopped(s) && s.c.state.HeaderValue?
    requires s.c.headerState.ContentLengthNum? || s.c.headerState.ContentLengthWs?
    requires s.c.flags.contentLength && !s.c.flags.trailing && s.c.nread < MAX_HEADER_SIZE
    ensures var t := Step(s, CR, End);
            !Stopped(t) && LengthFixed(t.c) && t.c.contentLength == s.c.contentLength
  {
  }
}
