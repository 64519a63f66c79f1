/** Whole runs of the parser: its `assert`s, its header counter, and two inputs on which it does
    not do what its callers may expect. */
module HttpAsserts {
  import opened HttpTables
  import opened HttpControl
  import opened HttpReference
  import opened HttpInvariant
  import opened HttpScans
  import opened HttpSplits

  /** `http_parser_init` and a new `HTTPParser`. */
  const FRESH := Snapshot(
    Control(StartReq, General, 0, NO_FLAGS, false, false, false, 0, 0, 0, 0, Delete, false, Ok),
    Request(Delete, "", 0, "", "", [], false, false, false, "", false))

  // ---------------------------------------------------------------- asserts

  /** States a `Connection` value passes through; entering the first of them clears the header
      state unless the value begins with a NUL. */
  predicate Unstuck(c: Control) {
    c.state.HeaderValue? || c.state.HeaderAlmostDone? || c.state.HeaderValueLws? || c.state.HeaderValueStart?
    ==> !c.headerState.Connection?
  }

  lemma ValueStepUnstuck(k: Scan, ch: char)
    requires !k.h.Connection?
    ensures !ValueStep(k, ch).h.Connection?
  {
  }

  predicate Away(s: State) {
    !s.HeaderValue? && !s.HeaderAlmostDone? && !s.HeaderValueLws? && !s.HeaderValueStart?
  }

  lemma ValueStartUnstuck(c: Control, ch: char, next: Peek)
    requires ch != NUL && ch != ' '
    ensures Unstuck(ValueStartPass(c, ch, next).c)
  {
  }

  lemma FoldUnstuck(c: Control, ch: char, next: Peek)
    requires !c.headerState.Connection?
    ensures Unstuck(ValueStartPass(c, ch, next).c)
  {
  }

  lemma {:induction false} ValueUnstuck(c: Control, ch: char, next: Peek)
    requires Unstuck(c) && c.state.HeaderValue?
    ensures Unstuck(HeaderPass(c, ch, next).c)
  {
    hide ValueStep;
    ValueStepUnstuck(ScanOf(c), ch);
  }

  lemma LineEndUnstuck(c: Control, ch: char, next: Peek)
    requires Unstuck(c) && (c.state.HeaderAlmostDone? || c.state.HeaderValueLws?)
    ensures Unstuck(HeaderPass(c, ch, next).c)
  {
  }

  lemma {:induction false} HeaderLeaves(c: Control, ch: char, next: Peek)
    requires Away(c.state) && !c.state.HeaderValueDiscardWs?
    ensures Away(HeaderPass(c, ch, next).c.state)
  {
    hide NameStep;
    match c.state
    case HeaderFieldStart =>
    case HeaderField =>
    case HeadersAlmostDone =>
    case HeadersDone =>
    case _ =>
  }

  lemma {:induction false} DiscardUnstuck(c: Control, ch: char, next: Peek)
    requires c.state.HeaderValueDiscardWs? && ch != NUL
    ensures Unstuck(HeaderPass(c, ch, next).c)
  {
    hide ValueStartPass;
    if ch != ' ' { ValueStartUnstuck(c, ch, next); }
  }

  lemma {:induction false} HeaderUnstuck(c: Control, ch: char, next: Peek)
    requires Unstuck(c) && ch != NUL
    ensures Unstuck(HeaderPass(c, ch, next).c)
  {
    hide ValueStartPass;
    if c.state.HeaderValueStart? {
      FoldUnstuck(c, ch, next);
    } else {
      hide HeaderPass;
      match c.state
      case HeaderValue => ValueUnstuck(c, ch, next);
      case HeaderAlmostDone => LineEndUnstuck(c, ch, next);
      case HeaderValueLws => LineEndUnstuck(c, ch, next);
      case HeaderValueDiscardWs => DiscardUnstuck(c, ch, next);
      case _ => HeaderLeaves(c, ch, next);
    }
  }

  lemma {:induction false} UrlCharLeaves(c: Control, act: Act, from: State, ch: char)
    ensures Away(UrlChar(c, act, from, ch).c.state)
  {
    ParseUrlCharStays(from, ch);
    hide ParseUrlChar;
  }

  lemma {:induction false} UrlLeaves(c: Control, ch: char)
    requires GroupOf(c.state).UrlGroup?
    ensures Away(UrlPass(c, ch).c.state)
  {
    assert Away(c.state);
    UrlCharLeaves(c, In(Url), c.state, ch);
    UrlCharLeaves(c, Mark(Url), c.state, ch);
    UrlCharLeaves(c, Mark(Url), ReqServerStart, ch);
    hide UrlChar, GroupOf;
  }

  lemma {:induction false} ChunkLineLeaves(c: Control, ch: char)
    requires c.state.ChunkSizeStart? || c.state.ChunkSize? || c.state.ChunkParameters? || c.state.ChunkSizeAlmostDone?
    ensures Away(ChunkPass(c, ch).c.state)
  {
    hide Unhex;
  }

  lemma {:induction false} ChunkLeaves(c: Control, ch: char)
    requires Away(c.state)
    ensures Away(ChunkPass(c, ch).c.state)
  {
    if c.state.ChunkSizeStart? || c.state.ChunkSize? || c.state.ChunkParameters? || c.state.ChunkSizeAlmostDone? {
      ChunkLineLeaves(c, ch);
    } else {
      hide Unhex;
    }
  }

  lemma {:induction false} BodyLeaves(c: Control, ch: char)
    requires Away(c.state)
    ensures Away(BodyPass(c, ch).c.state)
  {
    hide ChunkPass;
    ChunkLeaves(c, ch);
  }

  lemma {:induction false} OtherUnstuck(c: Control, ch: char, next: Peek)
    requires !GroupOf(c.state).HeaderGroup? && c.errno.Ok? && Sound(c, 1)
    ensures var p := Dispatch(c, ch, next); p.c.errno.Ok? ==> Away(p.c.state)
  {
    hide HeaderPass, StartPass, UrlPass, VersionPass, BodyPass;
    match GroupOf(c.state)
    case StartGroup => StartTargets(c, ch);
    case UrlGroup => UrlLeaves(c, ch);
    case VersionGroup =>
      VersionPlain(c.state);
      VersionTargets(c, ch);
    case BodyGroup => BodyLeaves(c, ch);
  }

  lemma {:induction false} DispatchUnstuck(c: Control, ch: char, next: Peek)
    requires c.errno.Ok? && Sound(c, 1) && Unstuck(c) && ch != NUL
    ensures var p := Dispatch(c, ch, next); p.c.errno.Ok? ==> Unstuck(p.c)
  {
    hide HeaderPass, StartPass, UrlPass, VersionPass, BodyPass, Sound;
    if GroupOf(c.state).HeaderGroup? {
      HeaderUnstuck(c, ch, next);
    } else {
      OtherUnstuck(c, ch, next);
    }
  }

  lemma {:induction false} PassesUnstuck(s: Snapshot, ch: char, next: Peek)
    requires !Stopped(s) && Sound(s.c, 1) && Unstuck(s.c) && ch != NUL
    ensures !Stopped(Passes(s, ch, next)) ==> Unstuck(Passes(s, ch, next).c)
    decreases Rank(s.c.state)
  {
    hide Dispatch, Sound, Unstuck, SpanFits;
    var p := Dispatch(s.c, ch, next);
    DispatchKept(s.c, ch, next);
    DispatchUnstuck(s.c, ch, next);
    AgainDecreases(s.c, ch, next);
    CompleteOnlyByMessage(s.r, p.act, p.c, ch);
    if p.again {
      PassesUnstuck(Snapshot(p.c, Record(s.r, p.act, p.c, ch)), ch, next);
    }
  }

  lemma {:induction false} RunUnstuck(s: Snapshot, data: string, p: nat)
    requires p <= |data| && Good(s) && (!Stopped(s) ==> Unstuck(s.c)) && NUL !in data
    ensures var t := RunTo(s, data, p); !Stopped(t) ==> Unstuck(t.c)
    ensures !s.c.errno.AssertFailed? ==> !RunTo(s, data, p).c.errno.AssertFailed?
  {
    hide Passes, Sound;
    if p > 0 {
      RunUnstuck(s, data, p - 1);
      RunGood(s, data, p - 1);
      var t := RunTo(s, data, p - 1);
      StepGood(t, data[p - 1], Ahead(data, p));
      if !Stopped(t) && CountByte(t.c).errno.Ok? {
        CountSound(t.c);
        PassesUnstuck(t.(c := CountByte(t.c)), data[p - 1], Ahead(data, p));
      }
    }
  }

  /** On input without NUL bytes no `assert` of the parser ever fails, however the input ends. */
  lemma AssertsHold(data: string)
    requires NUL !in data
    ensures !Feed(FRESH, data).c.errno.AssertFailed?
  {
    RunUnstuck(FRESH, data, |data|);
  }

  /** The next byte is counted and then trips the `assert`. */
  predicate Trapped(s: Snapshot, ch: char) { !Stopped(s) && CountByte(s.c).errno.Ok? && Trap(s.c, ch) }

  /** Exactly when an `assert` of the parser fails: some byte finds it in the trap. */
  lemma {:induction false} AssertFails(data: string, p: nat)
    requires p <= |data|
    ensures RunTo(FRESH, data, p).c.errno.AssertFailed? <==>
            exists i :: 0 <= i < p && Trapped(RunTo(FRESH, data, i), data[i])
  {
    hide Step, Trapped;
    if p > 0 {
      AssertFails(data, p - 1);
      FreshGood();
      RunGood(FRESH, data, p - 1);
      var s := RunTo(FRESH, data, p - 1);
      StepTrapped(s, data[p - 1], Ahead(data, p));
      assert Trapped(s, data[p - 1]) ==> RunTo(FRESH, data, p).c.errno.AssertFailed?;
    }
  }

  lemma {:induction false} StepTrapped(s: Snapshot, ch: char, next: Peek)
    requires Good(s)
    ensures Step(s, ch, next).c.errno.AssertFailed? <==> s.c.errno.AssertFailed? || Trapped(s, ch)
  {
    StepGood(s, ch, next);
    hide Passes, Trap, Good;
  }

  lemma FreshGood()
    ensures Good(FRESH)
  {
  }

  const AFTER_METHOD := Snapshot(
    Control(ReqSpacesBeforeUrl, General, 4, NO_FLAGS, false, false, false, 4, ULLONG_MAX, 0, 0, Get, false, Ok),
    Request(Get, "", 0, "", "", [], false, false, false, "", false))

  /** After "G", "GE" and "GET"; the request learns of the method with the second byte. */
  const AFTER_G := Snapshot(
    Control(ReqMethod, General, 1, NO_FLAGS, false, false, false, 1, ULLONG_MAX, 0, 0, Get, false, Ok), FRESH.r)
  const AFTER_GE := Snapshot(AFTER_G.c.(index := 2, nread := 2), FRESH.r.(verb := Get))
  const AFTER_GET := Snapshot(AFTER_G.c.(index := 3, nread := 3), FRESH.r.(verb := Get))

  lemma MethodStarts()
    ensures Feed(FRESH, "G") == AFTER_G
  {
    RunOne(FRESH, 'G');
  }

  lemma MethodGoesOn()
    ensures Feed(AFTER_G, "E") == AFTER_GE
  {
    RunOne(AFTER_G, 'E');
  }

  lemma MethodComplete()
    ensures Feed(AFTER_GE, "T") == AFTER_GET
  {
    RunOne(AFTER_GE, 'T');
  }

  lemma MethodEnds()
    ensures Feed(AFTER_GET, " ") == AFTER_METHOD
  {
    RunOne(AFTER_GET, ' ');
  }

  lemma {:induction false} RequestLineRead()
    ensures Feed(FRESH, "GET ") == AFTER_METHOD
  {
    hide RunTo;
    MethodStarts();
    MethodGoesOn();
    MethodComplete();
    MethodEnds();
    CutUnnoticed(FRESH, "G", "E");
    CutUnnoticed(FRESH, "GE", "T");
    CutUnnoticed(FRESH, "GET", " ");
    assert "G" + "E" == "GE" && "GE" + "T" == "GET" && "GET" + " " == "GET ";
  }

  /** The parser after the request line "GET /" of an HTTP/0.9 request. */
  const AFTER_LINE := Snapshot(
    Control(HeaderFieldStart, General, 4, NO_FLAGS, false, false, false, 6, ULLONG_MAX, 0, 9, Get, false, Ok),
    Request(Get, "/", 0, "", "", [], false, false, false, "", false))

  const IN_PATH := Snapshot(
    Control(ReqPath, General, 4, NO_FLAGS, false, false, false, 5, ULLONG_MAX, 0, 0, Get, false, Ok),
    Request(Get, "/", 0, "", "", [], false, false, false, "", false))

  lemma PathStarts()
    ensures Feed(AFTER_METHOD, "/") == IN_PATH
  {
    RunOne(AFTER_METHOD, '/');
    assert "" + ['/'] == "/";
  }

  lemma PathEnds()
    ensures Feed(IN_PATH, "\n") == AFTER_LINE
  {
    RunOne(IN_PATH, '\n');
    assert IN_PATH.r.rawUrl + [] == "/";
  }

  lemma {:induction false} PathRead()
    ensures Feed(AFTER_METHOD, "/\n") == AFTER_LINE
  {
    hide RunTo;
    PathStarts();
    PathEnds();
    CutUnnoticed(AFTER_METHOD, "/", "\n");
    assert "/" + "\n" == "/\n";
  }

  lemma {:induction false} LineRead()
    ensures Feed(FRESH, "GET /\n") == AFTER_LINE
  {
    hide RunTo;
    RequestLineRead();
    PathRead();
    CutUnnoticed(FRESH, "GET ", "/\n");
    assert "GET " + "/\n" == "GET /\n";
  }

  const IN_CONNECTION := Snapshot(
    Control(HeaderField, Connection, 9, NO_FLAGS, false, false, false, 16, ULLONG_MAX, 0, 9, Get, false, Ok),
    Request(Get, "/", 1, "connection", "", [], false, false, false, "", false))

  /** The header state after the first `n` bytes of a name. */
  function NameSteps(k: Scan, name: string, n: nat): Scan
    requires n <= |name|
  {
    if n == 0 then k else NameStep(NameSteps(k, name, n - 1), TokenOf(name[n - 1]))
  }

  /** The bytes of a header name after the first. */
  lemma {:induction false} NameRun(s: Snapshot, name: string, n: nat)
    requires n <= |name|
    requires !Stopped(s) && s.c.state.HeaderField? && NameState(s.c.headerState)
    requires s.c.nread + |name| <= MAX_HEADER_SIZE && s.r.buildingState == 1
    requires forall i :: 0 <= i < |name| ==> IsToken(name[i])
    ensures var k := NameSteps(ScanOf(s.c), name, n);
            && NameState(k.h) && k.errno.Ok?
            && RunTo(s, name, n) == Snapshot(WithScan(s.c.(nread := s.c.nread + n), k),
                                             s.r.(field := s.r.field + name[..n]))
  {
    hide Step, NameStep;
    if n == 0 {
      assert s.r.field + name[..0] == s.r.field;
    } else {
      NameRun(s, name, n - 1);
      assert s.r.field + name[..n - 1] + [name[n - 1]] == s.r.field + name[..n];
      NameStepKept(NameSteps(ScanOf(s.c), name, n - 1), TokenOf(name[n - 1]));
      RunNext(s, name, n - 1);
      NameByte(RunTo(s, name, n - 1), name[n - 1], Ahead(name, n));
    }
  }

  lemma FirstLetterC()
    ensures Feed(AFTER_LINE, "c")
            == Snapshot(AFTER_LINE.c.(state := HeaderField, headerState := C, index := 0, nread := 7),
                        AFTER_LINE.r.(field := "c", buildingState := 1))
  {
  }

  lemma FirstLetterU()
    ensures Feed(AFTER_LINE, "u")
            == Snapshot(AFTER_LINE.c.(state := HeaderField, headerState := MatchingUpgrade, index := 0, nread := 7),
                        AFTER_LINE.r.(field := "u", buildingState := 1))
  {
  }

  lemma ConnectionPrefix(k: Scan)
    requires k.h.C? && k.index == 0
    ensures NameSteps(k, "onnection", 3) == k.(h := MatchingConnection, index := 3)
  {
    assert NameSteps(k, "onnection", 1) == k.(h := CO, index := 1);
    assert NameSteps(k, "onnection", 2) == k.(h := CON, index := 2);
  }

  lemma ConnectionName(k: Scan)
    requires k.h.C? && k.index == 0
    ensures NameSteps(k, "onnection", 9) == k.(h := Connection, index := 9)
  {
    ConnectionPrefix(k);
    assert NameSteps(k, "onnection", 4) == k.(h := MatchingConnection, index := 4);
    assert NameSteps(k, "onnection", 5) == k.(h := MatchingConnection, index := 5);
    assert NameSteps(k, "onnection", 6) == k.(h := MatchingConnection, index := 6);
    assert NameSteps(k, "onnection", 7) == k.(h := MatchingConnection, index := 7);
    assert NameSteps(k, "onnection", 8) == k.(h := MatchingConnection, index := 8);
  }

  lemma {:induction false} ConnectionRead()
    ensures Feed(AFTER_LINE, "connection") == IN_CONNECTION
  {
    hide RunTo, NameSteps;
    FirstLetterC();
    var s := Feed(AFTER_LINE, "c");
    NameRun(s, "onnection", 9);
    ConnectionName(ScanOf(s.c));
    CutUnnoticed(AFTER_LINE, "c", "onnection");
    assert "c" + "onnection" == "connection" && "onnection"[..9] == "onnection";
  }

  lemma ColonTaken()
    ensures var t := Step(IN_CONNECTION, ':', Byte(NUL));
            && t.c == IN_CONNECTION.c.(state := HeaderValueDiscardWs, nread := 17) && !t.r.complete
  {
  }

  lemma NulTaken(s: Snapshot)
    requires s.c == IN_CONNECTION.c.(state := HeaderValueDiscardWs, nread := 17) && !s.r.complete
    ensures var t := Step(s, NUL, End);
            && t.c == IN_CONNECTION.c.(state := HeaderValue, index := 0, nread := 18) && !t.r.complete
  {
  }

  lemma {:induction false} ColonNulTaken()
    ensures var t := Feed(IN_CONNECTION, ":\0");
            t.c == IN_CONNECTION.c.(state := HeaderValue, index := 0, nread := 18) && !t.r.complete
  {
    hide Step;
    var data := ":\0";
    RunNothing(IN_CONNECTION, data);
    RunNext(IN_CONNECTION, data, 0);
    RunNext(IN_CONNECTION, data, 1);
    ColonTaken();
    NulTaken(RunTo(IN_CONNECTION, data, 1));
  }

  lemma {:induction false} NulTrapped()
    ensures Feed(IN_CONNECTION, ":\0x").c.errno.AssertFailed?
  {
    ColonNulTaken();
    hide RunTo;
    CutUnnoticed(IN_CONNECTION, ":\0", "x");
    assert ":\0" + "x" == ":\0x";
    RunOne(Feed(IN_CONNECTION, ":\0"), 'x');
  }

  /** A NUL at the start of a `Connection` value does reach a failing `assert`. */
  lemma {:induction false} AssertReached()
    ensures Feed(FRESH, "GET /\nconnection:\0x").c.errno.AssertFailed?
  {
    hide RunTo;
    LineRead();
    ConnectionRead();
    NulTrapped();
    CutUnnoticed(FRESH, "GET /\n", "connection:\0x");
    CutUnnoticed(AFTER_LINE, "connection", ":\0x");
    assert "GET /\n" + "connection:\0x" == "GET /\nconnection:\0x";
    assert "connection" + ":\0x" == "connection:\0x";
  }

  /** ... and after the name of an `Upgrade` header. */
  const AT_UPGRADE := Snapshot(
    Control(HeaderValueDiscardWs, Upgrade, 6, NO_FLAGS, false, false, false, 14, ULLONG_MAX, 0, 9, Get, false, Ok),
    Request(Get, "/", 1, "upgrade", "", [], false, false, false, "", false))

  lemma UpgradeName(k: Scan)
    requires k.h.MatchingUpgrade? && k.index == 0
    ensures NameSteps(k, "pgrade", 6) == k.(h := Upgrade, index := 6)
  {
    assert NameSteps(k, "pgrade", 1) == k.(index := 1);
    assert NameSteps(k, "pgrade", 2) == k.(index := 2);
    assert NameSteps(k, "pgrade", 3) == k.(index := 3);
    assert NameSteps(k, "pgrade", 4) == k.(index := 4);
    assert NameSteps(k, "pgrade", 5) == k.(index := 5);
  }

  lemma {:induction false} UpgradeRead()
    ensures Feed(AFTER_LINE, "upgrade:") == AT_UPGRADE
  {
    hide RunTo, NameSteps;
    FirstLetterU();
    var s := Feed(AFTER_LINE, "u");
    NameRun(s, "pgrade", 6);
    UpgradeName(ScanOf(s.c));
    assert "pgrade"[..6] == "pgrade";
    CutUnnoticed(AFTER_LINE, "u", "pgrade");
    assert "u" + "pgrade" == "upgrade" && "upgrade" + ":" == "upgrade:";
    assert Feed(AFTER_LINE, "upgrade") == AFTER_UPGRADE;
    CutUnnoticed(AFTER_LINE, "upgrade", ":");
    hide Step;
    UpgradeColon();
  }

  const AFTER_UPGRADE := Snapshot(
    AFTER_LINE.c.(state := HeaderField, headerState := Upgrade, index := 6, nread := 13),
    AFTER_LINE.r.(field := "upgrade", buildingState := 1))

  lemma UpgradeColon()
    ensures Feed(AFTER_UPGRADE, ":") == AT_UPGRADE
  {
    RunOne(AFTER_UPGRADE, ':');
    NameEnds(AFTER_UPGRADE.(c := AFTER_UPGRADE.c.(nread := 14)), ':', End);
  }

  /** A concrete stream on which a cut is noticed. */
  lemma {:induction false} CutReached()
    ensures Feed(FRESH, "GET /\nupgrade:h2") != Feed(Feed(FRESH, "GET /\nupgrade:h"), "2")
  {
    hide RunTo, Step, Passes;
    var a := "GET /\nupgrade:h";
    assert a == "GET /\n" + "upgrade:h" && "upgrade:h" == "upgrade:" + "h";
    assert a + "2" == "GET /\nupgrade:h2" && a == "GET /\nupgrade:" + "h";
    assert "GET /\nupgrade:" == "GET /\n" + "upgrade:";
    LineRead();
    UpgradeRead();
    CutUnnoticed(FRESH, "GET /\n", "upgrade:");
    PrefixRun(FRESH, a, "", |a| - 1);
    AtUpgradeH();
    CutNoticed(FRESH, a, '2');
    assert RunTo(FRESH, a, |a| - 1) == AT_UPGRADE by {
      PrefixWhole(FRESH, "GET /\nupgrade:", 'h');
    }
  }

  lemma AtUpgradeH()
    ensures LooksAhead(AT_UPGRADE, 'h')
  {
  }

  lemma {:induction false} PrefixWhole(s: Snapshot, a: string, ch: char)
    requires ch != '2'
    ensures RunTo(s, a + [ch], |a|) == Feed(s, a)
  {
    hide RunTo;
    AtTheCut(s, a, [ch]);
  }

}
