/** Cutting a byte stream into buffers: when the cut cannot be noticed. */
module HttpSplits {
  import opened HttpTables
  import opened HttpControl
  import opened HttpReference
  import opened HttpInvariant
  import opened HttpScans
  import opened HttpSpans
  import opened HttpParser

  /** The byte `ch` begins the value of an `Upgrade` header with the letter the parser follows
      with a look at the next byte. */
  predicate LooksAhead(s: Snapshot, ch: char) {
    && !Stopped(s) && CountByte(s.c).errno.Ok? && ch == 'h'
    && (s.c.state.HeaderValueDiscardWs? || s.c.state.HeaderValueStart?) && s.c.headerState.Upgrade?
  }

  /** The cut between two buffers hides the "2" of an `Upgrade: h2...` value from the parser. */
  predicate H2Cut(s: Snapshot, a: string, b: string) {
    && a != "" && b != "" && b[0] == '2'
    && LooksAhead(RunTo(s, a, |a| - 1), a[|a| - 1])
    && !RunTo(s, a, |a| - 1).c.flags.upgrade
  }

  lemma ValueStartBlind(c: Control, ch: char, n1: Peek, n2: Peek)
    ensures ValueStartPass(c, ch, n1) == ValueStartPass(c, ch, n2)
            <==> !(c.headerState.Upgrade? && ch == 'h' && !c.flags.upgrade
                   && (n1 == Byte('2')) != (n2 == Byte('2')))
  {
  }

  lemma {:induction false} HeaderBlind(c: Control, ch: char, n1: Peek, n2: Peek)
    requires c.state.HeaderValueDiscardWs? || c.state.HeaderValueStart? ==>
               ValueStartPass(c, ch, n1) == ValueStartPass(c, ch, n2) || (ch in " \t\r\n" && c.state.HeaderValueDiscardWs?)
    ensures HeaderPass(c, ch, n1) == HeaderPass(c, ch, n2)
  {
    hide ValueStartPass, NameStep, ValueStep;
  }

  /** The next byte matters to a pass only where `LooksAhead` says so. */
  lemma {:induction false} PassesBlind(s: Snapshot, ch: char, n1: Peek, n2: Peek)
    requires !((s.c.state.HeaderValueDiscardWs? || s.c.state.HeaderValueStart?)
               && s.c.headerState.Upgrade? && ch == 'h' && !s.c.flags.upgrade
               && (n1 == Byte('2')) != (n2 == Byte('2')))
    ensures Passes(s, ch, n1) == Passes(s, ch, n2)
    decreases Rank(s.c.state)
  {
    hide HeaderPass, StartPass, UrlPass, VersionPass, BodyPass, GroupOf, Record;
    ValueStartBlind(s.c, ch, n1, n2);
    HeaderBlind(s.c, ch, n1, n2);
    assert Dispatch(s.c, ch, n1) == Dispatch(s.c, ch, n2);
    var p := Dispatch(s.c, ch, n1);
    AgainDecreases(s.c, ch, n1);
    if p.again {
      AgainNotH(s.c, ch, n1);
      PassesBlind(Snapshot(p.c, Record(s.r, p.act, p.c, ch)), ch, n1, n2);
    }
  }

  /** A second pass over the same byte never begins a value with a letter. */
  lemma {:induction false} AgainNotH(c: Control, ch: char, next: Peek)
    ensures var p := Dispatch(c, ch, next);
            p.again && ch == 'h' ==> !p.c.state.HeaderValueStart? && !p.c.state.HeaderValueDiscardWs?
  {
    hide StartPass, UrlPass, VersionPass, NameStep, ValueStep, GroupOf;
    StartNeverAgain(c, ch);
    UrlNeverAgain(c, ch);
    VersionNeverAgain(c, ch);
    hide BodyPass, HeaderPass;
    HeaderAgainNotH(c, ch, next);
    BodyAgainNotH(c, ch);
  }

  lemma {:induction false} HeaderAgainNotH(c: Control, ch: char, next: Peek)
    ensures var p := HeaderPass(c, ch, next);
            p.again && ch == 'h' ==> !p.c.state.HeaderValueStart? && !p.c.state.HeaderValueDiscardWs?
  {
    hide NameStep, ValueStep;
    assert !ValueStartPass(c, ch, next).again;
    hide ValueStartPass;
  }

  lemma {:induction false} BodyAgainNotH(c: Control, ch: char)
    ensures BodyPass(c, ch).again ==> BodyPass(c, ch).c.state.MessageDone?
  {
    hide ChunkPass;
    ChunkNeverAgain(c, ch);
  }

  /** One byte with two different look-aheads: the results differ exactly where it matters. */
  lemma {:induction false} StepBlind(s: Snapshot, ch: char, n1: Peek, n2: Peek)
    ensures Step(s, ch, n1) == Step(s, ch, n2)
            <==> !(LooksAhead(s, ch) && !s.c.flags.upgrade && (n1 == Byte('2')) != (n2 == Byte('2')))
  {
    hide Passes;
    var c := CountByte(s.c);
    if !Stopped(s) && c.errno.Ok? {
      if LooksAhead(s, ch) && !s.c.flags.upgrade && (n1 == Byte('2')) != (n2 == Byte('2')) {
        H2Pass(s.(c := c), n1);
        H2Pass(s.(c := c), n2);
      } else {
        PassesBlind(s.(c := c), ch, n1, n2);
      }
    }
  }

  lemma H2Pass(s: Snapshot, next: Peek)
    requires s.c.state.HeaderValueDiscardWs? || s.c.state.HeaderValueStart?
    requires s.c.headerState.Upgrade? && !s.c.flags.upgrade
    ensures var c := Passes(s, 'h', next).c;
            && (c.flags.upgrade <==> next != Byte('2'))
            && c.state.HeaderValue? && c.headerState.General?
  {
  }

  lemma {:induction false} H2Step(s: Snapshot, next: Peek)
    requires LooksAhead(s, 'h') && !s.c.flags.upgrade
    ensures var c := Step(s, 'h', next).c;
            && (c.flags.upgrade <==> next != Byte('2'))
            && c.state.HeaderValue? && c.headerState.General?
  {
    hide Passes;
    H2Pass(s.(c := CountByte(s.c)), next);
  }

  /** A prefix of a buffer is treated as a buffer of its own, up to the last byte. */
  lemma {:induction false} PrefixRun(s: Snapshot, a: string, b: string, p: nat)
    requires p < |a|
    ensures RunTo(s, a + b, p) == RunTo(s, a, p)
  {
    hide Step;
    if p > 0 {
      PrefixRun(s, a, b, p - 1);
      assert (a + b)[p - 1] == a[p - 1] && Ahead(a + b, p) == Ahead(a, p);
    }
  }

  /** The state at the cut is the same for one buffer as for two, unless the cut hides a "2". */
  lemma {:induction false} AtTheCut(s: Snapshot, a: string, b: string)
    ensures RunTo(s, a + b, |a|) == Feed(s, a) <==> !H2Cut(s, a, b)
  {
    hide Step, LooksAhead;
    if a == "" {
      assert a + b == b;
    } else {
      var p := |a| - 1;
      PrefixRun(s, a, b, p);
      assert (a + b)[p] == a[p];
      StepBlind(RunTo(s, a, p), a[p], Ahead(a + b, p + 1), Ahead(a, p + 1));
      assert b != "" ==> (a + b)[p + 1] == b[0];
    }
  }

  lemma {:induction false} SuffixRun(s: Snapshot, a: string, b: string, k: nat)
    requires k <= |b|
    ensures RunTo(s, a + b, |a| + k) == RunTo(RunTo(s, a + b, |a|), b, k)
  {
    hide Step;
    if k > 0 {
      SuffixRun(s, a, b, k - 1);
      assert (a + b)[|a| + k - 1] == b[k - 1] && Ahead(a + b, |a| + k) == Ahead(b, k);
    }
  }

  /** Two buffers have the effect of one, wherever the cut, unless it hides a "2". */
  lemma CutUnnoticed(s: Snapshot, a: string, b: string)
    requires !H2Cut(s, a, b)
    ensures Feed(s, a + b) == Feed(Feed(s, a), b)
  {
    AtTheCut(s, a, b);
    SuffixRun(s, a, b, |b|);
  }

  /** With a second buffer of one byte the condition is exact. */
  lemma {:induction false} CutNoticed(s: Snapshot, a: string, ch: char)
    ensures Feed(s, a + [ch]) == Feed(Feed(s, a), [ch]) <==> !H2Cut(s, a, [ch])
  {
    hide LooksAhead, Step;
    if !H2Cut(s, a, [ch]) {
      CutUnnoticed(s, a, [ch]);
    } else {
      var p := |a| - 1;
      var t := RunTo(s, a, p);
      PrefixRun(s, a, [ch], p);
      assert (a + [ch])[p] == a[p] && (a + [ch])[p + 1] == ch;
      assert a[p] == 'h' by { LooksAtH(t, a[p]); }
      RunNext(s, a, p);
      RunNext(s, a + [ch], p);
      H2Step(t, Byte('2'));
      H2Step(t, End);
      SuffixRun(s, a, [ch], 1);
      var one, two := RunTo(s, a + [ch], |a|), Feed(s, a);
      GeneralByte(one, ch, End);
      GeneralByte(two, ch, End);
      RunOne(one, ch);
      RunOne(two, ch);
    }
  }

  lemma LooksAtH(s: Snapshot, ch: char)
    ensures LooksAhead(s, ch) ==> ch == 'h'
  {
  }

  lemma {:induction false} RunOne(s: Snapshot, ch: char)
    ensures RunTo(s, [ch], 1) == Step(s, ch, End)
  {
    hide Step;
    RunNext(s, [ch], 0);
  }

  lemma GeneralByte(s: Snapshot, ch: char, next: Peek)
    requires s.c.state.HeaderValue? && s.c.headerState.General? && ch == '2'
    ensures Step(s, ch, next).c.flags == s.c.flags
  {
  }

  // ---------------------------------------------------------------- any number of buffers

  function Concat(pieces: seq<string>): string {
    if pieces == [] then "" else pieces[0] + Concat(pieces[1..])
  }

  function FeedAll(s: Snapshot, pieces: seq<string>): Snapshot
    decreases |pieces|
  {
    if pieces == [] then s else FeedAll(Feed(s, pieces[0]), pieces[1..])
  }

  /** No cut separates an "h" from a "2". */
  predicate CleanCuts(pieces: seq<string>) {
    && (forall i :: 0 <= i < |pieces| ==> pieces[i] != "")
    && forall i :: 0 < i < |pieces| ==> !(pieces[i - 1][|pieces[i - 1]| - 1] == 'h' && pieces[i][0] == '2')
  }

  lemma {:induction false} FeedAllIsFeed(s: Snapshot, pieces: seq<string>)
    requires CleanCuts(pieces)
    ensures FeedAll(s, pieces) == Feed(s, Concat(pieces))
    decreases |pieces|
  {
    if pieces != [] {
      var rest := pieces[1..];
      assert CleanCuts(rest) by {
        forall i | 0 < i < |rest|
          ensures !(rest[i - 1][|rest[i - 1]| - 1] == 'h' && rest[i][0] == '2')
        {
          assert rest[i - 1] == pieces[i] && rest[i] == pieces[i + 1];
        }
      }
      FeedAllIsFeed(Feed(s, pieces[0]), rest);
      hide LooksAhead;
      if rest != [] {
        assert Concat(rest)[0] == pieces[1][0] && Concat(rest) != "";
      }
      CutUnnoticed(s, pieces[0], Concat(rest));
    }
  }

  /** How a stream is cut into buffers does not matter: not for the parser's fields, not for the
      request assembled from the callbacks, and not for the verdict. */
  lemma AnyTwoCuts(s: Snapshot, xs: seq<string>, ys: seq<string>)
    requires CleanCuts(xs) && CleanCuts(ys) && Concat(xs) == Concat(ys)
    ensures FeedAll(s, xs) == FeedAll(s, ys)
  {
    FeedAllIsFeed(s, xs);
    FeedAllIsFeed(s, ys);
  }

  /** Feeding buffers to a parser one after another until the message is complete. */
  method FeedBuffers(h: HTTPParser, pieces: seq<string>)
    requires CleanCuts(pieces) && Good(h.Snap()) && !h.req.complete
    requires forall i :: 0 <= i < |pieces| ==> |pieces[i]| < 0x8000_0000
    modifies h
    ensures h.parser.errno.Ok? <==> Feed(old(h.Snap()), Concat(pieces)).c.errno.Ok?
    ensures h.parser.errno.Ok? ==> h.Snap() == Feed(old(h.Snap()), Concat(pieces))
  {
    hide RunTo, Good;
    ghost var s := h.Snap();
    var i := 0;
    assert pieces[0..] == pieces;
    if Stopped(s) { FeedAllStops(s, pieces); }
    while i < |pieces| && h.parser.errno.Ok? && !h.req.complete
      invariant i <= |pieces| && Good(h.Snap())
      invariant FeedAll(s, pieces).c.errno.Ok?
                <==> h.parser.errno.Ok? && FeedAll(h.Snap(), pieces[i..]).c.errno.Ok?
      invariant h.parser.errno.Ok? ==> FeedAll(s, pieces) == FeedAll(h.Snap(), pieces[i..])
    {
      ghost var t := h.Snap();
      assert pieces[i..][0] == pieces[i] && pieces[i..][1..] == pieces[i + 1..];
      var _ := h.Execute(pieces[i]);
      if !h.parser.errno.Ok? { FeedAllStops(Feed(t, pieces[i]), pieces[i + 1..]); }
      i := i + 1;
    }
    if Stopped(h.Snap()) { FeedAllStops(h.Snap(), pieces[i..]); }
    FeedAllIsFeed(s, pieces);
  }

  lemma {:induction false} FeedAllStops(s: Snapshot, pieces: seq<string>)
    requires Stopped(s)
    ensures FeedAll(s, pieces) == s
    decreases |pieces|
  {
    if pieces != [] {
      ErrorStays(s, pieces[0], 0, |pieces[0]|);
      FeedAllStops(s, pieces[1..]);
    }
  }
}
