/** Spans: the marks of `http_parser_execute`, what is still undelivered, and how a stretch of
    bytes scanned in one go relates to the byte-at-a-time reference. */
module HttpSpans {
  import opened HttpTables
  import opened HttpControl
  import opened HttpReference
  import opened HttpInvariant
  import opened HttpScans

  /** The four mark pointers, as offsets into the current buffer. */
  datatype Place = Unset | At(pos: nat)

  datatype Marks = Marks(url: Place, name: Place, value: Place, body: Place)

  const NO_MARKS := Marks(Unset, Unset, Unset, Unset)

  function MarkOf(m: Marks, f: Piece): Place {
    match f
    case Url => m.url
    case FieldName => m.name
    case FieldValue => m.value
    case Body => m.body
  }

  function SetMark(m: Marks, f: Piece, at: Place): Marks {
    match f
    case Url => m.(url := at)
    case FieldName => m.(name := at)
    case FieldValue => m.(value := at)
    case Body => m.(body := at)
  }

  predicate Before(at: Place, p: nat) { at.At? ==> at.pos <= p }

  /** The marks that are set are those of the span the state is in. */
  predicate MarksFit(m: Marks, s: State, p: nat) {
    && (m.url.At? <==> KindOf(s).UrlKind?) && (m.name.At? <==> KindOf(s).NameKind?)
    && (m.value.At? <==> KindOf(s).ValueKind?) && (m.body.At? ==> KindOf(s).BodyKind?)
    && Before(m.url, p) && Before(m.name, p) && Before(m.value, p) && Before(m.body, p)
  }

  /** One data callback, if its mark is set. */
  function Flush(r: Request, f: Piece, at: Place, data: string, p: nat): Request
    requires Before(at, p) && p <= |data|
  {
    if at.At? then Deliver(r, f, data[at.pos..p]) else r
  }

  /** The request once every open span up to `p` has been delivered. */
  function Pending(r: Request, m: Marks, data: string, p: nat): Request
    requires p <= |data| && Before(m.url, p) && Before(m.name, p) && Before(m.value, p) && Before(m.body, p)
  {
    Flush(Flush(Flush(Flush(r, FieldName, m.name, data, p), FieldValue, m.value, data, p),
                Url, m.url, data, p), Body, m.body, data, p)
  }

  /** The marks at the start of a buffer. */
  function InitialMarks(s: State): Marks {
    Marks(if InUrl(s) then At(0) else Unset, if s.HeaderField? then At(0) else Unset,
          if s.HeaderValue? then At(0) else Unset, Unset)
  }

  /** At the start of a buffer nothing is undelivered. */
  lemma InitialPending(c: Control, r: Request, data: string)
    requires Building(c, r)
    ensures MarksFit(InitialMarks(c.state), c.state, 0)
    ensures Pending(r, InitialMarks(c.state), data, 0) == r
  {
    var m := InitialMarks(c.state);
    assert data[0..0] == "";
    assert r.rawUrl + "" == r.rawUrl && r.field + "" == r.field && r.value + "" == r.value;
  }

  lemma {:induction false} NoMarks(m: Marks, s: State, p: nat)
    requires MarksFit(m, s, p) && NoSpan(s)
    ensures m == NO_MARKS
  {
    hide KindOf;
  }

  /** What performing `act` at byte `p` does to the marks. */
  function MarksAfter(m: Marks, act: Act, p: nat): Marks {
    match act
    case Mark(f) => if MarkOf(m, f).At? then m else SetMark(m, f, At(p))
    case Last(f) => SetMark(m, f, Unset)
    case Data(f) => SetMark(m, f, Unset)
    case Empty(f) => SetMark(m, f, Unset)
    case _ => m
  }

  /** ... and to the request. */
  function RequestAfter(r: Request, c: Control, m: Marks, act: Act, data: string, p: nat): Request
    requires p < |data| && Before(m.url, p) && Before(m.name, p) && Before(m.value, p) && Before(m.body, p)
  {
    match act
    case OnMethod => r.(verb := c.verb)
    case Last(f) => Deliver(r, f, data[if MarkOf(m, f).At? then MarkOf(m, f).pos else p..p + 1])
    case Data(f) => if MarkOf(m, f).At? then Deliver(r, f, data[MarkOf(m, f).pos..p]) else r
    case Empty(f) => Deliver(r, f, data[if MarkOf(m, f).At? then MarkOf(m, f).pos else p..p])
    case HeadersComplete => OnHeadersComplete(r, c)
    case MessageComplete => r.(complete := true)
    case _ => r
  }

  /** No mark but that of `f` is set. */
  predicate Only(m: Marks, f: Piece) {
    && (f.Url? || m.url.Unset?) && (f.FieldName? || m.name.Unset?)
    && (f.FieldValue? || m.value.Unset?) && (f.Body? || m.body.Unset?)
  }

  lemma PendingOnly(r: Request, m: Marks, f: Piece, data: string, p: nat)
    requires Only(m, f) && Before(MarkOf(m, f), p) && p <= |data|
    ensures Pending(r, m, data, p) == Flush(r, f, MarkOf(m, f), data, p)
  {
  }

  /** Inside a header value its mark, and no other, is set. */
  lemma ValueMarks(m: Marks, s: State, p: nat)
    requires MarksFit(m, s, p) && s.HeaderValue?
    ensures m == Marks(Unset, Unset, m.value, Unset) && m.value.At? && m.value.pos <= p
  {
  }

  /** Inside a body its mark, and no other, may be set. */
  lemma BodyMarks(m: Marks, s: State, p: nat)
    requires InBody(s)
    ensures MarksFit(m, s, p) <==> m == Marks(Unset, Unset, Unset, m.body) && Before(m.body, p)
  {
  }

  /** Without marks nothing is undelivered. */
  lemma NothingPending(r: Request, s: State, data: string, p: nat)
    requires NoSpan(s) && p <= |data|
    ensures MarksFit(NO_MARKS, s, p) && Pending(r, NO_MARKS, data, p) == r
  {
  }

  lemma {:induction false} MarkMarks(from: State, to: State, m: Marks, f: Piece, p: nat)
    requires MarksFit(m, from, p) && SpanFits(from, Mark(f), to)
    ensures Only(m, f) && MarksFit(MarksAfter(m, Mark(f), p), to, p + 1)
  {
    hide KindOf;
    if KindOf(from).NoKind? {
      NoMarks(m, from, p);
    } else {
      assert OfPiece(KindOf(from), f) && Only(m, f);
      assert m.url.At? <==> KindOf(to).UrlKind?;
    }
  }

  lemma {:induction false} InMarks(from: State, to: State, m: Marks, f: Piece, p: nat)
    requires MarksFit(m, from, p) && SpanFits(from, In(f), to)
    ensures Only(m, f) && MarksFit(m, to, p + 1) && MarkOf(m, f).At?
  {
    hide KindOf;
  }

  lemma {:induction false} LastMarks(from: State, to: State, m: Marks, f: Piece, p: nat)
    requires MarksFit(m, from, p) && SpanFits(from, Last(f), to)
    ensures Only(m, f) && MarksFit(MarksAfter(m, Last(f), p), to, p + 1)
  {
    hide KindOf;
  }

  lemma {:induction false} DataMarks(from: State, to: State, m: Marks, f: Piece, p: nat)
    requires MarksFit(m, from, p) && SpanFits(from, Data(f), to)
    ensures Only(m, f) && MarksFit(MarksAfter(m, Data(f), p), to, p + 1)
    ensures MarkOf(m, f).At? || f.Body?
  {
    hide KindOf;
  }

  lemma {:induction false} EmptyMarks(from: State, to: State, m: Marks, f: Piece, p: nat)
    requires MarksFit(m, from, p) && SpanFits(from, Empty(f), to)
    ensures m == NO_MARKS && MarksFit(MarksAfter(m, Empty(f), p), to, p + 1)
  {
    hide KindOf;
  }

  lemma {:induction false} SpanActMarks(from: State, to: State, m: Marks, act: Act, p: nat)
    requires MarksFit(m, from, p) && SpanFits(from, act, to)
    requires act.Mark? || act.In? || act.Last? || act.Data? || act.Empty?
    ensures Only(m, act.piece) && MarksFit(MarksAfter(m, act, p), to, p + 1)
    ensures act.In? ==> MarkOf(m, act.piece).At?
    ensures act.Empty? ==> MarkOf(m, act.piece).Unset?
    ensures act.Data? && MarkOf(m, act.piece).Unset? ==> act.piece.Body?
  {
    hide MarksFit, SpanFits;
    match act
    case Mark(f) => MarkMarks(from, to, m, f, p);
    case In(f) => InMarks(from, to, m, f, p);
    case Last(f) => LastMarks(from, to, m, f, p);
    case Data(f) => DataMarks(from, to, m, f, p);
    case Empty(f) => EmptyMarks(from, to, m, f, p);
  }

  lemma {:induction false} SpanActKept(from: State, c: Control, r: Request, m: Marks, act: Act, data: string, p: nat)
    requires p < |data| && MarksFit(m, from, p) && SpanFits(from, act, c.state)
    requires act.Mark? || act.In? || act.Last? || act.Data? || act.Empty?
    ensures MarksFit(MarksAfter(m, act, p), c.state, p + 1)
    ensures Pending(RequestAfter(r, c, m, act, data, p), MarksAfter(m, act, p), data, p + 1)
            == Record(Pending(r, m, data, p), act, c, data[p])
  {
    hide KindOf;
    var f := act.piece;
    var at := MarkOf(m, f);
    var start := if at.At? then at.pos else p;
    var after := MarksAfter(m, act, p);
    SpanActMarks(from, c.state, m, act, p);
    assert start <= p && Only(after, f);
    assert data[p..p + 1] == [data[p]] && data[p..p] == [];
    assert data[start..p + 1] == data[start..p] + [data[p]];
    assert data[start..p] == data[start..p] + [];
    DeliverAppend(r, f, data[start..p], [data[p]]);
    DeliverAppend(r, f, data[start..p], []);
    assert Deliver(r, Body, []) == r by { assert r.body + [] == r.body; }
    hide Deliver, SpanFits, MarksFit, Pending;
    PendingOnly(r, m, f, data, p);
    PendingOnly(RequestAfter(r, c, m, act, data, p), after, f, data, p + 1);
  }

  /** A callback at byte `p` leaves the undelivered request as the reference has it. */
  lemma {:induction false} ActKept(from: State, c: Control, r: Request, m: Marks, act: Act, data: string, p: nat)
    requires p < |data| && MarksFit(m, from, p)
    requires SpanFits(from, act, c.state) || (act.MessageComplete? && NoSpan(from) && NoSpan(c.state))
    ensures MarksFit(MarksAfter(m, act, p), c.state, p + 1)
    ensures Pending(RequestAfter(r, c, m, act, data, p), MarksAfter(m, act, p), data, p + 1)
            == Record(Pending(r, m, data, p), act, c, data[p])
  {
    hide KindOf;
    if act.Mark? || act.In? || act.Last? || act.Data? || act.Empty? {
      SpanActKept(from, c, r, m, act, data, p);
    } else {
      hide OnHeadersComplete;
      NoMarks(m, from, p);
      assert MarksFit(m, c.state, p + 1);
    }
  }
}
