/** The archive the server builds in memory, and a reader that starts at its end record (sections
    4.3.7, 4.3.12 and 4.3.16 of PKWARE's APPNOTE.TXT). */
module Zip {
  import opened B = Bytes
  import Crc

  // ---------------------------------------------------------------- records of numbers

  /** The widths of the fields of each record, in bytes. */
  function LocalWidths(): seq<nat> { [4, 2, 2, 2, 2, 2, 4, 4, 4, 2, 2] }
  function CentralWidths(): seq<nat> { [4, 2, 2, 2, 2, 2, 2, 4, 4, 4, 2, 2, 2, 2, 2, 4, 4] }
  function EndWidths(): seq<nat> { [4, 2, 2, 2, 2, 4, 4, 2] }

  /** The size of the fields from number `i` on. */
  function Total(widths: seq<nat>, i: nat): nat
    requires i <= |widths|
    decreases |widths| - i
  {
    if i == |widths| then 0 else widths[i] + Total(widths, i + 1)
  }

  predicate InRange(values: seq<nat>, widths: seq<nat>) {
    |values| == |widths| && forall i :: 0 <= i < |values| ==> values[i] < Pow256(widths[i])
  }

  function Record(values: seq<nat>, widths: seq<nat>, i: nat): (b: Bytes)
    requires |values| == |widths| && i <= |widths|
    ensures |b| == Total(widths, i)
    decreases |widths| - i
  {
    if i == |widths| then [] else LittleEndian(values[i], widths[i]) + Record(values, widths, i + 1)
  }

  predicate At(z: Bytes, p: nat, b: Bytes) { p + |b| <= |z| && z[p..p + |b|] == b }

  lemma AtSplit(z: Bytes, p: nat, a: Bytes, b: Bytes)
    requires At(z, p, a + b)
    ensures At(z, p, a) && At(z, p + |a|, b)
  {
    assert z[p..p + |a + b|][..|a|] == z[p..p + |a|];
    assert z[p..p + |a + b|][|a|..] == z[p + |a|..p + |a + b|];
  }

  /** The numbers of a record at `p`, from field `i` on. */
  function Fields(z: Bytes, p: nat, widths: seq<nat>, i: nat): (values: seq<nat>)
    requires i <= |widths| && p + Total(widths, i) <= |z|
    ensures |values| == |widths| - i
    decreases |widths| - i
  {
    if i == |widths| then []
    else [FromLittleEndian(z[p..p + widths[i]])] + Fields(z, p + widths[i], widths, i + 1)
  }

  lemma {:induction false} RecordRead(z: Bytes, p: nat, values: seq<nat>, widths: seq<nat>, i: nat)
    requires InRange(values, widths) && i <= |widths| && At(z, p, Record(values, widths, i))
    ensures p + Total(widths, i) <= |z| && Fields(z, p, widths, i) == values[i..]
    decreases |widths| - i
  {
    hide At;
    if i < |widths| {
      AtSplit(z, p, LittleEndian(values[i], widths[i]), Record(values, widths, i + 1));
      LittleEndianRoundTrip(values[i], widths[i]);
      RecordRead(z, p + widths[i], values, widths, i + 1);
      AtBounds(z, p, LittleEndian(values[i], widths[i]));
    } else {
      AtBounds(z, p, []);
    }
  }

  lemma AtBounds(z: Bytes, p: nat, b: Bytes)
    requires At(z, p, b)
    ensures p + |b| <= |z| && z[p..p + |b|] == b
  {
  }

  // ---------------------------------------------------------------- the archive

  datatype Entry = Entry(name: Bytes, data: Bytes)

  function ToBits(data: Bytes): seq<bv8> { seq(|data|, i requires 0 <= i < |data| => data[i] as bv8) }

  function Checksum(data: Bytes): (c: nat)
    ensures c < 0x1_0000_0000
  {
    Crc.Crc32(ToBits(data)) as nat
  }

  /** The checksum as the writer computes it, with the table. */
  method TableChecksum(data: Bytes) returns (c: nat)
    ensures c == Checksum(data)
  {
    var bits := Crc.TableCrc32(ToBits(data));
    c := bits as nat;
  }

  function Cut16(n: nat): nat { n % 0x1_0000 }
  function Cut32(n: nat): nat { n % 0x1_0000_0000 }

  const LOCAL_SIGNATURE := 0x04034b50
  const CENTRAL_SIGNATURE := 0x02014b50
  const END_SIGNATURE := 0x06054b50

  function LocalValues(e: Entry): seq<nat> {
    var size := Cut32(|e.data|);
    [LOCAL_SIGNATURE, 20, 0, 0, 0, 0, Checksum(e.data), size, size, Cut16(|e.name|), 0]
  }

  function Local(e: Entry): Bytes { Record(LocalValues(e), LocalWidths(), 0) + e.name + e.data }

  function CentralValues(e: Entry, offset: nat): seq<nat> {
    var size := Cut32(|e.data|);
    [CENTRAL_SIGNATURE, 20, 20, 0, 0, 0, 0, Checksum(e.data), size, size, Cut16(|e.name|), 0, 0, 0, 0, 0, Cut32(offset)]
  }

  function CentralEntry(e: Entry, offset: nat): Bytes { Record(CentralValues(e, offset), CentralWidths(), 0) + e.name }

  function Locals(es: seq<Entry>): Bytes {
    if es == [] then [] else Locals(es[..|es| - 1]) + Local(es[|es| - 1])
  }

  /** The entries of the central directory for the first `n` files. */
  function Central(es: seq<Entry>, n: nat): Bytes
    requires n <= |es|
  {
    if n == 0 then [] else Central(es, n - 1) + CentralEntry(es[n - 1], |Locals(es[..n - 1])|)
  }

  function EndValues(count: nat, size: nat, offset: nat): seq<nat> {
    [END_SIGNATURE, 0, 0, Cut16(count), Cut16(count), Cut32(size), Cut32(offset), 0]
  }

  function EndOf(es: seq<Entry>): seq<nat> { EndValues(|es|, |Central(es, |es|)|, |Locals(es)|) }

  function Archive(es: seq<Entry>): Bytes {
    Locals(es) + Central(es, |es|) + Record(EndOf(es), EndWidths(), 0)
  }

  // ---------------------------------------------------------------- the writer

  method WriteLe16(out: Bytes, value: nat) returns (r: Bytes)
    requires value < 0x1_0000
    ensures r == out + LittleEndian(value, 2)
  {
    r := out + [value % 256];
    r := r + [value / 256 % 256];
    assert LittleEndian(value / 256, 1) == [value / 256 % 256] + LittleEndian(value / 256 / 256, 0);
  }

  method WriteLe32(out: Bytes, value: nat) returns (r: Bytes)
    requires value < 0x1_0000_0000
    ensures r == out + LittleEndian(value, 4)
  {
    r := out + [value % 256];
    r := r + [value / 0x100 % 256];
    r := r + [value / 0x1_0000 % 256];
    r := r + [value / 0x100_0000 % 256];
    assert value / 256 / 256 == value / 0x1_0000 && value / 256 / 256 / 256 == value / 0x100_0000;
    assert LittleEndian(value / 256 / 256, 2) == [value / 0x1_0000 % 256, value / 0x100_0000 % 256] by {
      assert LittleEndian(value / 256 / 256 / 256, 1) == [value / 0x100_0000 % 256] + LittleEndian(value / 256 / 256 / 256 / 256, 0);
    }
  }

  /** The calls of one record, in order. */
  method WriteRecord(out: Bytes, values: seq<nat>, widths: seq<nat>) returns (r: Bytes)
    requires InRange(values, widths) && forall i :: 0 <= i < |widths| ==> widths[i] == 2 || widths[i] == 4
    ensures r == out + Record(values, widths, 0)
  {
    Pow256s();
    r := out;
    var i := 0;
    while i < |values|
      invariant 0 <= i <= |values| && r + Record(values, widths, i) == out + Record(values, widths, 0)
    {
      ghost var before := r;
      if widths[i] == 2 { r := WriteLe16(r, values[i]); } else { r := WriteLe32(r, values[i]); }
      assert before + (LittleEndian(values[i], widths[i]) + Record(values, widths, i + 1)) ==
             r + Record(values, widths, i + 1);
      i := i + 1;
    }
  }

  /** A file to pack; reading it may fail. */
  datatype Source = Source(name: Bytes, content: Content)
  datatype Content = Unreadable | Content(data: Bytes)

  function Entries(files: seq<Source>): seq<Entry>
    requires forall f :: f in files ==> f.content.Content?
  {
    if files == [] then []
    else
      var f := files[|files| - 1];
      assert f in files;
      Entries(files[..|files| - 1]) + [Entry(f.name, f.content.data)]
  }

  datatype Noted = Noted(name: Bytes, crc: nat, size: nat, offset: nat)

  /** `build_zip_from_files`: nothing if a file cannot be read, else the archive. */
  method BuildZip(files: seq<Source>) returns (zip: Bytes)
    ensures (exists f :: f in files && f.content.Unreadable?) ==> zip == []
    ensures (forall f :: f in files ==> f.content.Content?) ==> zip == Archive(Entries(files))
  {
    hide Record, Local, Checksum, Locals, Entries, NotedRight, Central, Archive, Cut32;
    zip := [];
    var noted: seq<Noted> := [];
    NothingYet();
    for i := 0 to |files|
      invariant forall f :: f in files[..i] ==> f.content.Content?
      invariant zip == Locals(Entries(files[..i]))
      invariant NotedRight(noted, Entries(files[..i]))
    {
      if files[i].content.Unreadable? {
        assert files[i] in files;
        return [];
      }
      var e := Entry(files[i].name, files[i].content.data);
      EntriesMore(files, i);
      ghost var es := Entries(files[..i]);
      var crc := TableChecksum(e.data);
      var offset, size := Cut32(|zip|), Cut32(|e.data|);
      zip := AddLocal(zip, e, crc, size);
      LocalsMore(es, e);
      NotedMore(noted, es, e);
      noted := noted + [Noted(e.name, crc, size, offset)];
    }
    assert files[..|files|] == files;
    ghost var es := Entries(files);
    var centralOffset := Cut32(|zip|);
    NotedCount(noted, es);
    var central := AddCentral(noted, es);
    ArchiveIs(es);
    zip := zip + central;
    var n := Cut16(|noted|);
    InRangeEnd(|noted|, |central|, |zip| - |central|);
    zip := WriteRecord(zip, [END_SIGNATURE, 0, 0, n, n, Cut32(|central|), centralOffset, 0], EndWidths());
  }

  lemma NothingYet()
    ensures Entries([]) == [] && Locals([]) == [] && NotedRight([], [])
  {
  }

  lemma EntriesMore(files: seq<Source>, i: nat)
    requires i < |files| && (forall f :: f in files[..i] ==> f.content.Content?) && files[i].content.Content?
    ensures forall f :: f in files[..i + 1] ==> f.content.Content?
    ensures Entries(files[..i + 1]) == Entries(files[..i]) + [Entry(files[i].name, files[i].content.data)]
  {
    assert files[..i + 1][..i] == files[..i] && files[..i + 1][i] == files[i];
    assert forall f :: f in files[..i + 1] ==> f in files[..i] || f == files[i];
  }

  lemma LocalsMore(es: seq<Entry>, e: Entry)
    ensures Locals(es + [e]) == Locals(es) + Local(e)
  {
    assert (es + [e])[..|es|] == es && (es + [e])[|es|] == e;
  }

  lemma NotedCount(noted: seq<Noted>, es: seq<Entry>)
    requires NotedRight(noted, es)
    ensures |noted| == |es|
  {
  }

  lemma ArchiveIs(es: seq<Entry>)
    ensures InRange(EndOf(es), EndWidths())
    ensures Archive(es) == Locals(es) + Central(es, |es|) + Record(EndOf(es), EndWidths(), 0)
  {
    InRangeEnd(|es|, |Central(es, |es|)|, |Locals(es)|);
  }

  method AddLocal(zip: Bytes, e: Entry, crc: nat, size: nat) returns (r: Bytes)
    requires crc == Checksum(e.data) && size == Cut32(|e.data|)
    ensures r == zip + Local(e)
  {
    hide Record, Checksum;
    InRangeLocal(e);
    r := WriteRecord(zip, [LOCAL_SIGNATURE, 20, 0, 0, 0, 0, crc, size, size, Cut16(|e.name|), 0], LocalWidths());
    r := r + e.name;
    r := r + e.data;
  }

  /** What was noted of each file while its data was written. */
  predicate NotedRight(noted: seq<Noted>, es: seq<Entry>) {
    && |noted| == |es|
    && forall i :: 0 <= i < |es| ==>
         noted[i] == Noted(es[i].name, Checksum(es[i].data), Cut32(|es[i].data|), Cut32(|Locals(es[..i])|))
  }

  lemma {:induction false} NotedMore(noted: seq<Noted>, es: seq<Entry>, e: Entry)
    requires NotedRight(noted, es)
    ensures NotedRight(noted + [Noted(e.name, Checksum(e.data), Cut32(|e.data|), Cut32(|Locals(es)|))], es + [e])
  {
    hide Locals, Checksum;
    forall i | 0 <= i <= |es|
      ensures (es + [e])[..i] == if i < |es| then es[..i] else es
    {
    }
  }

  method AddCentral(noted: seq<Noted>, ghost es: seq<Entry>) returns (central: Bytes)
    requires NotedRight(noted, es)
    ensures central == Central(es, |es|)
  {
    hide Record, Checksum, Locals, Central;
    central := [];
    CentralNone(es);
    for i := 0 to |noted|
      invariant central == Central(es, i)
    {
      var e := noted[i];
      InRangeCentral(es[i], |Locals(es[..i])|);
      CentralMore(es, i);
      central := WriteRecord(central,
        [CENTRAL_SIGNATURE, 20, 20, 0, 0, 0, 0, e.crc, e.size, e.size, Cut16(|e.name|), 0, 0, 0, 0, 0, e.offset],
        CentralWidths());
      central := central + e.name;
    }
  }

  lemma CentralNone(es: seq<Entry>)
    ensures Central(es, 0) == []
  {
  }

  lemma {:induction false} CentralMore(es: seq<Entry>, i: nat)
    requires i < |es|
    ensures
      var values := CentralValues(es[i], |Locals(es[..i])|);
      |values| == |CentralWidths()| && Central(es, i + 1) == Central(es, i) + Record(values, CentralWidths(), 0) + es[i].name
  {
    hide Record, Locals, Checksum;
    var offset := |Locals(es[..i])|;
    assert es[..i + 1 - 1] == es[..i];
    assert Central(es, i + 1) == Central(es, i) + CentralEntry(es[i], offset);
    hide Central;
    Regroup(Central(es, i), Record(CentralValues(es[i], offset), CentralWidths(), 0), es[i].name);
  }

  lemma InRangeLocal(e: Entry)
    ensures InRange(LocalValues(e), LocalWidths())
  {
    Pow256s();
  }

  lemma InRangeCentral(e: Entry, offset: nat)
    ensures InRange(CentralValues(e, offset), CentralWidths())
  {
    Pow256s();
  }

  lemma InRangeEnd(count: nat, size: nat, offset: nat)
    ensures InRange(EndValues(count, size, offset), EndWidths())
  {
    Pow256s();
  }

  // ---------------------------------------------------------------- the reader

  /** A member as the reader finds it. */
  datatype Found = Found(name: Bytes, data: Bytes, crc: nat)
  datatype OneRead = BadEntry | OneRead(member: Found, next: nat)
  datatype Listing = BadArchive | Listing(members: seq<Found>)

  function CentralFields(z: Bytes, p: nat): (c: seq<nat>)
    requires p + 46 <= |z|
    ensures |c| == 17
  {
    WidthTotals();
    Fields(z, p, CentralWidths(), 0)
  }

  function LocalFields(z: Bytes, p: nat): (l: seq<nat>)
    requires p + 30 <= |z|
    ensures |l| == 11
  {
    WidthTotals();
    Fields(z, p, LocalWidths(), 0)
  }

  /** One entry of the central directory, with the data its local record leads to. */
  function ReadEntry(z: Bytes, p: nat): OneRead {
    if |z| < p + 46 then BadEntry else ReadMember(z, p, CentralFields(z, p))
  }

  /** The central directory says `c`. */
  function ReadMember(z: Bytes, p: nat, c: seq<nat>): OneRead
    requires |c| == 17
  {
    var next := p + 46 + c[10] + c[11] + c[12];
    if c[0] != CENTRAL_SIGNATURE || |z| < next || |z| < c[16] + 30 then BadEntry
    else ReadData(z, p, next, c, LocalFields(z, c[16]))
  }

  /** The local record says `l`. */
  function ReadData(z: Bytes, p: nat, next: nat, c: seq<nat>, l: seq<nat>): OneRead
    requires |c| == 17 && |l| == 11 && p + 46 + c[10] <= |z|
  {
    var name := c[16] + 30;
    var at := name + l[9] + l[10];
    if l[0] != LOCAL_SIGNATURE || c[3] != 0 || c[4] != 0 || c[8] != c[9] || |z| < at + c[9] then BadEntry
    else if l[9] != c[10] || z[name..name + l[9]] != z[p + 46..p + 46 + c[10]] then BadEntry
    else OneRead(Found(z[p + 46..p + 46 + c[10]], z[at..at + c[9]], c[7]), next)
  }

  function ReadEntries(z: Bytes, p: nat, count: nat): Listing
    decreases count
  {
    if count == 0 then Listing([])
    else
      match ReadEntry(z, p)
      case BadEntry => BadArchive
      case OneRead(member, next) =>
        match ReadEntries(z, next, count - 1)
        case BadArchive => BadArchive
        case Listing(members) => Listing([member] + members)
  }

  /** Starts at the end record and walks the central directory. */
  function ReadArchive(z: Bytes): Listing {
    if |z| < 22 then BadArchive
    else
      WidthTotals();
      var end := Fields(z, |z| - 22, EndWidths(), 0);
      if end[0] != END_SIGNATURE || end[3] != end[4] || end[6] + end[5] + 22 != |z| then BadArchive
      else ReadEntries(z, end[6], end[4])
  }

  lemma WidthTotals()
    ensures Total(LocalWidths(), 0) == 30 && Total(CentralWidths(), 0) == 46 && Total(EndWidths(), 0) == 22
  {
    assert Total(LocalWidths(), 8) == 8;
    assert Total(LocalWidths(), 5) == 18;
    assert Total(LocalWidths(), 2) == 24;
    assert Total(CentralWidths(), 14) == 10;
    assert Total(CentralWidths(), 11) == 16;
    assert Total(CentralWidths(), 8) == 26;
    assert Total(CentralWidths(), 5) == 34;
    assert Total(CentralWidths(), 2) == 40;
    assert Total(EndWidths(), 5) == 10;
    assert Total(EndWidths(), 2) == 16;
  }

  // ---------------------------------------------------------------- the round trip

  /** Counts, names and the whole archive fit the 16- and 32-bit fields. */
  predicate Fits(es: seq<Entry>) {
    && |es| < 0x1_0000
    && (forall e :: e in es ==> |e.name| < 0x1_0000 && |e.data| < 0x1_0000_0000)
    && |Locals(es)| + |Central(es, |es|)| < 0x1_0000_0000
  }

  function Members(es: seq<Entry>): seq<Found> {
    if es == [] then [] else [Found(es[0].name, es[0].data, Checksum(es[0].data))] + Members(es[1..])
  }

  lemma {:induction false} LocalsPrefix(es: seq<Entry>, i: nat)
    requires i <= |es|
    ensures Locals(es[..i]) <= Locals(es)
    ensures i < |es| ==> Locals(es[..i]) + Local(es[i]) <= Locals(es)
    decreases |es|
  {
    hide Local;
    if i == |es| {
      assert es[..i] == es;
    } else {
      var n := |es| - 1;
      LocalsPrefix(es[..n], i);
      assert es[..n][..i] == es[..i];
      if i < n { assert es[..n][i] == es[i]; }
    }
  }

  lemma {:induction false} CentralPrefix(es: seq<Entry>, i: nat, n: nat)
    requires i <= n <= |es|
    ensures Central(es, i) <= Central(es, n)
    decreases n - i
  {
    hide CentralEntry, Locals;
    if i < n {
      CentralPrefix(es, i, n - 1);
      PrefixMore(Central(es, i), Central(es, n - 1), CentralEntry(es[n - 1], |Locals(es[..n - 1])|));
    }
  }

  lemma PrefixMore(a: Bytes, b: Bytes, c: Bytes)
    requires a <= b
    ensures a <= b + c
  {
  }

  lemma PrefixAt(z: Bytes, p: nat, a: Bytes, b: Bytes, whole: Bytes)
    requires At(z, p, whole) && a + b <= whole
    ensures At(z, p + |a|, b)
  {
    assert whole == a + b + whole[|a + b|..];
    AtSplit(z, p, a + b, whole[|a + b|..]);
    AtSplit(z, p, a, b);
  }

  /** The records of one file, where the archive has them. */
  lemma {:induction false} Placed(es: seq<Entry>, i: nat)
    requires i < |es|
    ensures
      var z := Archive(es);
      && At(z, |Locals(es[..i])|, Local(es[i]))
      && At(z, |Locals(es)| + |Central(es, i)|, CentralEntry(es[i], |Locals(es[..i])|))
      && |Locals(es[..i])| <= |Locals(es)|
  {
    hide Local, CentralEntry, Record, Locals;
    var a, c, e := Locals(es), Central(es, |es|), Record(EndOf(es), EndWidths(), 0);
    LocalsPrefix(es, i);
    CentralPrefix(es, i + 1, |es|);
    assert es[..i + 1 - 1] == es[..i];
    assert Central(es, i + 1) == Central(es, i) + CentralEntry(es[i], |Locals(es[..i])|);
    hide Central;
    PiecesAt(a, c, e);
    PrefixAt(a + c + e, 0, Locals(es[..i]), Local(es[i]), a);
    PrefixAt(a + c + e, |a|, Central(es, i), CentralEntry(es[i], |Locals(es[..i])|), c);
  }

  lemma PiecesAt(a: Bytes, c: Bytes, e: Bytes)
    ensures At(a + c + e, 0, a) && At(a + c + e, |a|, c)
  {
    Pieces(a, c, e);
    assert (a + c + e)[0..|a|] == (a + c + e)[..|a|];
  }

  lemma {:induction false} EntryRead(es: seq<Entry>, i: nat)
    requires i < |es| && Fits(es)
    ensures
      var p := |Locals(es)| + |Central(es, i)|;
      ReadEntry(Archive(es), p) ==
      OneRead(Found(es[i].name, es[i].data, Checksum(es[i].data)), |Locals(es)| + |Central(es, i + 1)|)
  {
    hide Record, Fields, Locals, Central, Checksum, Archive, Total, LocalWidths, CentralWidths, At, Local, CentralEntry,
         CentralValues, LocalValues;
    var z, e, local, p := Archive(es), es[i], |Locals(es[..i])|, |Locals(es)| + |Central(es, i)|;
    assert e in es;
    Placed(es, i);
    CentralRead(z, p, e, local);
    LocalRead(z, local, e);
    CentralStep(es, i);
    ValuesRead(e, local);
    WidthTotals();
  }

  lemma ValuesRead(e: Entry, offset: nat)
    requires |e.name| < 0x1_0000 && |e.data| < 0x1_0000_0000 && offset < 0x1_0000_0000
    ensures |CentralValues(e, offset)| == 17 && |LocalValues(e)| == 11
    ensures
      var c := CentralValues(e, offset);
      && c[0] == CENTRAL_SIGNATURE && c[3] == c[4] == 0 && c[7] == Checksum(e.data)
      && c[8] == c[9] == |e.data| && c[10] == |e.name| && c[11] == c[12] == 0 && c[16] == offset
    ensures
      var l := LocalValues(e);
      l[0] == LOCAL_SIGNATURE && l[9] == |e.name| && l[10] == 0
  {
  }

  lemma CentralStep(es: seq<Entry>, i: nat)
    requires i < |es|
    ensures Central(es, i + 1) == Central(es, i) + CentralEntry(es[i], |Locals(es[..i])|)
  {
  }

  /** A record with its name and data behind it. */
  lemma {:induction false} Behind(z: Bytes, p: nat, values: seq<nat>, widths: seq<nat>, name: Bytes, data: Bytes)
    requires InRange(values, widths) && At(z, p, Record(values, widths, 0) + name + data)
    ensures
      var n := Total(widths, 0);
      && |z| >= p + n + |name| + |data| && Fields(z, p, widths, 0) == values
      && z[p + n..p + n + |name|] == name && z[p + n + |name|..p + n + |name| + |data|] == data
  {
    var r := Record(values, widths, 0);
    AtSplit(z, p, r + name, data);
    AtSplit(z, p, r, name);
    hide Record, Fields, Total, InRange;
    RecordRead(z, p, values, widths, 0);
    assert values[0..] == values;
  }

  lemma {:induction false} CentralRead(z: Bytes, p: nat, e: Entry, offset: nat)
    requires At(z, p, CentralEntry(e, offset))
    ensures |z| >= p + 46 + |e.name| && Total(CentralWidths(), 0) == 46
    ensures Fields(z, p, CentralWidths(), 0) == CentralValues(e, offset) && z[p + 46..p + 46 + |e.name|] == e.name
    ensures |CentralEntry(e, offset)| == 46 + |e.name|
  {
    WidthTotals();
    InRangeCentral(e, offset);
    hide Record, Fields, Total, InRange, CentralWidths, CentralValues, At;
    assert CentralEntry(e, offset) == CentralEntry(e, offset) + [];
    Behind(z, p, CentralValues(e, offset), CentralWidths(), e.name, []);
  }

  lemma {:induction false} LocalRead(z: Bytes, p: nat, e: Entry)
    requires At(z, p, Local(e))
    ensures |z| >= p + 30 + |e.name| + |e.data| && Total(LocalWidths(), 0) == 30
    ensures Fields(z, p, LocalWidths(), 0) == LocalValues(e) && z[p + 30..p + 30 + |e.name|] == e.name
    ensures z[p + 30 + |e.name|..p + 30 + |e.name| + |e.data|] == e.data
  {
    WidthTotals();
    InRangeLocal(e);
    hide Record, Fields, Total, InRange, LocalWidths, LocalValues, At;
    Behind(z, p, LocalValues(e), LocalWidths(), e.name, e.data);
  }

  lemma {:induction false} EntriesRead(es: seq<Entry>, i: nat)
    requires i <= |es| && Fits(es)
    ensures ReadEntries(Archive(es), |Locals(es)| + |Central(es, i)|, |es| - i) == Listing(Members(es[i..]))
    decreases |es| - i
  {
    hide ReadEntry, Archive, Locals, Central, Fits, Checksum;
    if i < |es| {
      EntryRead(es, i);
      EntriesRead(es, i + 1);
      assert es[i..][1..] == es[i + 1..];
    }
  }

  /** The reader recovers exactly the names, the data and the checksums, in order. */
  lemma {:induction false} ArchiveRoundTrip(es: seq<Entry>)
    requires Fits(es)
    ensures ReadArchive(Archive(es)) == Listing(Members(es))
  {
    hide Locals, Central, Record, Fields, Total, EndWidths, EndValues, ReadEntries, Members;
    var z, a, c := Archive(es), Locals(es), Central(es, |es|);
    InRangeEnd(|es|, |c|, |a|);
    WidthTotals();
    var e := Record(EndOf(es), EndWidths(), 0);
    assert z[|a| + |c|..|a| + |c| + |e|] == e;
    assert At(z, |a| + |c|, e + [] + []) by { assert e + [] + [] == e; }
    hide At, Archive;
    Behind(z, |a| + |c|, EndOf(es), EndWidths(), [], []);
    EndRead(|es|, |c|, |a|);
    EntriesRead(es, 0);
    NoCentral(es);
    assert es[0..] == es;
  }

  lemma EndRead(count: nat, size: nat, offset: nat)
    requires count < 0x1_0000 && size + offset < 0x1_0000_0000
    ensures |EndValues(count, size, offset)| == 8
    ensures
      var v := EndValues(count, size, offset);
      v[0] == END_SIGNATURE && v[3] == v[4] == count && v[5] == size && v[6] == offset
  {
  }

  lemma NoCentral(es: seq<Entry>)
    ensures Central(es, 0) == []
  {
  }
}
