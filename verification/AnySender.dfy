/** What the reader makes of boxes that any sender may lay out: every version, every choice of optional
    fields, also those that the writers here never choose. */
module AnySender {
  import opened Bytes
  import opened SampleTables
  import opened Timing
  import opened TrackBoxes
  import opened Options
  import opened BoxParser
  import opened ReadTables
  import opened FragmentBoxes
  import opened FragmentRead
  import opened IndexBoxes

  /** An optional 32-bit field. */
  function Word(o: Option<uint32>): (b: seq<byte>)
    ensures |b| == if o.Some? then 4 else 0
  {
    match o case None => [] case Some(x) => BE32(x)
  }

  lemma WordThen(d: seq<byte>, p: nat, o: Option<uint32>, rest: seq<byte>)
    requires At(d, p, Word(o) + rest)
    ensures o.Some? ==> p + 4 <= |d| && Get32(d, p) == o.value
    ensures At(d, p + |Word(o)|, rest)
  {
    hide BE32, Get32;
    AtConcat(d, p, Word(o), rest);
    match o
    case None =>
    case Some(x) => Get32Of(d, p, x);
  }

  function Or(o: Option<uint32>, x: uint32): uint32 {
    match o case None => x case Some(y) => y
  }

  function Maybe(b: bool, x: uint32): Option<uint32> { if b then Some(x) else None }

  // ---- tkhd, trex ----

  /** The id of a track stands behind two times, of 64 bits in version 1. */
  lemma AnyTkhd(d: seq<byte>, p: nat, st: Reading, large: bool, flags: uint24, created: uint64, modified: uint64,
                id: uint32, rest: seq<byte>)
    requires !large ==> created <= UINT32_MAX && modified <= UINT32_MAX
    requires |rest| >= 8
    requires At(d, p, [if large then 1 else 0] + BE24(flags)
                      + ((if large then BE64(created) + BE64(modified) else BE32(created) + BE32(modified)) + (BE32(id) + rest)))
    ensures ParseLeaf(d, p, p + (if large then 24 else 16) + |rest|, TKHD, Trak, st) == Read(FetchTrack(st, id))
  {
    hide BE24, BE32, BE64, Get32, FetchTrack;
    var times := if large then BE64(created) + BE64(modified) else BE32(created) + BE32(modified);
    FullAt(d, p, if large then 1 else 0, flags, times + (BE32(id) + rest));
    AtConcat(d, p + 4, times, BE32(id) + rest);
    AtConcat(d, p + 4 + |times|, BE32(id), rest);
    Get32Of(d, p + 4 + |times|, id);
    assert |d| >= p + 8 + |times| + |rest|;
  }

  lemma AnyTrex(d: seq<byte>, p: nat, st: Reading, flags: uint24, id: uint32, defs: Defaults)
    requires At(d, p, [0] + BE24(flags) + (BE32(id) + (BE32(defs.sdi) + (BE32(defs.duration) + (BE32(defs.size) + BE32(defs.flags))))))
    ensures ParseTrex(d, p, p + 24, st)
         == Read(FetchTrack(st, id).With(FetchTrack(st, id).Track().(trex := defs)).(cur := st.cur))
  {
    hide BE24, BE32, Get32, FetchTrack;
    FullAt(d, p, 0, flags, BE32(id) + (BE32(defs.sdi) + (BE32(defs.duration) + (BE32(defs.size) + BE32(defs.flags)))));
    WordThen(d, p + 4, Some(id), BE32(defs.sdi) + (BE32(defs.duration) + (BE32(defs.size) + BE32(defs.flags))));
    WordThen(d, p + 8, Some(defs.sdi), BE32(defs.duration) + (BE32(defs.size) + BE32(defs.flags)));
    WordThen(d, p + 12, Some(defs.duration), BE32(defs.size) + BE32(defs.flags));
    WordThen(d, p + 16, Some(defs.size), BE32(defs.flags));
    Get32Of(d, p + 20, defs.flags);
  }

  /** A track that has just been met: nothing is known of it, and all its defaults are 0. */
  lemma MetFirst(st: Reading, id: uint32)
    requires forall i :: 0 <= i < |st.tracks| ==> st.tracks[i].id != id
    ensures var t := FetchTrack(st, id).Track();
      && FetchTrack(st, id).tracks == st.tracks + [t] && t.id == id && t.samples == [] && t.sizes == [] && t.frags == []
      && t.elst == [] && t.clock == 0 && t.trex == Defaults(0, 0, 0, 0)
  {
  }

  // ---- tfhd ----

  /** The fields that a sender may give; without a base offset, whether offsets count from the moof. */
  datatype Given = Given(base: Option<uint64>, sdi: Option<uint32>, duration: Option<uint32>, size: Option<uint32>,
                         flags: Option<uint32>, fromMoof: bool) {
    function Flags(): uint24 {
      (if base.Some? then 1 else 0) + (if sdi.Some? then 2 else 0) + (if duration.Some? then 8 else 0)
      + (if size.Some? then 0x10 else 0) + (if flags.Some? then 0x20 else 0) + (if fromMoof then 0x2_0000 else 0)
    }

    function Body(): seq<byte> {
      (match base case None => [] case Some(x) => BE64(x)) + (Word(sdi) + (Word(duration) + (Word(size) + Word(flags))))
    }
  }

  lemma GivenBits(g: Given)
    ensures var f := g.Flags();
      && (Has(f, TFHD_BASE_DATA_OFFSET) <==> g.base.Some?) && (Has(f, TFHD_SAMPLE_DESCRIPTION_INDEX) <==> g.sdi.Some?)
      && (Has(f, TFHD_DEFAULT_DURATION) <==> g.duration.Some?) && (Has(f, TFHD_DEFAULT_SIZE) <==> g.size.Some?)
      && (Has(f, TFHD_DEFAULT_FLAGS) <==> g.flags.Some?) && (Has(f, TFHD_DEFAULT_BASE_IS_MOOF) <==> g.fromMoof)
  {
  }

  /** A given field is taken, any other comes from trex; offsets count from the place given, from the moof,
      or from where the data of the fragment so far ends. */
  lemma AnyTfhd(d: seq<byte>, p: nat, st: Reading, version: byte, id: uint32, g: Given)
    requires At(d, p, [version] + BE24(g.Flags()) + (BE32(id) + g.Body()))
    ensures var o, i := ParseTfhd(d, p, p + 8 + |g.Body()|, st), FindTrack(st.tracks, id);
      if i < 0 then o == Refused else
        var t := st.tracks[i];
        var base := match g.base case Some(x) => x case None => if g.fromMoof then st.moof else st.implicit;
        var defs := Defaults(Or(g.sdi, t.trex.sdi), Or(g.duration, t.trex.duration), Or(g.size, t.trex.size),
                             Or(g.flags, t.trex.flags));
        o == Read(st.(cur := i, tracks := st.tracks[i := t.(tfhd := Tfhd(g.Flags(), base, defs))]))
  {
    hide BE24, BE32, Get24, Get32, Get64, Has, FindTrack, Given.Flags, Word, Given.Body, At;
    GivenBits(g);
    FullAt(d, p, version, g.Flags(), BE32(id) + g.Body());
    OneWord(id);
    WordThen(d, p + 4, Some(id), g.Body());
    GivenRead(d, p + 8, g);
    BodySize(g);
  }

  lemma OneWord(n: uint32)
    ensures Word(Some(n)) == BE32(n)
  {
  }

  lemma BodySize(g: Given)
    ensures |g.Body()| == (if g.base.Some? then 8 else 0) + |Word(g.sdi)| + |Word(g.duration)| + |Word(g.size)| + |Word(g.flags)|
  {
    hide Word;
  }

  /** The fields that are there, one behind the other. */
  lemma GivenRead(d: seq<byte>, p: nat, g: Given)
    requires At(d, p, g.Body())
    ensures p + |g.Body()| <= |d| && (g.base.Some? ==> p + 8 <= |d| && Get64(d, p) == g.base.value)
    ensures var a := p + if g.base.Some? then 8 else 0;
      var b := a + |Word(g.sdi)|;
      var c := b + |Word(g.duration)|;
      var e := c + |Word(g.size)|;
      && (g.sdi.Some? ==> a + 4 <= |d| && Get32(d, a) == g.sdi.value)
      && (g.duration.Some? ==> b + 4 <= |d| && Get32(d, b) == g.duration.value)
      && (g.size.Some? ==> c + 4 <= |d| && Get32(d, c) == g.size.value)
      && (g.flags.Some? ==> e + 4 <= |d| && Get32(d, e) == g.flags.value)
  {
    hide BE32, BE64, Get32, Get64, Word;
    var rest := Word(g.sdi) + (Word(g.duration) + (Word(g.size) + Word(g.flags)));
    var a := p;
    match g.base {
      case None =>
        assert g.Body() == rest;
      case Some(x) =>
        AtConcat(d, p, BE64(x), rest);
        Get64Of(d, p, x);
        a := p + 8;
    }
    assert At(d, a, rest);
    WordsRead(d, a, g.sdi, g.duration, g.size, g.flags);
  }

  lemma WordsRead(d: seq<byte>, p: nat, w0: Option<uint32>, w1: Option<uint32>, w2: Option<uint32>, w3: Option<uint32>)
    requires At(d, p, Word(w0) + (Word(w1) + (Word(w2) + Word(w3))))
    ensures var q1 := p + |Word(w0)|;
      var q2 := q1 + |Word(w1)|;
      var q3 := q2 + |Word(w2)|;
      && q3 + |Word(w3)| <= |d|
      && (w0.Some? ==> p + 4 <= |d| && Get32(d, p) == w0.value)
      && (w1.Some? ==> q1 + 4 <= |d| && Get32(d, q1) == w1.value)
      && (w2.Some? ==> q2 + 4 <= |d| && Get32(d, q2) == w2.value)
      && (w3.Some? ==> q3 + 4 <= |d| && Get32(d, q3) == w3.value)
  {
    hide Get32, Word;
    WordThen(d, p, w0, Word(w1) + (Word(w2) + Word(w3)));
    var q := p + |Word(w0)|;
    WordThen(d, q, w1, Word(w2) + Word(w3));
    q := q + |Word(w1)|;
    WordThen(d, q, w2, Word(w3));
    q := q + |Word(w2)|;
    assert Word(w3) + [] == Word(w3);
    WordThen(d, q, w3, []);
  }

  // ---- trun ----

  /** What a sender says of one sample. */
  datatype Rec = Rec(duration: uint32, size: uint32, flags: uint32, cts: uint32)

  /** The fields that a run has, and the two that stand in front of its samples. */
  datatype Layout = Layout(version: byte, offset: Option<uint32>, first: Option<uint32>, durations: bool, sizes: bool,
                           flags: bool, cts: bool) {
    function Flags(): uint24 {
      (if offset.Some? then 1 else 0) + (if first.Some? then 4 else 0) + (if durations then 0x100 else 0)
      + (if sizes then 0x200 else 0) + (if flags then 0x400 else 0) + (if cts then 0x800 else 0)
    }

    function EntryBytes(r: Rec): (b: seq<byte>)
      ensures |b| == (if durations then 4 else 0) + (if sizes then 4 else 0) + (if flags then 4 else 0) + (if cts then 4 else 0)
    {
      (if durations then BE32(r.duration) else []) + ((if sizes then BE32(r.size) else [])
      + ((if flags then BE32(r.flags) else []) + (if cts then BE32(r.cts) else [])))
    }

    function Size(): nat {
      (if durations then 4 else 0) + (if sizes then 4 else 0) + (if flags then 4 else 0) + (if cts then 4 else 0)
    }

    function Records(rs: seq<Rec>): (b: seq<byte>) {
      if rs == [] then [] else Records(rs[..|rs| - 1]) + EntryBytes(rs[|rs| - 1])
    }

    // What a sample is: as its record says, or as the track fragment header does.

    function Durations(rs: seq<Rec>, h: Tfhd): (xs: seq<uint32>)
      ensures |xs| == |rs|
    {
      seq(|rs|, i requires 0 <= i < |rs| => Or(Maybe(durations, rs[i].duration), h.defs.duration))
    }

    function SizesOf(rs: seq<Rec>, h: Tfhd): (xs: seq<uint32>)
      ensures |xs| == |rs|
    {
      seq(|rs|, i requires 0 <= i < |rs| => Or(Maybe(sizes, rs[i].size), h.defs.size))
    }

    /** The first sample has flags of its own, or what the flags word of tfhd happens to be. */
    function SampleFlags(r: Rec, h: Tfhd, isFirst: bool): uint32 {
      if flags then r.flags else if isFirst then Or(first, h.flags) else h.defs.flags
    }

    function Offset(r: Rec): int {
      if !cts then 0 else if version == 1 then S32(r.cts) else r.cts
    }

    function SampleOf(rs: seq<Rec>, h: Tfhd, start: int, clock: int, k: nat): Media
      requires k < |rs|
    {
      var dts := clock + Sum(Durations(rs, h)[..k]);
      var f := SampleFlags(rs[k], h, k == 0);
      Media(if f / 0x1_0000 % 2 == 1 || f / 0x100_0000 % 2 == 1 then 0 else 1, dts + Offset(rs[k]), dts,
            U64(start + Sum(SizesOf(rs, h)[..k])), SizesOf(rs, h)[k], h.defs.sdi)
    }
  }

  lemma LayoutBits(x: Layout)
    ensures var f := x.Flags();
      && (Has(f, TRUN_DATA_OFFSET) <==> x.offset.Some?) && (Has(f, TRUN_FIRST_SAMPLE_FLAGS) <==> x.first.Some?)
      && (Has(f, TRUN_DURATION) <==> x.durations) && (Has(f, TRUN_SIZE) <==> x.sizes)
      && (Has(f, TRUN_FLAGS) <==> x.flags) && (Has(f, TRUN_CTS) <==> x.cts)
  {
  }

  function HeadFor(x: Layout, h: Tfhd): RunHead {
    RunHead(x.version, x.Flags(), h, Or(x.first, h.flags))
  }

  lemma SizeIs(x: Layout, h: Tfhd)
    ensures HeadFor(x, h).EntrySize() == x.Size()
  {
    hide Has, Layout.Flags;
    LayoutBits(x);
  }

  /** One record, whichever fields it has. */
  lemma RecordRead(d: seq<byte>, e: nat, x: Layout, h: Tfhd, r: Rec, isFirst: bool, was: Progress)
    requires At(d, e, x.EntryBytes(r))
    ensures e + HeadFor(x, h).EntrySize() <= |d|
    ensures var size := if x.sizes then r.size else h.defs.size;
      var f := x.SampleFlags(r, h, isFirst);
      AddEntry(d, e, HeadFor(x, h), isFirst, was)
      == Progress(was.samples + [Media(if f / 0x1_0000 % 2 == 1 || f / 0x100_0000 % 2 == 1 then 0 else 1,
                                       was.dts + x.Offset(r), was.dts, was.offset, size, h.defs.sdi)],
                  U64(was.offset + size), was.dts + if x.durations then r.duration else h.defs.duration)
  {
    hide BE32, Get32, Has, Layout.Flags;
    LayoutBits(x);
    SizeIs(x, h);
    FlagBits(x.SampleFlags(r, h, isFirst));
    var a, b, c, g := Maybe(x.durations, r.duration), Maybe(x.sizes, r.size), Maybe(x.flags, r.flags), Maybe(x.cts, r.cts);
    assert x.EntryBytes(r) == Word(a) + (Word(b) + (Word(c) + Word(g)));
    WordsRead(d, e, a, b, c, g);
  }

  lemma FlagBits(f: uint32)
    ensures KeyOf(f) == if f / 0x1_0000 % 2 == 1 || f / 0x100_0000 % 2 == 1 then 0 else 1
  {
  }

  /** What has been read after the first `n` records. */
  function After(x: Layout, rs: seq<Rec>, h: Tfhd, start: int, clock: int, n: nat): Progress
    requires n <= |rs|
  {
    Progress(seq(n, k requires 0 <= k < n => x.SampleOf(rs, h, start, clock, k)),
             U64(start + Sum(x.SizesOf(rs, h)[..n])), clock + Sum(x.Durations(rs, h)[..n]))
  }

  lemma SumNext(xs: seq<uint32>, k: nat)
    requires k < |xs|
    ensures Sum(xs[..k + 1]) == Sum(xs[..k]) + xs[k]
  {
    assert xs[..k + 1][..k] == xs[..k];
  }

  lemma AfterNext(x: Layout, rs: seq<Rec>, h: Tfhd, start: int, clock: int, k: nat)
    requires k < |rs|
    ensures var was, now := After(x, rs, h, start, clock, k), After(x, rs, h, start, clock, k + 1);
      && now.samples == was.samples + [x.SampleOf(rs, h, start, clock, k)]
      && now.offset == U64(was.offset + x.SizesOf(rs, h)[k]) && now.dts == was.dts + x.Durations(rs, h)[k]
  {
    hide Layout.SampleOf, Sum, U64;
    SumNext(x.SizesOf(rs, h), k);
    SumNext(x.Durations(rs, h), k);
    U64Sum(start + Sum(x.SizesOf(rs, h)[..k]), x.SizesOf(rs, h)[k]);
  }

  lemma {:induction false} RecordsLength(x: Layout, rs: seq<Rec>)
    ensures |x.Records(rs)| == |rs| * x.Size()
  {
    hide Layout.EntryBytes, Layout.Size;
    if rs != [] {
      RecordsLength(x, rs[..|rs| - 1]);
      Mul(|rs|, x.Size());
      EntryLength(x, rs[|rs| - 1]);
    }
  }

  lemma EntryLength(x: Layout, r: Rec)
    ensures |x.EntryBytes(r)| == x.Size()
  {
  }

  lemma {:induction false} RecordsRead(d: seq<byte>, e: nat, x: Layout, h: Tfhd, rs: seq<Rec>, start: int, clock: int, n: nat)
    requires n <= |rs| && At(d, e, x.Records(rs[..n]))
    ensures e + n * HeadFor(x, h).EntrySize() <= |d|
    ensures Entries(d, e, n, HeadFor(x, h), Progress([], U64(start), clock)) == After(x, rs, h, start, clock, n)
    decreases n
  {
    hide AddEntry, Layout.EntryBytes, Layout.SampleOf, RunHead.EntrySize, At, HeadFor, After, U64;
    if n == 0 {
      AfterNothing(x, rs, h, start, clock);
      assert x.Records(rs[..0]) == [];
      EntriesStart(d, e);
    } else {
      var k := n - 1;
      assert rs[..n][..k] == rs[..k] && rs[..n][k] == rs[k];
      AtConcat(d, e, x.Records(rs[..k]), x.EntryBytes(rs[k]));
      RecordsRead(d, e, x, h, rs, start, clock, k);
      RecordsLength(x, rs[..k]);
      SizeIs(x, h);
      var was := After(x, rs, h, start, clock, k);
      RecordRead(d, e + k * HeadFor(x, h).EntrySize(), x, h, rs[k], k == 0, was);
      Mul(n, HeadFor(x, h).EntrySize());
      EntriesNext(d, e, n, HeadFor(x, h), Progress([], U64(start), clock));
      AfterNext(x, rs, h, start, clock, k);
      WasAt(x, rs, h, start, clock, k);
    }
  }

  lemma AfterNothing(x: Layout, rs: seq<Rec>, h: Tfhd, start: int, clock: int)
    ensures After(x, rs, h, start, clock, 0) == Progress([], U64(start), clock)
  {
    assert x.SizesOf(rs, h)[..0] == [] && x.Durations(rs, h)[..0] == [];
  }

  lemma WasAt(x: Layout, rs: seq<Rec>, h: Tfhd, start: int, clock: int, k: nat)
    requires k < |rs|
    ensures var was, f := After(x, rs, h, start, clock, k), x.SampleFlags(rs[k], h, k == 0);
      x.SampleOf(rs, h, start, clock, k)
      == Media(if f / 0x1_0000 % 2 == 1 || f / 0x100_0000 % 2 == 1 then 0 else 1, was.dts + x.Offset(rs[k]), was.dts,
               was.offset, if x.sizes then rs[k].size else h.defs.size, h.defs.sdi)
    ensures x.SizesOf(rs, h)[k] == if x.sizes then rs[k].size else h.defs.size
    ensures x.Durations(rs, h)[k] == if x.durations then rs[k].duration else h.defs.duration
  {
    hide Sum, U64;
  }

  /** A run that any sender lays out: the times are the durations added up, the places the sizes, from the
      base of the track fragment and the signed data offset on. */
  lemma AnyTrun(d: seq<byte>, p: nat, st: Reading, x: Layout, rs: seq<Rec>)
    requires st.HasTrack() && |st.Track().samples| == |st.Track().sizes| && |rs| <= UINT32_MAX
    requires At(d, p, [x.version] + BE24(x.Flags()) + (BE32(|rs|) + (Word(x.offset) + (Word(x.first) + x.Records(rs)))))
    ensures var t := st.Track();
      var start := t.tfhd.base + match x.offset case None => 0 case Some(o) => S32(o);
      var r := After(x, rs, t.tfhd, start, t.clock, |rs|);
      ParseTrun(d, p, p + 8 + |Word(x.offset)| + |Word(x.first)| + |x.Records(rs)|, st)
      == Read(st.With(t.(samples := t.samples + r.samples, sizes := t.sizes + Sizes(r.samples), clock := r.dts))
                .(implicit := r.offset))
  {
    hide BE24, BE32, Get24, Get32, Has, Layout.Flags, Layout.Records, Word, Entries, After, RunHead.EntrySize, Sizes, U64;
    LayoutBits(x);
    var t := st.Track();
    var start := t.tfhd.base + match x.offset case None => 0 case Some(o) => S32(o);
    var w0, w1 := Word(x.offset), Word(x.first);
    FullAt(d, p, x.version, x.Flags(), BE32(|rs|) + (w0 + (w1 + x.Records(rs))));
    OneWord(|rs|);
    WordThen(d, p + 4, Some(|rs|), w0 + (w1 + x.Records(rs)));
    WordThen(d, p + 8, x.offset, w1 + x.Records(rs));
    WordThen(d, p + 8 + |w0|, x.first, x.Records(rs));
    assert TrunFront(x.Flags()) == 8 + |w0| + |w1|;
    assert HeadOf(d, p, t.tfhd) == HeadFor(x, t.tfhd);
    var e := p + 8 + |w0| + |w1|;
    assert rs[..|rs|] == rs;
    RecordsRead(d, e, x, t.tfhd, rs, start, t.clock, |rs|);
    RecordsLength(x, rs);
    SizeIs(x, t.tfhd);
  }

  // ---- tfra ----

  /** An entry of an index: time and offset, then three numbers of one to four bytes that are not kept. */
  function EntryOf(large: bool, m: Mark, numbers: seq<byte>): seq<byte>
    requires Short(large, m)
  {
    (if large then BE64(m.time) + BE64(m.offset) else BE32(m.time) + BE32(m.offset)) + numbers
  }

  ghost predicate Short(large: bool, m: Mark) { !large ==> m.time <= UINT32_MAX && m.offset <= UINT32_MAX }

  function EntriesOf(large: bool, ms: seq<Mark>, numbers: seq<seq<byte>>): seq<byte>
    requires |numbers| == |ms| && forall i :: 0 <= i < |ms| ==> Short(large, ms[i])
  {
    if ms == [] then [] else
      var n := |ms| - 1;
      EntriesOf(large, ms[..n], numbers[..n]) + EntryOf(large, ms[n], numbers[n])
  }

  lemma {:induction false} AnyMarks(d: seq<byte>, e: nat, large: bool, ms: seq<Mark>, numbers: seq<seq<byte>>, sizes: uint32)
    requires |numbers| == |ms| && forall i :: 0 <= i < |ms| ==> Short(large, ms[i]) && |numbers[i]| == NumberSize(sizes)
    requires At(d, e, EntriesOf(large, ms, numbers))
    ensures |EntriesOf(large, ms, numbers)| == |ms| * MarkSize(large, sizes)
    ensures e + |ms| * MarkSize(large, sizes) <= |d| && Marks(d, e, |ms|, large, sizes) == ms
    decreases ms
  {
    hide NumberSize, MarkSize, MarkAt, EntryOf, At, EntriesOf, Marks;
    if ms == [] {
      NoMarks(d, e, large, sizes);
    } else {
      var n, size := |ms| - 1, MarkSize(large, sizes);
      EntriesSplit(large, ms, numbers);
      AtConcat(d, e, EntriesOf(large, ms[..n], numbers[..n]), EntryOf(large, ms[n], numbers[n]));
      AnyMarks(d, e, large, ms[..n], numbers[..n], sizes);
      MarkThere(d, e + n * size, large, ms[n], numbers[n]);
      SizeOfMark(large, sizes);
      MarksNext(d, e, |ms|, large, sizes);
      assert ms == ms[..n] + [ms[n]];
    }
  }

  lemma NoMarks(d: seq<byte>, e: nat, large: bool, sizes: uint32)
    requires At(d, e, EntriesOf(large, [], []))
    ensures EntriesOf(large, [], []) == [] && e <= |d| && Marks(d, e, 0, large, sizes) == []
  {
  }

  lemma EntriesSplit(large: bool, ms: seq<Mark>, numbers: seq<seq<byte>>)
    requires ms != [] && |numbers| == |ms| && forall i :: 0 <= i < |ms| ==> Short(large, ms[i])
    ensures var n := |ms| - 1;
      EntriesOf(large, ms, numbers) == EntriesOf(large, ms[..n], numbers[..n]) + EntryOf(large, ms[n], numbers[n])
  {
    hide EntryOf;
  }

  lemma MarksNext(d: seq<byte>, e: nat, n: nat, large: bool, sizes: uint32)
    requires n > 0 && e + (n - 1) * MarkSize(large, sizes) + MarkSize(large, sizes) <= |d|
    ensures n * MarkSize(large, sizes) == (n - 1) * MarkSize(large, sizes) + MarkSize(large, sizes)
    ensures MarkSize(large, sizes) >= (if large then 16 else 8)
    ensures Marks(d, e, n, large, sizes)
         == Marks(d, e, n - 1, large, sizes) + [MarkAt(d, e + (n - 1) * MarkSize(large, sizes), large)]
  {
    hide MarkAt;
    Mul(n, MarkSize(large, sizes));
  }

  lemma SizeOfMark(large: bool, sizes: uint32)
    ensures MarkSize(large, sizes) == (if large then 16 else 8) + NumberSize(sizes)
  {
  }

  lemma MarkThere(d: seq<byte>, q: nat, large: bool, m: Mark, numbers: seq<byte>)
    requires Short(large, m) && At(d, q, EntryOf(large, m, numbers))
    ensures q + (if large then 16 else 8) + |numbers| <= |d| && MarkAt(d, q, large) == m
    ensures |EntryOf(large, m, numbers)| == (if large then 16 else 8) + |numbers|
  {
    hide BE32, BE64, Get32, Get64;
    if large {
      AtConcat(d, q, BE64(m.time) + BE64(m.offset), numbers);
      AtConcat(d, q, BE64(m.time), BE64(m.offset));
      Get64Of(d, q, m.time);
      Get64Of(d, q + 8, m.offset);
    } else {
      AtConcat(d, q, BE32(m.time) + BE32(m.offset), numbers);
      AtConcat(d, q, BE32(m.time), BE32(m.offset));
      Get32Of(d, q, m.time);
      Get32Of(d, q + 4, m.offset);
    }
  }

  lemma Widths(a: nat, b: nat, c: nat)
    requires 1 <= a <= 4 && 1 <= b <= 4 && 1 <= c <= 4
    ensures NumberSize((a - 1) * 16 + (b - 1) * 4 + (c - 1)) == a + b + c
  {
  }

  /** An index in either version, its three numbers of `a`, `b` and `c` bytes. */
  lemma AnyTfra(d: seq<byte>, p: nat, st: Reading, large: bool, flags: uint24, id: uint32, a: nat, b: nat, c: nat,
                ms: seq<Mark>, numbers: seq<seq<byte>>)
    requires 1 <= a <= 4 && 1 <= b <= 4 && 1 <= c <= 4 && |ms| <= UINT32_MAX
    requires |numbers| == |ms| && forall i :: 0 <= i < |ms| ==> Short(large, ms[i]) && |numbers[i]| == a + b + c
    requires At(d, p, [if large then 1 else 0] + BE24(flags)
                      + (BE32(id) + (BE32((a - 1) * 16 + (b - 1) * 4 + (c - 1)) + (BE32(|ms|) + EntriesOf(large, ms, numbers)))))
    ensures var o, i := ParseTfra(d, p, p + 16 + |EntriesOf(large, ms, numbers)|, st), FindTrack(st.tracks, id);
      o == if i < 0 then Refused else Read(st.(tracks := st.tracks[i := st.tracks[i].(frags := ms)]))
  {
    hide BE24, BE32, Get24, Get32, FindTrack, EntriesOf, Marks, MarkSize, NumberSize, Word;
    var sizes := (a - 1) * 16 + (b - 1) * 4 + (c - 1);
    var entries := EntriesOf(large, ms, numbers);
    Widths(a, b, c);
    OneWord(id);
    OneWord(sizes);
    OneWord(|ms|);
    FullAt(d, p, if large then 1 else 0, flags, BE32(id) + (BE32(sizes) + (BE32(|ms|) + entries)));
    WordThen(d, p + 4, Some(id), BE32(sizes) + (BE32(|ms|) + entries));
    WordThen(d, p + 8, Some(sizes), BE32(|ms|) + entries);
    WordThen(d, p + 12, Some(|ms|), entries);
    AnyMarks(d, p + 16, large, ms, numbers, sizes);
  }

  // ---- Edit lists ----

  /** The first time of a track is the length of the last empty edit, wherever it stands; 0 without one. */
  lemma {:induction false} LastEmptyEdit(es: seq<Elst>, i: nat)
    requires i <= |es| && forall k :: i <= k < |es| ==> es[k].time != -1
    ensures i == 0 ==> BaseTime(es) == 0
    ensures i > 0 && es[i - 1].time == -1 ==> BaseTime(es) == es[i - 1].duration
    decreases |es|
  {
    if i < |es| {
      LastEmptyEdit(es[..|es| - 1], i);
    }
  }

  /** All empty edits count for a fragment. */
  lemma {:induction false} EmptyEditsAdd(a: seq<Elst>, b: seq<Elst>)
    ensures EmptyEdits(a + b) == EmptyEdits(a) + EmptyEdits(b)
    decreases |b|
  {
    if b == [] {
      assert a + b == a;
    } else {
      EmptyEditsAdd(a, b[..|b| - 1]);
      assert (a + b)[..|a + b| - 1] == a + b[..|b| - 1];
    }
  }

  lemma EmptyEdit(e: Elst)
    ensures EmptyEdits([e]) == if e.time == -1 then e.duration else 0
  {
    assert [e][..0] == [];
  }
}
