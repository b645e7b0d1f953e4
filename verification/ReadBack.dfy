/** From a whole file back to samples: reading what the writer printed gives the tables of every
    track, and the samples rebuilt from them. */
module ReadBack {
  import opened Bytes
  import opened Runs
  import opened SampleTables
  import opened Timing
  import opened TrackBoxes
  import opened Options
  import opened BoxParser
  import opened ReadTables

  // ---- stbl ----

  /** What is asked of a track for its boxes to be readable: sizes and times within their fields, no
      empty sample, samples in file order, and a sample description that is a box. */
  ghost predicate Readable(v: TrackV) {
    && v.ms != [] && Chunkable(v) && CtsFit(v.ms)
    && v.duration < 0x1_0000_0000_0000_0000 && Delay(v.ms) < 0x1_0000_0000_0000_0000
    && |TrakBox(v)| <= UINT32_MAX
    && IsStsd(v.header.stsd)
  }

  function WithTimes(t: Tables, v: TrackV): Tables {
    var t := t.(stts := Compress(Deltas(v.ms)));
    var t := if HasStss(v.header) then t.(stss := KeyNumbers(v.ms)) else t;
    if WritesCtts(v.ms) then t.(ctts := Compress(Offsets(v.ms))) else t
  }

  function WithChunks(t: Tables, v: TrackV): Tables {
    t.(stsc := StscOf(Chunks(v.ms)), sizes := Sizes(v.ms), samples := [], stco := ChunkOffsets(v.ms, v.shift))
  }

  lemma Done(d: seq<byte>, end: nat, parent: Kind, st: Reading)
    ensures ParseBoxes(d, end, end, parent, st) == Read(st)
  {
  }

  lemma WithWith(st: Reading, a: Tables, b: Tables)
    requires st.HasTrack()
    ensures st.With(a).HasTrack() && st.With(a).Track() == a && st.With(a).With(b) == st.With(b)
    ensures st.With(st.Track()) == st
  {
  }

  /** After the first part of some boxes, the rest goes on from the tables found so far. */
  lemma TimeTablesRead(d: seq<byte>, p: nat, end: nat, st: Reading, t: Tables, v: TrackV)
    requires |v.ms| <= UINT32_MAX && At(d, p, TimeTables(v)) && st.HasTrack()
    requires |TimeTables(v)| <= UINT32_MAX && p + |TimeTables(v)| <= end
    ensures ParseBoxes(d, p, end, Stbl, st.With(t))
         == ParseBoxes(d, p + |TimeTables(v)|, end, Stbl, st.With(WithTimes(t, v)))
  {
    hide ParseBoxes, At, StssBox, SttsBox, CttsBox, Compress, Deltas, Offsets, KeyNumbers, WritesCtts, HasStss,
         NegativeRun, Reading.With, Reading.Track, Reading.HasTrack;
    var b1 := SttsBox(v.ms);
    var b2 := if HasStss(v.header) then StssBox(v.ms) else [];
    var b3 := if WritesCtts(v.ms) then CttsBox(v.ms, v.cttsV1 || NegativeRun(v.ms)) else [];
    AtConcat(d, p, b1 + b2, b3);
    AtConcat(d, p, b1, b2);
    SttsRead(d, p, end, st, t, v);
    var t1 := t.(stts := Compress(Deltas(v.ms)));
    var t2 := if HasStss(v.header) then t1.(stss := KeyNumbers(v.ms)) else t1;
    if HasStss(v.header) {
      WithWith(st, t1, t2);
      StssStep(d, p + |b1|, end, st.With(t1), v.ms);
    }
    if WritesCtts(v.ms) {
      CttsRead(d, p + |b1| + |b2|, end, st, t2, v);
    }
  }

  lemma SttsRead(d: seq<byte>, p: nat, end: nat, st: Reading, t: Tables, v: TrackV)
    requires |v.ms| <= UINT32_MAX && At(d, p, SttsBox(v.ms)) && st.HasTrack()
    requires |SttsBox(v.ms)| <= UINT32_MAX && p + |SttsBox(v.ms)| <= end
    ensures ParseBoxes(d, p, end, Stbl, st.With(t))
         == ParseBoxes(d, p + |SttsBox(v.ms)|, end, Stbl, st.With(t.(stts := Compress(Deltas(v.ms)))))
  {
    hide ParseBoxes, At, Compress, Deltas, FullBox, RunBytes, BE32, Reading.With, Reading.Track, Reading.HasTrack;
    CompressCanonical(Deltas(v.ms));
    WithWith(st, t, t.(stts := Compress(Deltas(v.ms))));
    RunsStep(d, p, end, st.With(t), "stts", 0, Compress(Deltas(v.ms)));
  }

  lemma CttsRead(d: seq<byte>, p: nat, end: nat, st: Reading, t: Tables, v: TrackV)
    requires |v.ms| <= UINT32_MAX && st.HasTrack()
    requires At(d, p, CttsBox(v.ms, v.cttsV1 || NegativeRun(v.ms)))
    requires |CttsBox(v.ms, v.cttsV1 || NegativeRun(v.ms))| <= UINT32_MAX
    requires p + |CttsBox(v.ms, v.cttsV1 || NegativeRun(v.ms))| <= end
    ensures ParseBoxes(d, p, end, Stbl, st.With(t))
         == ParseBoxes(d, p + |CttsBox(v.ms, v.cttsV1 || NegativeRun(v.ms))|, end, Stbl,
                       st.With(t.(ctts := Compress(Offsets(v.ms)))))
  {
    hide ParseBoxes, At, Compress, Offsets, FullBox, RunBytes, BE32, NegativeRun,
         Reading.With, Reading.Track, Reading.HasTrack;
    CompressCanonical(Offsets(v.ms));
    WithWith(st, t, t.(ctts := Compress(Offsets(v.ms))));
    RunsStep(d, p, end, st.With(t), "ctts", if v.cttsV1 || NegativeRun(v.ms) then 1 else 0, Compress(Offsets(v.ms)));
  }

  ghost predicate Chunkable(v: TrackV) {
    && |v.ms| <= UINT32_MAX && NonEmpty(v.ms) && OffsetsUp(v.ms)
    && (v.ms != [] ==> v.ms[|v.ms| - 1].offset + v.shift < 0x1_0000_0000_0000_0000)
  }

  lemma ChunkTablesRead(d: seq<byte>, p: nat, end: nat, st: Reading, t: Tables, v: TrackV)
    requires Chunkable(v) && At(d, p, ChunkTables(v)) && st.HasTrack()
    requires |ChunkTables(v)| <= UINT32_MAX && p + |ChunkTables(v)| == end
    ensures ParseBoxes(d, p, end, Stbl, st.With(t)) == Read(st.With(WithChunks(t, v)))
  {
    hide ParseBoxes, At, StscBox, StszBox, StcoBox, StscOf, Chunks, Sizes, ChunkOffsets,
         Reading.With, Reading.Track, Reading.HasTrack;
    var b1, b2, b3 := StscBox(v.ms), StszBox(v.ms), StcoBox(v.ms, v.shift);
    AtConcat(d, p, b1 + b2, b3);
    AtConcat(d, p, b1, b2);
    var t1 := t.(stsc := StscOf(Chunks(v.ms)));
    var t2 := t1.(sizes := Sizes(v.ms), samples := []);
    var t3 := t2.(stco := ChunkOffsets(v.ms, v.shift));
    WithWith(st, t, t1);
    StscStep(d, p, end, st.With(t), v.ms);
    WithWith(st, t1, t2);
    StszStep(d, p + |b1|, end, st.With(t1), v.ms);
    WithWith(st, t2, t3);
    StcoStep(d, p + |b1| + |b2|, end, st.With(t2), v.ms, v.shift);
    Done(d, end, Stbl, st.With(t3));
  }

  lemma SkipCodes()
    ensures Skipped(FourCC("stsd"), Stbl) && Skipped(FourCC("dref"), Dinf)
    ensures Skipped(FourCC("vmhd"), Minf) && Skipped(FourCC("smhd"), Minf) && Skipped(FourCC("nmhd"), Minf)
  {
    hide FourCC;
    SkipNumbers();
  }

  lemma SkipNumbers()
    ensures FourCC("stsd") == 0x7374_7364 && FourCC("dref") == 0x6472_6566 && FourCC("vmhd") == 0x766D_6864
    ensures FourCC("smhd") == 0x736D_6864 && FourCC("nmhd") == 0x6E6D_6864
  {
  }

  lemma HeaderCodes()
    ensures Skipped(FourCC("mdhd"), Mdia) && Skipped(FourCC("hdlr"), Mdia)
    ensures Skipped(FourCC("mvhd"), Moov) && Skipped(FourCC("udta"), Moov)
  {
    hide FourCC;
    HeaderNumbers();
  }

  lemma HeaderNumbers()
    ensures FourCC("mdhd") == 0x6D64_6864 && FourCC("hdlr") == 0x6864_6C72 && FourCC("mvhd") == 0x6D76_6864
    ensures FourCC("udta") == 0x7564_7461
  {
  }

  ghost predicate IsStsd(stsd: seq<byte>) {
    |stsd| > 8 && stsd == Box("stsd", stsd[8..])
  }

  lemma StblRead(d: seq<byte>, p: nat, st: Reading, t: Tables, v: TrackV)
    requires Chunkable(v) && IsStsd(v.header.stsd)
    requires At(d, p, StblBody(v)) && st.HasTrack() && |StblBody(v)| <= UINT32_MAX
    ensures ParseBoxes(d, p, p + |StblBody(v)|, Stbl, st.With(t))
         == Read(st.With(WithChunks(WithTimes(t, v), v)))
  {
    hide ParseBoxes, At, TimeTables, ChunkTables, WithTimes, WithChunks, Box, FourCC, Skipped, Reading.With,
         Reading.HasTrack;
    var end := p + |StblBody(v)|;
    var b1, b2, b3 := v.header.stsd, TimeTables(v), ChunkTables(v);
    AtConcat(d, p, b1 + b2, b3);
    AtConcat(d, p, b1, b2);
    SkipCodes();
    SkipStep(d, p, end, Stbl, st.With(t), "stsd", v.header.stsd[8..]);
    TimeTablesRead(d, p + |b1|, end, st, t, v);
    ChunkTablesRead(d, p + |b1| + |b2|, end, st, WithTimes(t, v), v);
  }

  // ---- The nest ----

  function AllTables(t: Tables, v: TrackV): Tables {
    WithChunks(WithTimes(t, v), v)
  }

  lemma ContainerStep(d: seq<byte>, p: nat, end: nat, parent: Kind, st: Reading, tag: string, body: seq<byte>,
                      kind: Kind)
    requires |tag| == 4 && At(d, p, Box(tag, body)) && Container(FourCC(tag), parent) == Some(kind)
    requires p + 8 < end && |body| + 8 <= UINT32_MAX && p + 8 + |body| <= end && kind != Trak && kind != Moof
    ensures ParseBoxes(d, p, end, parent, st)
         == Next(ParseBoxes(d, p + 8, p + 8 + |body|, kind, st), d, p + 8 + |body|, end, parent)
    ensures At(d, p + 8, body)
  {
    hide ParseBoxes, Box, FourCC, At, Container;
    BoxStep(d, p, end, parent, st, tag, body);
  }

  /** A container that is the last box of its parent. */
  lemma LastContainer(d: seq<byte>, p: nat, parent: Kind, st: Reading, tag: string, body: seq<byte>, kind: Kind,
                      st': Reading)
    requires |tag| == 4 && At(d, p, Box(tag, body)) && Container(FourCC(tag), parent) == Some(kind)
    requires 0 < |body| && |body| + 8 <= UINT32_MAX && kind != Trak && kind != Moof
    requires ParseBoxes(d, p + 8, p + 8 + |body|, kind, st) == Read(st')
    ensures ParseBoxes(d, p, p + |Box(tag, body)|, parent, st) == Read(st')
  {
    hide ParseBoxes, Box, FourCC, At, Container;
    ContainerStep(d, p, p + 8 + |body|, parent, st, tag, body, kind);
    Done(d, p + 8 + |body|, parent, st');
  }

  lemma SkipMediaHeader(d: seq<byte>, p: nat, end: nat, st: Reading, handler: Handler)
    requires At(d, p, MediaHeaderBox(handler)) && p + |MediaHeaderBox(handler)| <= end
    ensures ParseBoxes(d, p, end, Minf, st) == ParseBoxes(d, p + |MediaHeaderBox(handler)|, end, Minf, st)
  {
    hide ParseBoxes, At, FourCC, Skipped, Box, List32;
    SkipCodes();
    match handler
    case Video => SkipStep(d, p, end, Minf, st, "vmhd", [0] + BE24(1) + List32([0, 0]));
    case Audio => SkipStep(d, p, end, Minf, st, "smhd", [0] + BE24(0) + List32([0]));
    case Subtitle => SkipStep(d, p, end, Minf, st, "nmhd", [0] + BE24(0) + []);
  }

  lemma SkipDinf(d: seq<byte>, p: nat, end: nat, st: Reading)
    requires At(d, p, DinfBox()) && p + |DinfBox()| <= end
    ensures ParseBoxes(d, p, end, Minf, st) == ParseBoxes(d, p + |DinfBox()|, end, Minf, st)
  {
    hide ParseBoxes, At, FourCC, Skipped, Box, BE24, BE32;
    SkipCodes();
    NestCodes();
    ContainerStep(d, p, end, Minf, st, "dinf", DrefBox(), Dinf);
    SkipStep(d, p + 8, p + 36, Dinf, st, "dref", [0] + BE24(0) + (BE32(1) + FullBox("url ", 0, 1, [])));
    Done(d, p + 36, Dinf, st);
  }

  lemma MinfRead(d: seq<byte>, p: nat, st: Reading, t: Tables, v: TrackV)
    requires Chunkable(v) && IsStsd(v.header.stsd)
    requires At(d, p, MinfBody(v)) && st.HasTrack() && |MinfBody(v)| <= UINT32_MAX
    ensures ParseBoxes(d, p, p + |MinfBody(v)|, Minf, st.With(t)) == Read(st.With(AllTables(t, v)))
  {
    hide ParseBoxes, At, FourCC, Skipped, Box, MediaHeaderBox, DinfBox, StblBody, Reading.With, Reading.HasTrack,
         WithTimes, WithChunks, Chunkable, IsStsd;
    var end := p + |MinfBody(v)|;
    var b1, b2, b3 := MediaHeaderBox(v.header.handler), DinfBox(), Box("stbl", StblBody(v));
    AtConcat(d, p, b1 + b2, b3);
    AtConcat(d, p, b1, b2);
    SkipMediaHeader(d, p, end, st.With(t), v.header.handler);
    SkipDinf(d, p + |b1|, end, st.With(t));
    BoxHeader(d, p + |b1| + |b2|, "stbl", StblBody(v));
    StblRead(d, p + |b1| + |b2| + 8, st, t, v);
    NestCodes();
    SomeStbl(v);
    LastContainer(d, p + |b1| + |b2|, Minf, st.With(t), "stbl", StblBody(v), Stbl, st.With(AllTables(t, v)));
  }

  lemma SomeStbl(v: TrackV)
    ensures |StblBody(v)| > 0
  {
  }

  lemma SkipMediaHeaders(d: seq<byte>, p: nat, end: nat, st: Reading, v: TrackV)
    requires At(d, p, MdhdBox(v.header, v.duration)) && At(d, p + 32, HdlrBox(v.header.handler))
    requires p + 32 + |HdlrBox(v.header.handler)| <= end
    ensures ParseBoxes(d, p, end, Mdia, st)
         == ParseBoxes(d, p + 32 + |HdlrBox(v.header.handler)|, end, Mdia, st)
  {
    hide ParseBoxes, At, FourCC, Skipped, Box, List32, Tag, Text;
    HeaderCodes();
    SkipStep(d, p, end, Mdia, st, "mdhd",
             [0] + BE24(0) + List32([v.header.created, v.header.created, TIMESCALE, v.duration, 0x55C4_0000]));
    SkipStep(d, p + 32, end, Mdia, st, "hdlr",
             [0] + BE24(0) + (List32([0]) + Tag(HandlerType(v.header.handler)) + List32([0, 0, 0])
                              + Text(HandlerName(v.header.handler)) + [0]));
  }

  lemma MdiaRead(d: seq<byte>, p: nat, st: Reading, t: Tables, v: TrackV)
    requires Chunkable(v) && IsStsd(v.header.stsd)
    requires At(d, p, MdiaBody(v)) && st.HasTrack() && |MdiaBody(v)| <= UINT32_MAX
    ensures ParseBoxes(d, p, p + |MdiaBody(v)|, Mdia, st.With(t)) == Read(st.With(AllTables(t, v)))
  {
    hide ParseBoxes, At, FourCC, Box, MinfBody, MdhdBox, HdlrBox, Reading.With, Reading.HasTrack,
         AllTables, Chunkable, IsStsd;
    var end := p + |MdiaBody(v)|;
    var b1, b2, b3 := MdhdBox(v.header, v.duration), HdlrBox(v.header.handler), Box("minf", MinfBody(v));
    AtConcat(d, p, b1 + b2, b3);
    AtConcat(d, p, b1, b2);
    SkipMediaHeaders(d, p, end, st.With(t), v);
    BoxHeader(d, p + |b1| + |b2|, "minf", MinfBody(v));
    MinfRead(d, p + |b1| + |b2| + 8, st, t, v);
    NestCodes();
    SomeMinf(v);
    LastContainer(d, p + |b1| + |b2|, Mdia, st.With(t), "minf", MinfBody(v), Minf, st.With(AllTables(t, v)));
  }

  lemma SomeMinf(v: TrackV)
    ensures |MinfBody(v)| > 0 && |MdiaBody(v)| > 0
  {
  }

  /** An edit list is there when there are samples. */
  function WithEdits(t: Tables, v: TrackV): Tables {
    if v.ms == [] then t else t.(elst := ElstOf(v.ms, v.duration))
  }

  /** Times within the fields of an edit list. */
  ghost predicate Editable(v: TrackV) {
    v.ms != [] ==>
      && Cts(v.ms[0]) < 0x8000_0000
      && v.duration < 0x1_0000_0000_0000_0000 && Delay(v.ms) < 0x1_0000_0000_0000_0000
  }

  lemma EdtsRead(d: seq<byte>, p: nat, end: nat, st: Reading, t: Tables, v: TrackV)
    requires Editable(v) && At(d, p, EdtsBox(v.ms, v.duration))
    requires p + |EdtsBox(v.ms, v.duration)| <= end && st.HasTrack()
    ensures ParseBoxes(d, p, end, Trak, st.With(t))
         == ParseBoxes(d, p + |EdtsBox(v.ms, v.duration)|, end, Trak, st.With(WithEdits(t, v)))
  {
    hide ParseBoxes, At, FourCC, Container, Box, ElstOf, Reading.With, Reading.HasTrack, Reading.Track,
         ElstEntry, BE24, BE32;
    if v.ms != [] {
      var body := ElstBox(v.ms, v.duration);
      NestCodes();
      EdtsCode();
      ContainerStep(d, p, end, Trak, st.With(t), "edts", body, Edts);
      WithWith(st, t, WithEdits(t, v));
      ElstStep(d, p + 8, p + 8 + |body|, st.With(t), v.ms, v.duration);
      Done(d, p + 8 + |body|, Edts, st.With(WithEdits(t, v)));
    }
  }

  lemma EdtsCode()
    ensures Container(EDTS, Trak) == Some(Edts) && Container(MDIA, Trak) == Some(Mdia)
    ensures Container(TRAK, Moov) == Some(Trak) && Container(MOOV, Root) == Some(Moov)
  {
  }

  // ---- trak ----

  lemma {:induction false} List32At(d: seq<byte>, p: nat, xs: seq<nat>, i: nat)
    requires At(d, p, List32(xs)) && i < |xs|
    ensures p + 4 * i + 4 <= |d| && Get32(d, p + 4 * i) == U32(xs[i])
    decreases |xs|
  {
    hide BE32, Get32;
    var n := |xs| - 1;
    AtConcat(d, p, List32(xs[..n]), BE32(U32(xs[n])));
    if i < n {
      List32At(d, p, xs[..n], i);
    } else {
      Get32Of(d, p + 4 * n, U32(xs[n]));
    }
  }

  /** The header of a track, new or known, makes it the current one. */
  lemma TkhdRead(d: seq<byte>, p: nat, end: nat, st: Reading, v: TrackV)
    requires At(d, p, TkhdBox(v.header, v.duration)) && p + 92 <= end
    ensures ParseBoxes(d, p, end, Trak, st) == ParseBoxes(d, p + 92, end, Trak, FetchTrack(st, v.header.id))
  {
    hide ParseBoxes, At, FourCC, Box, List32, BE24, Get32, FetchTrack;
    var h := v.header;
    var fields := [h.created, h.created, h.id, 0, v.duration, 0, 0, 0, if h.handler == Audio then 0x100_0000 else 0,
                   0x1_0000, 0, 0, 0, 0x1_0000, 0, 0, 0, 0x4000_0000, h.width, h.height];
    NestCodes();
    BoxStep(d, p, end, Trak, st, "tkhd", [0] + BE24(3) + List32(fields));
    AtConcat(d, p + 8, [0] + BE24(3), List32(fields));
    AtConcat(d, p + 8, [0], BE24(3));
    List32At(d, p + 12, fields, 2);
    FirstByte(d, p + 8, 0);
    AtEnd(d, p + 12, List32(fields));
  }

  lemma FirstByte(d: seq<byte>, p: nat, b: byte)
    requires At(d, p, [b])
    ensures p < |d| && d[p] == b
  {
    assert d[p] == d[p..p + 1][0];
  }

  /** What a trak makes of the tables of its track. */
  function TrakTables(t: Tables, v: TrackV): Tables {
    AllTables(WithEdits(t, v), v)
  }

  /** The tables a reader ends up with for a track it has not met. */
  function TablesOf(v: TrackV): Tables {
    TrakTables(NewTrack(v.header.id), v)
  }

  lemma ReadableParts(v: TrackV)
    requires Readable(v)
    ensures v.ms != [] && Editable(v) && CtsFit(v.ms) && Chunkable(v) && IsStsd(v.header.stsd)
    ensures 0 < |TrakBody(v)| && |TrakBody(v)| + 8 <= UINT32_MAX && |MdiaBody(v)| + 8 <= UINT32_MAX && |MdiaBody(v)| > 0
  {
    hide MdiaBody, TkhdBox, EdtsBox, Chunkable;
    SomeMinf(v);
    assert CtsFit(v.ms);
  }

  /** The boxes of a trak, with or without samples, of a track that is new or known. */
  lemma TrakRead(d: seq<byte>, p: nat, st: Reading, v: TrackV)
    requires Chunkable(v) && IsStsd(v.header.stsd) && Editable(v)
    requires At(d, p, TrakBody(v)) && |MdiaBody(v)| + 8 <= UINT32_MAX && |MdiaBody(v)| > 0
    ensures var r := FetchTrack(st, v.header.id);
      ParseBoxes(d, p, p + |TrakBody(v)|, Trak, st) == Read(r.With(TrakTables(r.Track(), v)))
  {
    hide ParseBoxes, At, FourCC, Box, TkhdBox, MdiaBody, EdtsBox, WithEdits, AllTables, Chunkable, IsStsd, Container,
         FetchTrack, Reading.With, Reading.HasTrack, Reading.Track, Editable;
    var end := p + |TrakBody(v)|;
    var b1, b2, b3 := TkhdBox(v.header, v.duration), EdtsBox(v.ms, v.duration), Box("mdia", MdiaBody(v));
    AtConcat(d, p, b1 + b2, b3);
    AtConcat(d, p, b1, b2);
    TkhdRead(d, p, end, st, v);
    var r := FetchTrack(st, v.header.id);
    var t0 := r.Track();
    var t1 := WithEdits(t0, v);
    WithWith(r, t0, t1);
    EdtsRead(d, p + |b1|, end, r, t0, v);
    BoxHeader(d, p + |b1| + |b2|, "mdia", MdiaBody(v));
    MdiaRead(d, p + |b1| + |b2| + 8, r, t1, v);
    NestCodes();
    EdtsCode();
    LastContainer(d, p + |b1| + |b2|, Trak, r.With(t1), "mdia", MdiaBody(v), Mdia, r.With(AllTables(t1, v)));
  }
}
