/** The nested boxes of a track: each writer leaves a placeholder, writes its children, and seeks
    back to fill in the size. What ends up in the file is the box written front to back. */
module NestWriters {
  import opened Bytes
  import opened Runs
  import opened SampleTables
  import opened Timing
  import opened Scratch
  import opened TrackBoxes
  import opened MovTrack
  import opened IoUtil
  import opened TableWriters

  /** Fills in the size of the box that was opened at `offset` behind `out`. */
  method WriteSize(io: Io, offset: nat, size: nat, ghost out: seq<byte>, ghost tag: string, ghost body: seq<byte>)
    requires io.Tracking() && |tag| == 4 && offset == io.start + |out|
    requires io.out == out + BE32(0) + Tag(tag) + body && size == |body| + 8
    modifies io`data, io`pos, io`error, io`base, io`start, io`out
    ensures io.Tracking() && io.base == old(io.base) && io.start == old(io.start)
    ensures io.out == out + Box(tag, body)
  {
    hide BE32, Tag, Io.Tracking, Patch;
    ghost var tail := Tag(tag) + body;
    assert io.out == out + BE32(0) + tail;
    PatchAt(out, BE32(0), BE32(U32(size)), tail);
    io.PatchW32(offset, U32(size));
    assert io.out == out + (BE32(U32(size)) + Tag(tag) + body);
  }

  method OpenBox(io: Io, tag: string) returns (offset: nat)
    requires io.Tracking() && |tag| == 4
    modifies io`data, io`pos, io`out
    ensures io.Tracking() && io.out == old(io.out) + BE32(0) + Tag(tag)
    ensures offset == io.start + |old(io.out)|
  {
    hide BE32, Tag, Io.Tracking;
    offset := io.Tell();
    io.W32(0);
    io.Put(Tag(tag));
  }

  /** What the table builders leave behind in the scratch fields: the chunk heads. */
  ghost predicate ChunksMarked(samples: seq<Sample>) {
    ChunksIn(Heads(samples), Chunks(Medias(samples)))
  }

  lemma HeadCounts(samples: seq<Sample>)
    requires |samples| <= UINT32_MAX
    ensures |Heads(samples)| <= UINT32_MAX && |Chunks(Medias(samples))| <= |samples|
  {
    ChunksMaximal(Medias(samples));
  }

  method WriteTimeTables(io: Io, track: Track) returns (size: nat)
    requires io.Tracking() && track.Writable()
    modifies io`data, io`pos, io`error, io`base, io`start, io`out, track`samples, track`cttsV1
    ensures io.Tracking() && io.base == old(io.base) && io.start == old(io.start)
    ensures io.out == old(io.out) + TimeTables(old(track.V())) && size == |TimeTables(old(track.V()))|
    ensures track.V() == old(track.V()).(cttsV1 := track.cttsV1)
    ensures track.cttsV1 == (old(track.cttsV1) || NegativeRun(old(Medias(track.samples))))
  {
    hide Io.Tracking, SttsBox, CttsBox, StssBox, Medias, NegativeRun, WritesCtts;
    ghost var v := track.V();
    ghost var head := io.out;
    size := WriteDecodeTables(io, track);
    var n := WriteCompositionTable(io, track);
    size := size + n;
    assert io.out == head + TimeTables(v);
  }

  method WriteDecodeTables(io: Io, track: Track) returns (size: nat)
    requires io.Tracking() && track.Writable()
    modifies io`data, io`pos, io`error, io`base, io`start, io`out, track`samples
    ensures io.Tracking() && io.base == old(io.base) && io.start == old(io.start)
    ensures var body := SttsBox(old(Medias(track.samples)))
                        + (if HasStss(track.header) then StssBox(old(Medias(track.samples))) else []);
      io.out == old(io.out) + body && size == |body|
    ensures track.V() == old(track.V())
  {
    hide Io.Tracking, SttsBox, StssBox, Heads, RunsIn, Compress, Medias, Deltas;
    ghost var head := io.out;
    var count := track.BuildStts();
    HeadCounts(track.samples);
    size := WriteStts(io, track, count);
    if track.header.width > 0 && track.header.height > 0 {
      var n := WriteStss(io, track); // video only
      size := size + n;
    }
  }

  method WriteCompositionTable(io: Io, track: Track) returns (size: nat)
    requires io.Tracking() && track.Writable()
    modifies io`data, io`pos, io`out, track`samples, track`cttsV1
    ensures io.Tracking()
    ensures var v := old(track.V());
      var body := if WritesCtts(v.ms) then CttsBox(v.ms, v.cttsV1 || NegativeRun(v.ms)) else [];
      io.out == old(io.out) + body && size == |body|
    ensures track.V() == old(track.V()).(cttsV1 := track.cttsV1)
    ensures track.cttsV1 == (old(track.cttsV1) || NegativeRun(old(Medias(track.samples))))
  {
    hide Io.Tracking, CttsBox, Heads, RunsIn, Compress, Medias, Offsets, NegativeRun, WritesCtts;
    size := 0;
    var count := track.BuildCtts();
    HeadCounts(track.samples);
    var writes := CttsNeeded(track, count);
    if writes {
      size := WriteCtts(io, track, count);
    }
  }

  method WriteChunkTables(io: Io, track: Track) returns (size: nat)
    requires io.Tracking() && track.Writable()
    modifies io`data, io`pos, io`error, io`base, io`start, io`out, track`samples
    ensures io.Tracking() && io.base == old(io.base) && io.start == old(io.start)
    ensures io.out == old(io.out) + ChunkTables(old(track.V())) && size == |ChunkTables(old(track.V()))|
    ensures track.V() == old(track.V()) && ChunksMarked(track.samples)
  {
    hide Io.Tracking, StscBox, StszBox, StcoBox, Heads, Chunks, ChunksIn, Medias;
    ghost var ms := Medias(track.samples);
    ghost var head := io.out;
    var count := track.BuildStco();
    HeadCounts(track.samples);
    size := WriteStsc(io, track);
    var n := WriteStsz(io, track);
    size := size + n;
    n := WriteStco(io, track, count);
    size := size + n;
    assert io.out == head + (StscBox(ms) + StszBox(ms) + StcoBox(ms, track.offset));
  }

  /** The scratch fields are reused three times: for stts, for ctts, and for the chunks. */
  method WriteStbl(io: Io, track: Track) returns (size: nat)
    requires io.Tracking() && track.Writable()
    modifies io`data, io`pos, io`error, io`base, io`start, io`out, track`samples, track`cttsV1
    ensures io.Tracking() && io.base == old(io.base) && io.start == old(io.start)
    ensures io.out == old(io.out) + Box("stbl", StblBody(old(track.V())))
    ensures size == |Box("stbl", StblBody(old(track.V())))|
    ensures KeepsTrack(track)
  {
    hide BE32, Tag, Io.Tracking, Box, ChunksMarked, Medias, NegativeRun, TimeTables, ChunkTables;
    ghost var v := track.V();
    ghost var out0 := io.out;
    var offset := OpenBox(io, "stbl");
    ghost var head := io.out;
    io.Put(track.header.stsd);
    size := 8 + |track.header.stsd|;
    var n := WriteTimeTables(io, track);
    size := size + n;
    n := WriteChunkTables(io, track);
    size := size + n;
    SameChunkTables(v, track.V());
    assert io.out == head + StblBody(v);
    WriteSize(io, offset, size, out0, "stbl", StblBody(v));
    BoxLength("stbl", StblBody(v));
  }

  lemma SameChunkTables(a: TrackV, b: TrackV)
    requires b == a.(cttsV1 := b.cttsV1)
    ensures ChunkTables(b) == ChunkTables(a)
  {
  }

  lemma BoxLength(tag: string, body: seq<byte>)
    requires |tag| == 4
    ensures |Box(tag, body)| == |body| + 8
  {
  }

  /** The test in the middle of the sample table, on the scratch fields that ctts has just filled. */
  method CttsNeeded(track: Track, count: nat) returns (b: bool)
    requires RunsIn(Heads(track.samples)) == Compress(Offsets(Medias(track.samples)))
    requires count == |Heads(track.samples)|
    requires track.samples != [] ==> track.samples[0].firstChunk != 0
    ensures b == WritesCtts(Medias(track.samples))
  {
    hide Compress, Heads;
    if |track.samples| > 0 {
      HeadAt(track.samples, 0);
      assert track.samples[..0] == [] && Heads([]) == [] by { HeadsNone(); }
      assert RunsIn(Heads(track.samples))[0].value == track.samples[0].samplesPerChunk;
    }
    b := |track.samples| > 0 && (count > 1 || track.samples[0].samplesPerChunk != 0);
  }

  /** Everything a track writer leaves as it was: the media, and all but the sticky ctts flag. */
  twostate predicate KeepsTrack(track: Track)
    reads track
  {
    && track.V() == old(track.V()).(cttsV1 := track.cttsV1)
    && track.cttsV1 == (old(track.cttsV1) || NegativeRun(old(Medias(track.samples))))
    && ChunksMarked(track.samples)
  }

  method WriteMinf(io: Io, track: Track) returns (size: nat)
    requires io.Tracking() && track.Writable()
    modifies io`data, io`pos, io`error, io`base, io`start, io`out, track`samples, track`cttsV1
    ensures io.Tracking() && io.base == old(io.base) && io.start == old(io.start)
    ensures io.out == old(io.out) + Box("minf", MinfBody(old(track.V())))
    ensures size == |Box("minf", MinfBody(old(track.V())))|
    ensures KeepsTrack(track)
  {
    hide BE32, Tag, Io.Tracking, Box, ChunksMarked, Medias, NegativeRun, StblBody, MediaHeaderBox, DinfBox;
    ghost var v := track.V();
    ghost var out0 := io.out;
    var offset := OpenBox(io, "minf");
    ghost var head := io.out;
    io.Put(MediaHeaderBox(track.header.handler));
    io.Put(DinfBox());
    size := 8 + |MediaHeaderBox(track.header.handler)| + |DinfBox()|;
    var n := WriteStbl(io, track);
    size := size + n;
    assert io.out == head + MinfBody(v);
    WriteSize(io, offset, size, out0, "minf", MinfBody(v));
    BoxLength("minf", MinfBody(v));
  }

  method WriteMdia(io: Io, track: Track) returns (size: nat)
    requires io.Tracking() && track.Writable()
    modifies io`data, io`pos, io`error, io`base, io`start, io`out, track`samples, track`cttsV1
    ensures io.Tracking() && io.base == old(io.base) && io.start == old(io.start)
    ensures io.out == old(io.out) + Box("mdia", MdiaBody(old(track.V())))
    ensures size == |Box("mdia", MdiaBody(old(track.V())))|
    ensures KeepsTrack(track)
  {
    hide BE32, Tag, Io.Tracking, Box, ChunksMarked, Medias, NegativeRun, MinfBody, MdhdBox, HdlrBox;
    ghost var v := track.V();
    ghost var out0 := io.out;
    var offset := OpenBox(io, "mdia");
    ghost var head := io.out;
    io.Put(MdhdBox(track.header, track.duration));
    io.Put(HdlrBox(track.header.handler));
    size := 8 + |MdhdBox(track.header, track.duration)| + |HdlrBox(track.header.handler)|;
    var n := WriteMinf(io, track);
    size := size + n;
    assert io.out == head + MdiaBody(v);
    WriteSize(io, offset, size, out0, "mdia", MdiaBody(v));
    BoxLength("mdia", MdiaBody(v));
  }

  method WriteEdts(io: Io, track: Track) returns (size: nat)
    requires io.Tracking()
    modifies io`data, io`pos, io`error, io`base, io`start, io`out
    ensures io.Tracking() && io.base == old(io.base) && io.start == old(io.start)
    ensures io.out == old(io.out) + EdtsBox(Medias(track.samples), track.duration)
    ensures size == |EdtsBox(Medias(track.samples), track.duration)|
  {
    hide BE32, Tag, Io.Tracking, Box, ElstBox;
    if |track.samples| < 1 {
      return 0;
    }
    ghost var out0 := io.out;
    var offset := OpenBox(io, "edts");
    size := WriteElst(io, track);
    size := size + 8;
    ghost var body := ElstBox(Medias(track.samples), track.duration);
    WriteSize(io, offset, size, out0, "edts", body);
    BoxLength("edts", body);
  }

  method WriteTrak(io: Io, track: Track) returns (size: nat)
    requires io.Tracking() && track.Writable()
    modifies io`data, io`pos, io`error, io`base, io`start, io`out, track`samples, track`cttsV1
    ensures io.Tracking() && io.base == old(io.base) && io.start == old(io.start)
    ensures io.out == old(io.out) + TrakBox(old(track.V()))
    ensures size == |TrakBox(old(track.V()))|
    ensures KeepsTrack(track)
  {
    hide BE32, Tag, Io.Tracking, Box, ChunksMarked, Medias, NegativeRun, MdiaBody, TkhdBox, EdtsBox;
    ghost var v := track.V();
    ghost var out0 := io.out;
    var offset := OpenBox(io, "trak");
    ghost var head := io.out;
    io.Put(TkhdBox(track.header, track.duration));
    size := 8 + |TkhdBox(track.header, track.duration)|;
    var n := WriteEdts(io, track);
    size := size + n;
    n := WriteMdia(io, track);
    size := size + n;
    assert io.out == head + TrakBody(v);
    WriteSize(io, offset, size, out0, "trak", TrakBody(v));
    BoxLength("trak", TrakBody(v));
  }
}
