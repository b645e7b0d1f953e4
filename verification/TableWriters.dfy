/** The writers of the leaf boxes of a track, each proved to append exactly its box. */
module TableWriters {
  import opened Bytes
  import opened Runs
  import opened SampleTables
  import opened Timing
  import opened Scratch
  import opened TrackBoxes
  import opened MovTrack
  import opened IoUtil

  lemma Assemble(out: seq<byte>, tag: string, v: byte, f: uint24, body: seq<byte>)
    requires |tag| == 4
    ensures out + BE32(U32(|body| + 12)) + Tag(tag) + [v] + BE24(f) + body == out + FullBox(tag, v, f, body)
  {
    var h, t, b := BE32(U32(|body| + 12)), Tag(tag), [v] + BE24(f) + body;
    assert FullBox(tag, v, f, body) == h + t + b;
    assert out + h + t + [v] + BE24(f) + body == out + (h + t + b);
  }

  /** Version 0 and no flags are also written as one 32-bit zero. */
  lemma Assemble0(out: seq<byte>, tag: string, body: seq<byte>)
    requires |tag| == 4
    ensures out + BE32(U32(|body| + 12)) + Tag(tag) + BE32(0) + body == out + FullBox(tag, 0, 0, body)
  {
    Assemble(out, tag, 0, 0, body);
    var h := out + BE32(U32(|body| + 12)) + Tag(tag);
    assert BE32(0) == [0] + BE24(0);
    assert h + BE32(0) == h + [0] + BE24(0);
  }

  /** Size, type, version 0 and no flags. */
  method OpenTable(io: Io, size: nat, tag: string)
    requires io.Tracking() && |tag| == 4
    modifies io`data, io`pos, io`out
    ensures io.Tracking() && io.out == old(io.out) + BE32(U32(size)) + Tag(tag) + BE32(0)
  {
    hide BE32, Tag, Io.Tracking;
    io.W32(U32(size));
    io.Put(Tag(tag));
    io.W32(0);
  }

  method WriteRuns(io: Io, track: Track)
    requires io.Tracking()
    modifies io`data, io`pos, io`out
    ensures io.Tracking() && io.out == old(io.out) + RunBytes(RunsIn(Heads(track.samples)))
  {
    hide BE32, RunBytes, Heads, RunsIn, Io.Tracking;
    ghost var head := io.out;
    var ss := track.samples;
    var i := 0;
    RunBytesNone();
    while i < |ss|
      invariant i <= |ss| && io.Tracking()
      invariant io.out == head + RunBytes(RunsIn(Heads(ss[..i])))
    {
      var sample := ss[i];
      assert ss[..i + 1] == ss[..i] + [sample];
      HeadsSnoc(ss[..i], sample);
      if sample.firstChunk != 0 {
        io.W32(sample.firstChunk);
        io.W32(sample.samplesPerChunk);
        RunsInSnoc(Heads(ss[..i]), sample);
        ghost var rs := RunsIn(Heads(ss[..i]));
        RunBytesSnoc(rs, Run(sample.firstChunk, sample.samplesPerChunk));
        assert io.out == head + (RunBytes(rs) + BE32(sample.firstChunk) + BE32(sample.samplesPerChunk));
      }
      i := i + 1;
    }
    assert ss[..i] == ss;
  }

  lemma RunBytesNone()
    ensures RunBytes(RunsIn(Heads([]))) == []
  {
  }

  lemma RunBytesSnoc(rs: seq<Run>, r: Run)
    ensures RunBytes(rs + [r]) == RunBytes(rs) + BE32(U32(r.count)) + BE32(r.value)
  {
    assert (rs + [r])[..|rs|] == rs;
  }

  method WriteStts(io: Io, track: Track, count: uint32) returns (size: nat)
    requires io.Tracking()
    requires count == |Heads(track.samples)|
    requires RunsIn(Heads(track.samples)) == Compress(Deltas(Medias(track.samples)))
    modifies io`data, io`pos, io`out
    ensures io.Tracking() && io.out == old(io.out) + SttsBox(Medias(track.samples))
    ensures size == |SttsBox(Medias(track.samples))|
  {
    hide BE32, RunBytes, Heads, RunsIn, Compress, Deltas, Medias, FullBox, Io.Tracking, Tag;
    size := 16 + count * 8;
    ghost var rs := RunsIn(Heads(track.samples));
    ghost var body := BE32(U32(|rs|)) + RunBytes(rs);
    OpenTable(io, size, "stts");
    ghost var head := io.out;
    io.W32(count);
    WriteRuns(io, track);
    assert io.out == head + body;
    Assemble0(old(io.out), "stts", body);
  }

  method WriteCtts(io: Io, track: Track, count: uint32) returns (size: nat)
    requires io.Tracking()
    requires count == |Heads(track.samples)|
    requires RunsIn(Heads(track.samples)) == Compress(Offsets(Medias(track.samples)))
    modifies io`data, io`pos, io`out
    ensures io.Tracking() && io.out == old(io.out) + CttsBox(Medias(track.samples), track.cttsV1)
    ensures size == |CttsBox(Medias(track.samples), track.cttsV1)|
  {
    hide BE24, BE32, RunBytes, Heads, RunsIn, Compress, Offsets, Medias, FullBox, Io.Tracking, Tag;
    size := 16 + count * 8;
    ghost var rs := RunsIn(Heads(track.samples));
    ghost var body := BE32(U32(|rs|)) + RunBytes(rs);
    io.W32(U32(size));
    io.Put(Tag("ctts"));
    var version: byte := if track.cttsV1 then 1 else 0;
    io.W8(version);
    io.W24(0);
    io.W32(count);
    WriteRuns(io, track);
    Assemble(old(io.out), "ctts", version, 0, body);
    assert io.out == old(io.out) + BE32(U32(|body| + 12)) + Tag("ctts") + [version] + BE24(0) + body;
  }

  /** The seek-back at the end of a table: first the size, then, 12 bytes on, the entry count. */
  method PatchSizeAndCount(io: Io, offset: nat, size: nat, count: nat,
                           ghost out: seq<byte>, ghost tag: string, ghost table: seq<byte>)
    requires io.Tracking() && |tag| == 4 && offset == io.start + |out|
    requires io.out == out + BE32(0) + Tag(tag) + BE32(0) + BE32(0) + table
    requires size == 16 + |table|
    modifies io`data, io`pos, io`error, io`base, io`start, io`out
    ensures io.Tracking() && io.base == old(io.base) && io.start == old(io.start)
    ensures io.out == out + FullBox(tag, 0, 0, BE32(U32(count)) + table)
  {
    hide BE32, FullBox, Io.Tracking, Tag, Patch;
    ghost var tail := Tag(tag) + BE32(0) + BE32(0) + table;
    assert io.out == out + BE32(0) + tail;
    PatchAt(out, BE32(0), BE32(U32(size)), tail);
    io.PatchW32(offset, U32(size));
    ghost var front := out + BE32(U32(size)) + Tag(tag) + BE32(0);
    assert io.out == front + BE32(0) + table;
    PatchAt(front, BE32(0), BE32(U32(count)), table);
    io.PatchW32(offset + 12, U32(count));
    Assemble0(out, tag, BE32(U32(count)) + table);
    assert io.out == front + (BE32(U32(count)) + table);
  }

  lemma List32Snoc(xs: seq<nat>, x: nat)
    ensures List32(xs + [x]) == List32(xs) + BE32(U32(x))
  {
    assert (xs + [x])[..|xs|] == xs;
  }

  lemma List64Snoc(xs: seq<nat>, x: nat)
    ensures List64(xs + [x]) == List64(xs) + BE64(U64(x))
  {
    assert (xs + [x])[..|xs|] == xs;
  }

  lemma KeyNumbersSnoc(ms: seq<Media>, i: nat)
    requires i < |ms|
    ensures KeyNumbers(ms[..i + 1])
         == if IsKey(ms[i]) then KeyNumbers(ms[..i]) + [i + 1] else KeyNumbers(ms[..i])
  {
    assert ms[..i + 1][..i] == ms[..i];
  }

  method WriteStss(io: Io, track: Track) returns (size: nat)
    requires io.Tracking() && |track.samples| <= UINT32_MAX
    modifies io`data, io`pos, io`error, io`base, io`start, io`out
    ensures io.Tracking() && io.base == old(io.base) && io.start == old(io.start)
    ensures io.out == old(io.out) + StssBox(Medias(track.samples))
    ensures size == |StssBox(Medias(track.samples))|
  {
    hide BE32, List32, KeyNumbers, FullBox, Io.Tracking, Tag, Medias;
    var offset := io.Tell();
    io.W32(0);
    io.Put(Tag("stss"));
    io.W32(0);
    io.W32(0);
    var j := WriteKeyNumbers(io, track.samples);
    size := 16 + j * 4;
    PatchSizeAndCount(io, offset, size, j, old(io.out), "stss", List32(KeyNumbers(Medias(track.samples))));
  }

  method WriteKeyNumbers(io: Io, ss: seq<Sample>) returns (j: nat)
    requires io.Tracking() && |ss| <= UINT32_MAX
    modifies io`data, io`pos, io`out
    ensures io.Tracking() && io.out == old(io.out) + List32(KeyNumbers(Medias(ss)))
    ensures j == |KeyNumbers(Medias(ss))|
  {
    hide BE32, List32, KeyNumbers, Io.Tracking;
    ghost var ms := Medias(ss);
    var i := 0;
    j := 0;
    assert List32(KeyNumbers(ms[..0])) == [] && KeyNumbers(ms[..0]) == [] by { NoKeys(); assert ms[..0] == []; }
    while i < |ss|
      invariant i <= |ss| && io.Tracking() && j == |KeyNumbers(ms[..i])|
      invariant io.out == old(io.out) + List32(KeyNumbers(ms[..i]))
    {
      KeyNumbersSnoc(ms, i);
      if ss[i].m.flags % 2 == KEYFRAME {
        j := j + 1;
        List32Snoc(KeyNumbers(ms[..i]), i + 1);
        io.W32(i + 1);
      }
      i := i + 1;
    }
    assert ms[..i] == ms;
  }

  lemma NoKeys()
    ensures KeyNumbers([]) == [] && List32([]) == []
  {
  }

  lemma StscBytesSnoc(es: seq<Stsc>, e: Stsc)
    ensures StscBytes(es + [e]) == StscBytes(es) + StscEntry(e)
  {
    assert (es + [e])[..|es|] == es;
  }

  lemma StscSnoc(cs: seq<Chunk>, j: nat)
    requires j < |cs|
    ensures StscOf(cs[..j + 1]) == AddStsc(StscOf(cs[..j]), j + 1, cs[j])
  {
    assert cs[..j + 1][..j] == cs[..j];
  }

  method WriteStscEntry(io: Io, sample: Sample)
    requires io.Tracking()
    modifies io`data, io`pos, io`out
    ensures io.Tracking()
    ensures io.out == old(io.out) + StscEntry(Stsc(sample.firstChunk, sample.samplesPerChunk, sample.m.sdi))
  {
    hide BE32, Io.Tracking;
    io.W32(sample.firstChunk);
    io.W32(sample.samplesPerChunk);
    io.W32(sample.m.sdi);
  }

  /** Second-level compression: chunks that repeat count and description are skipped. */
  method WriteStsc(io: Io, track: Track) returns (size: nat)
    requires io.Tracking() && |track.samples| <= UINT32_MAX
    requires ChunksIn(Heads(track.samples), Chunks(Medias(track.samples)))
    requires |Chunks(Medias(track.samples))| <= |track.samples|
    modifies io`data, io`pos, io`error, io`base, io`start, io`out
    ensures io.Tracking() && io.base == old(io.base) && io.start == old(io.start)
    ensures io.out == old(io.out) + StscBox(Medias(track.samples))
    ensures size == |StscBox(Medias(track.samples))|
  {
    hide BE32, StscBytes, StscOf, Chunks, ChunksIn, Heads, FullBox, Io.Tracking, Tag, Medias;
    ghost var cs := Chunks(Medias(track.samples));
    var offset := io.Tell();
    io.W32(0);
    io.Put(Tag("stsc"));
    io.W32(0);
    io.W32(0);
    var entry := WriteStscEntries(io, track.samples, cs);
    size := 16 + entry * 12;
    PatchSizeAndCount(io, offset, size, entry, old(io.out), "stsc", StscBytes(StscOf(cs)));
  }

  method WriteStscEntries(io: Io, ss: seq<Sample>, ghost cs: seq<Chunk>) returns (entry: nat)
    requires io.Tracking() && ChunksIn(Heads(ss), cs) && |cs| <= |ss| <= UINT32_MAX
    modifies io`data, io`pos, io`out
    ensures io.Tracking() && io.out == old(io.out) + StscBytes(StscOf(cs)) && entry == |StscOf(cs)|
  {
    hide BE32, StscBytes, StscEntry, StscOf, Heads, Io.Tracking;
    ghost var head := io.out;
    var i, chunk := 0, -1;
    entry := 0;
    ghost var n := 0;
    NoStsc(ss, cs);
    while i < |ss|
      invariant i <= |ss| && io.Tracking()
      invariant n == |Heads(ss[..i])| <= |cs|
      invariant entry == |StscOf(cs[..n])| && io.out == head + StscBytes(StscOf(cs[..n]))
      invariant (chunk == -1 <==> entry == 0) && -1 <= chunk < |ss|
      invariant entry > 0 ==> ss[chunk].samplesPerChunk == StscOf(cs[..n])[entry - 1].count
      invariant entry > 0 ==> ss[chunk].m.sdi == StscOf(cs[..n])[entry - 1].sdi
    {
      var sample := ss[i];
      HeadsStep(ss, i);
      if sample.firstChunk != 0 {
        HeadAt(ss, i);
        StscSnoc(cs, n);
        if chunk != -1 && ss[chunk].samplesPerChunk == sample.samplesPerChunk
           && ss[chunk].m.sdi == sample.m.sdi {
        } else {
          entry := entry + 1;
          chunk := i;
          StscBytesSnoc(StscOf(cs[..n]), Stsc(n + 1, cs[n].count, cs[n].sdi));
          WriteStscEntry(io, sample);
        }
        n := n + 1;
      }
      i := i + 1;
    }
    assert ss[..i] == ss && cs[..n] == cs;
  }

  lemma NoStsc(ss: seq<Sample>, cs: seq<Chunk>)
    ensures Heads(ss[..0]) == [] && StscOf(cs[..0]) == [] && StscBytes(StscOf(cs[..0])) == []
  {
  }

  method WriteStsz(io: Io, track: Track) returns (size: nat)
    requires io.Tracking() && |track.samples| <= UINT32_MAX
    modifies io`data, io`pos, io`out
    ensures io.Tracking() && io.out == old(io.out) + StszBox(Medias(track.samples))
    ensures size == |StszBox(Medias(track.samples))|
  {
    hide BE32, List32, FullBox, Io.Tracking, Tag;
    var ss := track.samples;
    ghost var xs := Sizes(Medias(ss));
    var i := 1;
    while i < |ss|
      invariant 1 <= i && (i <= |ss| || ss == [])
      invariant forall k :: 0 < k < i && k < |ss| ==> xs[k] == xs[k - 1]
      decreases |ss| - i
    {
      if ss[i].m.bytes != ss[i - 1].m.bytes {
        assert xs[i] != xs[i - 1];
        break;
      }
      i := i + 1;
    }
    ghost var same := !(i < |ss|);
    assert same == AllSame(xs);
    size := 20 + (if i < |ss| then 4 * |ss| else 0);
    OpenTable(io, size, "stsz");
    ghost var head := io.out;
    if i < |ss| {
      io.W32(0);
      io.W32(|ss|);
      WriteSizes(io, ss);
      assert io.out == head + (BE32(0) + BE32(|ss|) + List32(xs));
    } else {
      io.W32(if |ss| < 1 then 0 else ss[0].m.bytes);
      io.W32(|ss|);
      assert io.out == head + (BE32(if xs == [] then 0 else xs[0]) + BE32(|ss|));
    }
    assert io.out == head + StszBody(xs);
    Assemble0(old(io.out), "stsz", StszBody(xs));
  }

  method WriteSizes(io: Io, ss: seq<Sample>)
    requires io.Tracking()
    modifies io`data, io`pos, io`out
    ensures io.Tracking() && io.out == old(io.out) + List32(Sizes(Medias(ss)))
  {
    hide BE32, List32, Io.Tracking;
    ghost var xs := Sizes(Medias(ss));
    assert List32([]) == [] by { NoKeys(); }
    for i := 0 to |ss|
      invariant io.Tracking() && io.out == old(io.out) + List32(xs[..i])
    {
      io.W32(ss[i].m.bytes);
      assert xs[..i + 1] == xs[..i] + [ss[i].m.bytes];
      List32Snoc(xs[..i], ss[i].m.bytes);
    }
    assert xs[..|ss|] == xs;
  }

  /** Chunk offsets in 32 bits, or all in 64 bits when the last sample's needs them. */
  method WriteStco(io: Io, track: Track, count: uint32) returns (size: nat)
    requires io.Tracking() && count == |Chunks(Medias(track.samples))|
    requires ChunksIn(Heads(track.samples), Chunks(Medias(track.samples)))
    modifies io`data, io`pos, io`out
    ensures io.Tracking() && io.out == old(io.out) + StcoBox(Medias(track.samples), track.offset)
    ensures size == |StcoBox(Medias(track.samples), track.offset)|
  {
    hide BE32, List32, List64, Chunks, Heads, FullBox, Io.Tracking, Tag;
    ghost var ms := Medias(track.samples);
    var ss := track.samples;
    var co64 := ss != [] && ss[|ss| - 1].m.offset + track.offset > UINT32_MAX;
    assert co64 == NeedsCo64(ms, track.offset);
    size := 16 + (if co64 then 8 * count else 4 * count);
    var tag := if co64 then "co64" else "stco";
    ghost var xs := ChunkOffsets(ms, track.offset);
    ghost var list := if co64 then List64(xs) else List32(xs);
    ghost var body := BE32(count) + list;
    OpenTable(io, size, tag);
    ghost var head := io.out;
    io.W32(count);
    WriteOffsets(io, ss, track.offset, co64, xs);
    assert io.out == head + body;
    Assemble0(old(io.out), tag, body);
    assert FullBox(tag, 0, 0, body) == StcoBox(ms, track.offset);
  }

  method WriteOffsets(io: Io, ss: seq<Sample>, shift: nat, co64: bool, ghost xs: seq<nat>)
    requires io.Tracking() && |xs| == |Heads(ss)|
    requires forall j :: 0 <= j < |xs| ==> xs[j] == Heads(ss)[j].m.offset + shift
    modifies io`data, io`pos, io`out
    ensures io.Tracking() && io.out == old(io.out) + (if co64 then List64(xs) else List32(xs))
  {
    hide BE32, BE64, List32, List64, Heads, Io.Tracking;
    var i := 0;
    ghost var n := 0;
    assert List32([]) == [] && List64([]) == [] && Heads(ss[..0]) == [] by { NoOffsets(ss); }
    while i < |ss|
      invariant i <= |ss| && io.Tracking()
      invariant n == |Heads(ss[..i])| <= |xs|
      invariant io.out == old(io.out) + (if co64 then List64(xs[..n]) else List32(xs[..n]))
    {
      var sample := ss[i];
      HeadsStep(ss, i);
      if sample.firstChunk != 0 {
        HeadAt(ss, i);
        assert xs[..n + 1] == xs[..n] + [sample.m.offset + shift];
        if !co64 {
          List32Snoc(xs[..n], sample.m.offset + shift);
          io.W32(U32(sample.m.offset + shift));
        } else {
          List64Snoc(xs[..n], sample.m.offset + shift);
          io.W64(U64(sample.m.offset + shift));
        }
        n := n + 1;
      }
      i := i + 1;
    }
    assert ss[..i] == ss && xs[..n] == xs;
  }

  lemma NoOffsets(ss: seq<Sample>)
    ensures List32([]) == [] && List64([]) == [] && Heads(ss[..0]) == []
  {
  }

  method WriteElst(io: Io, track: Track) returns (size: nat)
    requires io.Tracking() && track.samples != []
    modifies io`data, io`pos, io`out
    ensures io.Tracking() && io.out == old(io.out) + ElstBox(Medias(track.samples), track.duration)
    ensures size == |ElstBox(Medias(track.samples), track.duration)|
  {
    hide BE24, BE32, FullBox, Io.Tracking, Tag, ElstEntry;
    ghost var ms := Medias(track.samples);
    var version: byte := if track.duration > UINT32_MAX then 1 else 0;
    var time := track.samples[0].m.pts - track.samples[0].m.dts;
    var delay := Quotient(track.samples[0].m.pts * TIMESCALE, TIMESCALE);
    if delay > UINT32_MAX {
      version := 1;
    }
    time := if time < 0 then 0 else time;
    size := 16 + (if delay > 0 then 2 else 1) * (if version == 1 then 20 else 12);
    io.W32(U32(size));
    io.Put(Tag("elst"));
    io.W8(version);
    io.W24(0);
    ghost var head := io.out;
    ghost var entry := ElstEntry(version, track.duration, time);
    io.W32(if delay > 0 then 2 else 1);
    if delay > 0 {
      WriteElstEntry(io, version, delay, -1);
    }
    WriteElstEntry(io, version, track.duration, time);
    ghost var body := if delay > 0 then BE32(2) + ElstEntry(version, delay, -1) + entry else BE32(1) + entry;
    assert io.out == head + body;
    Assemble(old(io.out), "elst", version, 0, body);
  }

  method WriteElstEntry(io: Io, version: byte, duration: nat, time: int)
    requires io.Tracking()
    modifies io`data, io`pos, io`out
    ensures io.Tracking() && io.out == old(io.out) + ElstEntry(version, duration, time)
  {
    hide BE16, BE32, BE64, Io.Tracking;
    if version == 1 {
      io.W64(U64(duration));
      io.W64(U64(time));
    } else {
      io.W32(U32(duration));
      io.W32(U32(time));
    }
    io.W16(1);
    io.W16(0);
  }
}
