/** The progressive writer: samples go straight into an open mdat; closing it writes moov, and with
    faststart moves moov in front of the media data. */
module MovWriter {
  import opened Bytes
  import opened Runs
  import opened SampleTables
  import opened Timing
  import opened Scratch
  import opened TrackBoxes
  import opened MovTrack
  import opened IoUtil
  import opened TableWriters
  import opened NestWriters
  import opened Co64
  import opened Move

  const ENOENT := 2

  function FtypBox(): (b: seq<byte>)
    ensures |b| == 32
  {
    Box("ftyp", Tag("isom") + BE32(0x200) + Tag("isom") + Tag("iso2") + Tag("avc1") + Tag("mp41"))
  }

  function FreeBox(): (b: seq<byte>)
    ensures |b| == 8
  {
    BE32(8) + Tag("free")
  }

  /** The media data while samples are still being added: a reserve and an unfinished header. */
  function OpenMdat(): (b: seq<byte>)
    ensures |b| == 16
  {
    FreeBox() + BE32(0) + Tag("mdat")
  }

  /** The finished media data: a 64-bit size takes the place of the reserve. */
  predicate Small(payload: seq<byte>) { |payload| + 8 <= UINT32_MAX }

  function MdatHead(payload: seq<byte>): (b: seq<byte>)
    ensures |b| == 16
  {
    if Small(payload)
    then FreeBox() + BE32(|payload| + 8) + Tag("mdat")
    else BE32(1) + Tag("mdat") + BE64(U64(|payload| + 16))
  }

  const PAYLOAD_START := 48  // ftyp, the reserve and the mdat header

  /** One track of a run: what the caller wrote, sample by sample. */
  type Log = seq<seq<byte>>

  /** The tracks as values. */
  ghost predicate Views(ts: seq<Track>, vs: seq<TrackV>)
    reads ts
  {
    |vs| == |ts| && forall i :: 0 <= i < |ts| ==> ts[i].V() == vs[i]
  }

  /** What writing moov changes about a track: nothing, or the ctts flag in a way that does not
      show the next time. */
  ghost predicate Flagged(v: TrackV, v': TrackV) {
    v' == v.(cttsV1 := v'.cttsV1) && (v'.cttsV1 || NegativeRun(v.ms)) == (v.cttsV1 || NegativeRun(v.ms))
  }

  ghost predicate AllFlagged(vs: seq<TrackV>, vs': seq<TrackV>) {
    |vs| == |vs'| && forall i :: 0 <= i < |vs| ==> Flagged(vs[i], vs'[i])
  }

  lemma SameTrak(v: TrackV, v': TrackV)
    requires Flagged(v, v')
    ensures TrakBox(v') == TrakBox(v)
  {
    assert TimeTables(v') == TimeTables(v);
    assert ChunkTables(v') == ChunkTables(v);
    assert StblBody(v') == StblBody(v);
  }

  lemma {:induction false} SameMoov(m: MovieV, vs: seq<TrackV>, vs': seq<TrackV>, up: nat)
    requires AllFlagged(vs, vs')
    ensures Traks(ShiftAll(vs', up)) == Traks(ShiftAll(vs, up)) && TotalGrow(vs', up) == TotalGrow(vs, up)
    ensures MoovBox(m, ShiftAll(vs', up)) == MoovBox(m, ShiftAll(vs, up))
  {
    hide TrakBox, NegativeRun, MvhdBox, UdtaBox, Box;
    if vs != [] {
      var n := |vs| - 1;
      SameMoov(m, vs[..n], vs'[..n], up);
      assert ShiftAll(vs, up)[..n] == ShiftAll(vs[..n], up);
      assert ShiftAll(vs', up)[..n] == ShiftAll(vs'[..n], up);
      assert Flagged(vs[n], vs'[n]);
      SameTrak(ShiftBy(vs[n], up), ShiftBy(vs'[n], up));
    }
  }

  ghost predicate AllMarked(ts: seq<Track>)
    reads ts
  {
    forall i :: 0 <= i < |ts| ==> ChunksMarked(ts[i].samples)
  }

  ghost predicate AllWritable(ts: seq<Track>)
    reads ts
  {
    forall i :: 0 <= i < |ts| ==> ts[i].Writable()
  }

  ghost predicate Distinct(ts: seq<Track>) {
    forall i, j :: 0 <= i < j < |ts| ==> ts[i] != ts[j]
  }

  /** Every sample's record points at its bytes, and records follow one another in the file. */
  ghost predicate Placed(ms: seq<Media>, data: seq<byte>, log: Log) {
    && |ms| == |log|
    && (forall k :: 0 <= k < |ms| ==>
          && |log[k]| == ms[k].bytes
          && ms[k].sdi == 1
          && PAYLOAD_START <= ms[k].offset
          && At(data, ms[k].offset, log[k]))
    && (forall k :: 0 <= k < |ms| - 1 ==> ms[k].offset + ms[k].bytes <= ms[k + 1].offset)
  }

  lemma PlacedAppend(ms: seq<Media>, data: seq<byte>, log: Log, m: Media, bs: seq<byte>)
    requires Placed(ms, data, log) && PAYLOAD_START <= |data|
    requires m.offset == |data| && m.bytes == |bs| && m.sdi == 1
    ensures Placed(ms + [m], data + bs, log + [bs])
  {
    forall k | 0 <= k < |ms|
      ensures At(data + bs, ms[k].offset, log[k])
    {
      assert At(data, ms[k].offset, log[k]);
      AtPrefix(data, bs, ms[k].offset, log[k]);
    }
    assert (data + bs)[|data|..] == bs;
    if ms != [] {
      assert At(data, ms[|ms| - 1].offset, log[|ms| - 1]);
    }
  }

  lemma AtPrefix(d: seq<byte>, more: seq<byte>, p: nat, b: seq<byte>)
    requires At(d, p, b)
    ensures At(d + more, p, b)
  {
    assert (d + more)[p..p + |b|] == d[p..p + |b|];
  }

  lemma PlacedGrow(ms: seq<Media>, data: seq<byte>, more: seq<byte>, log: Log)
    requires Placed(ms, data, log)
    ensures Placed(ms, data + more, log)
  {
    forall k | 0 <= k < |ms|
      ensures At(data + more, ms[k].offset, log[k])
    {
      assert At(data, ms[k].offset, log[k]);
      AtPrefix(data, more, ms[k].offset, log[k]);
    }
  }

  lemma OnlyWritten(io: Io)
    requires io.Tracking() && io.base == [] && io.start == 0
    ensures io.data == io.out && io.pos == |io.data| && io.error == 0
  {
  }

  method WritePrologue(io: Io) returns (mdatOffset: nat)
    requires io.data == [] && io.pos == 0 && io.error == 0
    modifies io`data, io`pos, io`base, io`start, io`out
    ensures io.data == FtypBox() + OpenMdat() + [] && io.pos == |io.data| && io.error == 0
    ensures mdatOffset == 40
  {
    hide FtypBox, BE32, Tag, Io.Tracking;
    io.Begin();
    io.Put(FtypBox());
    io.W32(8);
    io.Put(Tag("free"));
    mdatOffset := io.Tell();
    io.W32(0);
    io.Put(Tag("mdat"));
    assert io.out == FtypBox() + OpenMdat() + [];
    OnlyWritten(io);
  }

  class Writer {
    const io: Io
    const faststart: bool
    const created: uint32
    var tracks: seq<Track>
    var nextId: uint32
    var duration: nat
    var udta: seq<byte>
    var mdatSize: nat
    var mdatOffset: nat
    ghost var payload: seq<byte>
    ghost var logs: seq<Log>

    /** Between calls, before the file is closed. */
    ghost predicate Valid()
      reads this, io, tracks
    {
      && io.error == 0 && io.pos == |io.data|
      && io.data == FtypBox() + OpenMdat() + payload
      && mdatOffset == 40 && mdatSize == |payload|
      && Distinct(tracks) && |logs| == |tracks| && nextId == |tracks| + 1
      && (forall i :: 0 <= i < |tracks| ==>
            && tracks[i].header.id == i + 1
            && Placed(Medias(tracks[i].samples), io.data, logs[i])
            && tracks[i].offset == 0 && !tracks[i].cttsV1)
    }

    constructor (io: Io, created: uint32, faststart: bool)
      requires io.data == [] && io.pos == 0 && io.error == 0
      modifies io
      ensures Valid() && tracks == [] && payload == [] && logs == [] && udta == []
      ensures this.io == io && this.faststart == faststart && this.created == created
    {
      this.io, this.faststart, this.created := io, faststart, created;
      tracks, nextId, duration, udta, mdatSize := [], 1, 0, [], 0;
      payload, logs := [], [];
      new;
      mdatOffset := WritePrologue(io);
    }

    /** The writer counts the ids itself. */
    method AddTrack(header: Header) returns (index: nat)
      requires Valid() && nextId < UINT32_MAX
      modifies this`tracks, this`logs, this`nextId
      ensures Valid() && index == |old(tracks)| && nextId == old(nextId) + 1
      ensures |tracks| == index + 1 && tracks[..index] == old(tracks) && fresh(tracks[index])
      ensures tracks[index].header == header.(id := index + 1) && tracks[index].samples == []
      ensures logs == old(logs) + [[]]
    {
      var track := new Track(header.(id := nextId));
      index := |tracks|;
      tracks, logs, nextId := tracks + [track], logs + [[]], nextId + 1;
      assert forall i :: 0 <= i < index ==> tracks[i] == old(tracks)[i];
    }

    /** User data for the end of the `moov`, in the place of any given before. */
    method AddUdta(data: seq<byte>)
      requires Valid()
      modifies this`udta
      ensures Valid() && udta == data
    {
      udta := data;
    }

    /** Milliseconds in units of the track's timescale: the same number, as both count thousandths. */
    static function Scaled(t: int): (r: int)
      ensures r == t
    {
      Quotient(t * TIMESCALE, 1000)
    }

    method Write(track: int, data: seq<byte>, pts: int, dts: int, flags: int) returns (r: int)
      requires Valid() && |data| < UINT32_MAX
      modifies this`mdatSize, this`payload, this`logs, tracks, io`data, io`pos, io`out
      ensures Valid()
      ensures !(0 <= track < |tracks|) ==>
        r == -2 && logs == old(logs) && payload == old(payload) && io.data == old(io.data)
      ensures 0 <= track < |tracks| ==>
        && r == 0
        && logs == old(logs)[track := old(logs)[track] + [data]]
        && payload == old(payload) + data
        && Medias(tracks[track].samples) == old(Medias(tracks[track].samples))
           + [Media(flags, pts, dts, PAYLOAD_START + |old(payload)|, |data|, 1)]
      ensures forall i :: 0 <= i < |tracks| && i != track ==> tracks[i].V() == old(tracks[i].V())
    {
      hide FtypBox, OpenMdat, NeverBack, Placed, Quotient;
      if track < 0 || track >= |tracks| {
        return -ENOENT;
      }
      var t := tracks[track];
      ghost var before := io.data;
      var m := Media(flags, Scaled(pts), Scaled(dts), io.pos, |data|, 1);
      PlacedAppend(Medias(t.samples), before, logs[track], m, data);
      forall i | 0 <= i < |tracks|
        ensures Placed(Medias(tracks[i].samples), before + data, logs[i])
      {
        PlacedGrow(Medias(tracks[i].samples), before, data, logs[i]);
      }
      t.samples := t.samples + [Sample(m, 0, 0)];
      assert Medias(t.samples) == old(Medias(t.samples)) + [m];
      io.Write(data);
      assert io.data == before + data;
      mdatSize := mdatSize + |data|;
      payload := payload + data;
      logs := logs[track := logs[track] + [data]];
      r := io.error;
    }
  
    /** Gives the mdat box its size; one beyond 32 bits takes over the reserve in front of it. */
    method FinishMdat()
      requires Valid()
      modifies this`mdatOffset, io`data, io`pos, io`error, io`base, io`start, io`out
      ensures io.data == FtypBox() + MdatHead(payload) + payload
      ensures io.error == 0 && io.pos == |io.data|
      ensures mdatOffset == if Small(payload) then 40 else 32
    {
      if mdatSize + 8 <= UINT32_MAX {
        SizeMdat(io, mdatOffset, mdatSize, payload);
      } else {
        mdatOffset := mdatOffset - 8;
        SizeLargeMdat(io, mdatOffset, mdatSize, payload);
      }
    }

    ghost function MovieOf(): MovieV
      reads this
    {
      MovieV(created, duration, nextId, udta)
    }

    /** Tracks without samples are not written. */
    method WriteMoov(ghost vs: seq<TrackV>) returns (size: nat, ghost vs': seq<TrackV>)
      requires io.Tracking() && Distinct(tracks) && AllWritable(tracks) && Views(tracks, vs)
      modifies io`data, io`pos, io`error, io`base, io`start, io`out, tracks
      ensures io.Tracking() && io.base == old(io.base) && io.start == old(io.start)
      ensures io.out == old(io.out) + MoovBox(MovieOf(), vs) && size == |MoovBox(MovieOf(), vs)|
      ensures Views(tracks, vs') && AllFlagged(vs, vs') && AllMarked(tracks) && AllWritable(tracks)
    {
      hide BE32, Tag, Io.Tracking, Box, MvhdBox, Traks, UdtaBox, ChunksMarked, NegativeRun, Flagged, Views,
           AllWritable, Distinct;
      ghost var out0 := io.out;
      var offset := OpenBox(io, "moov");
      ghost var head := io.out;
      ghost var mvhd := MvhdBox(created, duration, nextId);
      io.Put(MvhdBox(created, duration, nextId));
      size := 8 + |MvhdBox(created, duration, nextId)|;
      var n;
      n, vs' := WriteTraks(io, tracks, vs);
      size := size + n;
      io.Put(UdtaBox(udta));
      size := size + |UdtaBox(udta)|;
      ghost var body := mvhd + Traks(vs) + UdtaBox(udta);
      assert io.out == head + body;
      WriteSize(io, offset, size, out0, "moov", body);
      BoxLength("moov", body);
    }

    /** Duration of a track: first to last sample, three quarters of an average step, and a quarter
        of the last one. */
    method FinishDurations(ghost vs: seq<TrackV>)
      requires Distinct(tracks) && AllWritable(tracks) && Views(tracks, vs)
      modifies this`duration, tracks
      ensures Views(tracks, Timed(vs)) && AllWritable(tracks)
      ensures duration == Longest(Timed(vs), old(duration))
      ensures forall i :: 0 <= i < |tracks| ==> tracks[i].samples == old(tracks[i].samples)
    {
      hide DurationOf, NeverBack, Timed, Longest, Medias;
      var i := 0;
      assert Longest(Timed(vs)[..0], duration) == duration by { NoneLonger(duration); assert Timed(vs)[..0] == []; }
      while i < |tracks|
        invariant i <= |tracks| && AllWritable(tracks)
        invariant forall k :: 0 <= k < i ==> tracks[k].V() == Timed(vs)[k]
        invariant forall k :: i <= k < |tracks| ==> tracks[k].V() == vs[k]
        invariant forall k :: 0 <= k < |tracks| ==> tracks[k].samples == old(tracks[k].samples)
        invariant duration == Longest(Timed(vs)[..i], old(duration))
      {
        var track := tracks[i];
        LongestStep(vs, i, old(duration));
        ViewSamples(track);
        if |track.samples| >= 1 {
          TrackDuration(track);
          if track.duration > duration {
            duration := track.duration; // maximum track duration
          }
        }
        i := i + 1;
      }
      assert Timed(vs)[..i] == Timed(vs);
    }

    /** The growth of moov once it is moved to the front: rounds of summing what the tables widen by,
        until a round changes nothing. */
    method Growth(moov: nat, ghost vs: seq<TrackV>) returns (co64: nat, ghost rounds: nat)
      requires Views(tracks, vs) && AllMarked(tracks)
      ensures LeastSettled(vs, moov, co64)
      ensures rounds <= |tracks|
    {
      hide TotalGrow, Switching, Grow;
      co64 := GrowthRound(tracks, moov, vs);
      rounds := 0;
      RoundStaysBelow(vs, moov, 0);
      assert moov + 0 == moov;
      if co64 > 0 {
        var sz: nat := 0;
        TotalGrowMonotone(vs, moov, moov + co64);
        while sz != co64
          invariant sz <= co64 == TotalGrow(vs, moov + sz)
          invariant forall f: nat :: Settled(vs, moov, f) ==> co64 <= f
          invariant sz < co64 ==> rounds < Switching(vs, moov + sz)
          invariant rounds <= |tracks|
          decreases |tracks| - rounds
        {
          TotalGrowMonotone(vs, moov + sz, moov + co64);
          RoundStaysBelow(vs, moov, co64);
          sz := co64;
          co64 := GrowthRound(tracks, moov + sz, vs);
          rounds := rounds + 1;
        }
      }
    }

    /** Closes the file. Without faststart moov follows the media data; with it, moov comes before
        the media data and every offset in it is moved by the size that moov has in the end. */
    method Destroy(ghost vs: seq<TrackV>) returns (ghost growth: nat)
      requires Valid() && AllWritable(tracks) && Views(tracks, vs)
      modifies this`duration, this`mdatOffset, tracks, io
      ensures duration == Longest(Timed(vs), old(duration))
      ensures var moov := |MoovBox(MovieOf(), Timed(vs))|;
        !faststart ==> io.data == FtypBox() + MdatHead(payload) + payload + MoovBox(MovieOf(), Timed(vs))
      ensures var moov := |MoovBox(MovieOf(), Timed(vs))|;
        faststart ==>
          && LeastSettled(Timed(vs), moov, growth)
          && io.data == FrontOf(payload) + MoovBox(MovieOf(), ShiftAll(Timed(vs), moov + growth)) + RearOf(payload)
    {
      hide FtypBox, MdatHead, MoovBox, Timed, Longest, Io.Tracking, FrontOf, RearOf, LeastSettled,
           AllFlagged, Placed, Views, AllWritable, Distinct, Rotated, AllMarked, OpenMdat, NeverBack, Small, ShiftAll;
      growth := 0;
      FinishMdat();
      FinishDurations(vs);
      ghost var ts, m, before := Timed(vs), MovieOf(), io.data;
      var offset := io.Tell();
      io.Begin();
      ghost var ts';
      var n;
      n, ts' := WriteMoov(ts);
      Appended(io);
      var offset2 := io.Tell();
      if faststart {
        growth := MoveMoovToFront(offset, offset2, before, ts, ts');
        SplitFile(payload);
      }
    }

    /** Writes moov once more with all offsets moved, and swaps it with the media data. */
    method MoveMoovToFront(offset: nat, offset2: nat, ghost before: seq<byte>,
                           ghost ts: seq<TrackV>, ghost ts': seq<TrackV>)
      returns (ghost growth: nat)
      requires io.error == 0 && io.data == before + MoovBox(MovieOf(), ts)
      requires offset == |before| && offset2 == |io.data| && mdatOffset <= offset
      requires Distinct(tracks) && AllWritable(tracks) && AllMarked(tracks)
      requires Views(tracks, ts') && AllFlagged(ts, ts')
      modifies tracks, io
      ensures LeastSettled(ts, |MoovBox(MovieOf(), ts)|, growth)
      ensures var moov := MoovBox(MovieOf(), ShiftAll(ts, |MoovBox(MovieOf(), ts)| + growth));
        io.data == before[..mdatOffset] + moov + before[mdatOffset..]
    {
      hide MoovBox, Io.Tracking, LeastSettled, AllFlagged, Views, AllWritable, Distinct, AllMarked, Rotated,
           Splice;
      ghost var m := MovieOf();
      ghost var rounds;
      var co64;
      co64, rounds := Growth(offset2 - offset, ts');
      growth := co64;
      SameSettled(m, ts, ts', offset2 - offset, co64);
      ShiftTracks(offset2 - offset + co64, ts');
      ghost var moov := MoovBox(m, ShiftAll(ts, offset2 - offset + co64));
      SameMoov(m, ts, ts', offset2 - offset + co64);
      RewriteMoov(offset, before, MoovBox(m, ts), ShiftAll(ts', offset2 - offset + co64));
      assert io.pos == offset2 + co64;
      var offset3 := io.Tell();
      var r := MoveTail(io, mdatOffset, offset, offset3 - offset);
      RotatedFile(before, moov, mdatOffset);
    }

    method RewriteMoov(offset: nat, ghost before: seq<byte>, ghost was: seq<byte>, ghost vs: seq<TrackV>)
      requires io.data == before + was && offset == |before|
      requires Distinct(tracks) && AllWritable(tracks) && Views(tracks, vs)
      requires |was| <= |MoovBox(MovieOf(), vs)|
      modifies tracks, io
      ensures io.error == 0 && io.data == before + MoovBox(MovieOf(), vs) && io.pos == |io.data|
    {
      hide MoovBox, Io.Tracking, AllFlagged, Views, AllWritable, Distinct, AllMarked, Splice;
      io.Seek(offset);
      io.Begin();
      ghost var vs';
      var n;
      n, vs' := WriteMoov(vs);
      Replaced(io, before, was, MoovBox(MovieOf(), vs));
    }

    method ShiftTracks(up: nat, ghost vs: seq<TrackV>)
      requires Distinct(tracks) && AllWritable(tracks) && Views(tracks, vs)
      modifies tracks
      ensures Views(tracks, ShiftAll(vs, up)) && AllWritable(tracks)
    {
      hide NeverBack;
      for i := 0 to |tracks|
        invariant forall k :: 0 <= k < i ==> tracks[k].V() == ShiftBy(vs[k], up)
        invariant forall k :: i <= k < |tracks| ==> tracks[k].V() == vs[k]
        invariant forall k :: 0 <= k < |tracks| ==> tracks[k].samples == old(tracks[k].samples)
      {
        tracks[i].offset := tracks[i].offset + up;
      }
    }
  }

  lemma Appended(io: Io)
    requires io.Tracking() && io.start == |io.base|
    ensures io.error == 0 && io.data == io.base + io.out && io.pos == |io.data|
  {
  }

  /** A second pass over the tail of the file that is no shorter than the first replaces it. */
  lemma Replaced(io: Io, before: seq<byte>, was: seq<byte>, now: seq<byte>)
    requires io.Tracking() && io.base == before + was && io.start == |before| && io.out == [] + now
    requires |was| <= |now|
    ensures io.error == 0 && io.data == before + now && io.pos == |io.data|
  {
  }

  lemma RotatedFile(before: seq<byte>, moov: seq<byte>, at: nat)
    requires at <= |before|
    ensures Rotated(before + moov, at, |before|) == before[..at] + moov + before[at..]
  {
  }

  lemma SplitFile(payload: seq<byte>)
    ensures var d, at := FtypBox() + MdatHead(payload) + payload, if Small(payload) then 40 else 32;
      d[..at] == FrontOf(payload) && d[at..] == RearOf(payload)
  {
    hide FtypBox, FreeBox;
    var d := FtypBox() + MdatHead(payload) + payload;
    assert d == FrontOf(payload) + RearOf(payload);
  }

  /** The growth found on the tracks as they are is that of the tracks as they were written. */
  lemma SameSettled(m: MovieV, ts: seq<TrackV>, ts': seq<TrackV>, moov: nat, g: nat)
    requires AllFlagged(ts, ts') && LeastSettled(ts', moov, g) && moov == |MoovBox(m, ts)|
    ensures LeastSettled(ts, moov, g)
    ensures |MoovBox(m, ShiftAll(ts, moov + g))| == moov + g
  {
    hide MoovBox, Traks, TotalGrow, AllFlagged;
    forall f: nat
      ensures Settled(ts, moov, f) == Settled(ts', moov, f)
    {
      SameMoov(m, ts, ts', moov + f);
    }
    SettledSize(m, ts, g);
  }

  /** What precedes moov in a faststart file, and what follows it. */
  function FrontOf(payload: seq<byte>): (b: seq<byte>) {
    if Small(payload) then FtypBox() + FreeBox() else FtypBox()
  }

  function RearOf(payload: seq<byte>): (b: seq<byte>) {
    (if Small(payload) then BE32(|payload| + 8) + Tag("mdat")
     else BE32(1) + Tag("mdat") + BE64(U64(|payload| + 16))) + payload
  }

  /** mov_stco_size: counts the chunk heads that the last table pass left in the scratch fields. */
  method StcoSize(track: Track, offset: nat) returns (size: nat)
    requires ChunksMarked(track.samples)
    ensures size == Grow(track.V(), offset)
  {
    hide Heads, Chunks;
    var ss := track.samples;
    if |ss| < 1 {
      return 0;
    }
    var co64 := ss[|ss| - 1].m.offset + track.offset;
    if co64 > UINT32_MAX || co64 + offset <= UINT32_MAX {
      return 0;
    }
    var i, j := 0, 0;
    assert |Heads(ss[..0])| == 0 by { HeadsNone(); assert ss[..0] == []; }
    while i < |ss|
      invariant i <= |ss| && j == |Heads(ss[..i])|
    {
      HeadsStep(ss, i);
      if ss[i].firstChunk != 0 {
        j := j + 1;
      }
      i := i + 1;
    }
    assert ss[..i] == ss;
    size := j * 4;
  }

  method GrowthRound(tracks: seq<Track>, offset: nat, ghost vs: seq<TrackV>) returns (co64: nat)
    requires Views(tracks, vs) && AllMarked(tracks)
    ensures co64 == TotalGrow(vs, offset)
  {
    hide Grow, ChunksMarked;
    co64 := 0;
    for i := 0 to |tracks|
      invariant co64 == TotalGrow(vs[..i], offset)
    {
      var n := StcoSize(tracks[i], offset);
      co64 := co64 + n;
      assert vs[..i + 1][..i] == vs[..i];
    }
    assert vs[..|tracks|] == vs;
  }

  function DurationOf(ms: seq<Media>): (d: nat)
    requires NeverBack(ms) && ms != []
  {
    DtsIncrease(ms, 0, |ms| - 1);
    var n := |ms|;
    var d := ms[n - 1].dts - ms[0].dts;
    if n > 1 then d + d * 3 / (n - 1) / 4 + (ms[n - 1].dts - ms[n - 2].dts) / 4 else d
  }

  lemma {:induction false} DtsIncrease(ms: seq<Media>, i: nat, j: nat)
    requires NeverBack(ms) && i <= j < |ms|
    ensures ms[i].dts <= ms[j].dts
    decreases j - i
  {
    if i < j {
      DtsIncrease(ms, i, j - 1);
      assert 0 <= ms[j - 1 + 1].dts - ms[j - 1].dts;
    }
  }

  ghost function Timed(vs: seq<TrackV>): (r: seq<TrackV>)
    ensures |r| == |vs|
  {
    seq(|vs|, i requires 0 <= i < |vs| =>
      if vs[i].ms != [] && NeverBack(vs[i].ms) then vs[i].(duration := DurationOf(vs[i].ms)) else vs[i])
  }

  ghost function Longest(vs: seq<TrackV>, least: nat): nat {
    if vs == [] then least else
      var n := |vs| - 1;
      var d := Longest(vs[..n], least);
      if vs[n].ms != [] && vs[n].duration > d then vs[n].duration else d
  }

  /** The longest duration of a track with samples, or `least` if none is longer. */
  lemma {:induction false} LongestIs(vs: seq<TrackV>, least: nat)
    ensures var d := Longest(vs, least);
      && d >= least && (forall i :: 0 <= i < |vs| && vs[i].ms != [] ==> vs[i].duration <= d)
      && (d == least || exists i :: 0 <= i < |vs| && vs[i].ms != [] && vs[i].duration == d)
  {
    if vs != [] {
      var n := |vs| - 1;
      LongestIs(vs[..n], least);
      if i :| 0 <= i < n && vs[..n][i].ms != [] && vs[..n][i].duration == Longest(vs[..n], least) {
        assert vs[i] == vs[..n][i];
      }
    }
  }

  lemma NoneLonger(least: nat)
    ensures Longest([], least) == least
  {
  }

  lemma LongestStep(vs: seq<TrackV>, i: nat, least: nat)
    requires i < |vs|
    ensures Timed(vs)[i].ms == vs[i].ms
    ensures vs[i].ms == [] || !NeverBack(vs[i].ms) ==> Timed(vs)[i] == vs[i]
    ensures vs[i].ms != [] && NeverBack(vs[i].ms) ==>
      Timed(vs)[i] == vs[i].(duration := DurationOf(vs[i].ms))
    ensures var d := Longest(Timed(vs)[..i], least);
      Longest(Timed(vs)[..i + 1], least)
      == if vs[i].ms != [] && Timed(vs)[i].duration > d then Timed(vs)[i].duration else d
  {
    hide DurationOf;
    assert Timed(vs)[..i + 1][..i] == Timed(vs)[..i];
  }

  /** The estimate lies between the distance from first to last sample and twice that. */
  lemma DurationSpan(ms: seq<Media>)
    requires NeverBack(ms) && ms != []
    ensures var span := ms[|ms| - 1].dts - ms[0].dts;
      0 <= span <= DurationOf(ms) <= 2 * span
  {
    hide NeverBack;
    var n := |ms|;
    DtsIncrease(ms, 0, n - 1);
    if n > 1 {
      DtsIncrease(ms, 0, n - 2);
      DtsIncrease(ms, n - 2, n - 1);
      Estimate(ms[n - 1].dts - ms[0].dts, ms[n - 1].dts - ms[n - 2].dts, n - 1);
    }
  }

  lemma Estimate(span: nat, step: nat, n: nat)
    requires n > 0 && step <= span
    ensures 0 <= span * 3 / n / 4 + step / 4 <= span
  {
    var q := Divided(span * 3, n);
    TimesLe(1, n, q);
    assert q <= span * 3;
  }

  lemma TimesLe(a: nat, b: nat, n: nat)
    requires a <= b
    ensures n * a <= n * b
  {
    assert n * b == n * a + n * (b - a);
    Positive(n, b - a);
  }

  lemma Positive(a: nat, b: nat)
    ensures a * b >= 0
  {
  }

  /** The quotient, by what it is in linear terms. */
  lemma Divided(d: nat, n: nat) returns (q: nat)
    requires n > 0
    ensures q == d / n && n * q <= d < n * q + n
  {
    q := d / n;
  }

  /** Samples at one distance: the estimate is that distance for every sample, one less in all when the
      distance is no multiple of four. */
  lemma SteadyDuration(ms: seq<Media>, step: nat)
    requires NeverBack(ms) && |ms| > 1 && forall i :: 0 <= i < |ms| - 1 ==> ms[i + 1].dts - ms[i].dts == step
    ensures DurationOf(ms) == |ms| * step - (if step % 4 == 0 then 0 else 1)
  {
    hide NeverBack;
    var n := |ms|;
    SteadySpan(ms, step, n - 1);
    assert ms[(n - 2) + 1].dts - ms[n - 2].dts == step;
    OneMore(n - 1, step);
    Quarters(ms[n - 1].dts - ms[0].dts, step, n - 1);
  }

  lemma OneMore(n: nat, step: nat)
    ensures n * step + step == (n + 1) * step
  {
  }

  lemma {:induction false} SteadySpan(ms: seq<Media>, step: nat, k: nat)
    requires k < |ms| && forall i :: 0 <= i < |ms| - 1 ==> ms[i + 1].dts - ms[i].dts == step
    ensures ms[k].dts - ms[0].dts == k * step
  {
    if k > 0 {
      SteadySpan(ms, step, k - 1);
      assert ms[(k - 1) + 1].dts - ms[k - 1].dts == step;
    }
  }

  lemma Quarters(d: nat, step: nat, n: nat)
    requires n > 0 && d == n * step
    ensures d * 3 / n / 4 + step / 4 == step - (if step % 4 == 0 then 0 else 1)
  {
    assert d * 3 == n * (step * 3);
    Cancel(step * 3, n);
  }

  lemma Cancel(a: nat, n: nat)
    requires n > 0
    ensures n * a / n == a
  {
    var q := Divided(n * a, n);
    if q < a {
      TimesLe(q + 1, a, n);
    } else {
      TimesLe(a, q, n);
      if a < q {
        TimesLe(a + 1, q, n);
      }
    }
  }

  method TrackDuration(track: Track)
    requires track.Writable() && |track.samples| >= 1
    modifies track`duration
    ensures track.V() == old(track.V()).(duration := DurationOf(Medias(track.samples)))
    ensures track.samples[|track.samples| - 1].m.dts - track.samples[0].m.dts <= track.duration
    ensures track.duration <= 2 * (track.samples[|track.samples| - 1].m.dts - track.samples[0].m.dts)
  {
    DurationSpan(Medias(track.samples));
    var ss := track.samples;
    var n := |ss|;
    ghost var ms := Medias(ss);
    DtsIncrease(ms, 0, n - 1);
    assert ms[n - 1] == ss[n - 1].m && ms[0] == ss[0].m;
    var d := ss[n - 1].m.dts - ss[0].m.dts;
    if n > 1 {
      assert ms[n - 2] == ss[n - 2].m;
      DtsIncrease(ms, n - 2, n - 1);
      Average(d, n - 1);
      d := d + d * 3 / (n - 1) / 4 + (ss[n - 1].m.dts - ss[n - 2].m.dts) / 4;
    }
    track.duration := d;
  }

  lemma Average(d: nat, n: nat)
    requires n > 0
    ensures d * 3 / n >= 0
  {
  }

  method WriteTraks(io: Io, tracks: seq<Track>, ghost vs: seq<TrackV>)
    returns (size: nat, ghost vs': seq<TrackV>)
    requires io.Tracking() && Distinct(tracks) && AllWritable(tracks) && Views(tracks, vs)
    modifies io`data, io`pos, io`error, io`base, io`start, io`out, tracks
    ensures io.Tracking() && io.base == old(io.base) && io.start == old(io.start)
    ensures io.out == old(io.out) + Traks(vs) && size == |Traks(vs)|
    ensures Views(tracks, vs') && AllFlagged(vs, vs') && AllMarked(tracks) && AllWritable(tracks)
  {
    hide Io.Tracking, TrakBox, ChunksMarked, NegativeRun, Traks, Flagged, Track.V, Track.Writable;
    ghost var head := io.out;
    size, vs' := 0, [];
    var i := 0;
    assert Traks(vs[..0]) == [] by { NoTraks(); assert vs[..0] == []; }
    while i < |tracks|
      invariant i <= |tracks| && io.Tracking() && io.base == old(io.base) && io.start == old(io.start)
      invariant io.out == head + Traks(vs[..i]) && size == |Traks(vs[..i])|
      invariant forall k :: i <= k < |tracks| ==> tracks[k].V() == vs[k] && tracks[k].Writable()
      invariant |vs'| == i && forall k :: 0 <= k < i ==> tracks[k].V() == vs'[k] && Flagged(vs[k], vs'[k])
      invariant forall k :: 0 <= k < i ==> ChunksMarked(tracks[k].samples) && tracks[k].Writable()
    {
      var track := tracks[i];
      TraksSnoc(vs, i);
      ViewSamples(track);
      if |track.samples| >= 1 {
        label L:
        var n := WriteTrak(io, track);
        KeepsFlagged@L(track);
        size := size + n;
      } else {
        KeepsFlagged(track);
        NoChunks(track.samples);
      }
      vs' := vs' + [track.V()];
      i := i + 1;
    }
    assert vs[..i] == vs;
  }

  lemma NoTraks()
    ensures Traks([]) == []
  {
  }

  lemma ViewSamples(track: Track)
    ensures |track.V().ms| == |track.samples|
  {
  }

  twostate lemma KeepsFlagged(track: Track)
    requires KeepsTrack(track) || track.V() == old(track.V())
    ensures Flagged(old(track.V()), track.V())
    ensures old(track.Writable()) ==> track.Writable()
  {
    assert |old(track.V()).ms| == |track.V().ms|;
  }

  lemma TraksSnoc(vs: seq<TrackV>, i: nat)
    requires i < |vs|
    ensures Traks(vs[..i + 1]) == Traks(vs[..i]) + (if vs[i].ms == [] then [] else TrakBox(vs[i]))
  {
    assert vs[..i + 1][..i] == vs[..i];
  }

  lemma NoChunks(samples: seq<Sample>)
    requires samples == []
    ensures ChunksMarked(samples)
  {
  }

  method SizeMdat(io: Io, offset: nat, size: nat, ghost payload: seq<byte>)
    requires io.error == 0 && io.data == FtypBox() + OpenMdat() + payload && io.pos == |io.data|
    requires offset == 40 && size == |payload| && Small(payload)
    modifies io`data, io`pos, io`error, io`base, io`start, io`out
    ensures io.data == FtypBox() + MdatHead(payload) + payload && io.error == 0 && io.pos == |io.data|
  {
    hide FtypBox, FreeBox, BE32, BE64, Tag, Io.Tracking, Splice;
    ghost var head, tail := FtypBox() + FreeBox(), Tag("mdat") + payload;
    assert io.data == head + BE32(0) + tail;
    var offset2 := io.Tell();
    io.Seek(offset);
    OverwriteAt(head, BE32(0), BE32(size + 8), tail);
    Overwrite32(io, size + 8);
    assert io.data == FtypBox() + MdatHead(payload) + payload;
    io.Seek(offset2);
  }

  method SizeLargeMdat(io: Io, offset: nat, size: nat, ghost payload: seq<byte>)
    requires io.error == 0 && io.data == FtypBox() + OpenMdat() + payload && io.pos == |io.data|
    requires offset == 32 && size == |payload| && !Small(payload)
    modifies io`data, io`pos, io`error, io`base, io`start, io`out
    ensures io.data == FtypBox() + MdatHead(payload) + payload && io.error == 0 && io.pos == |io.data|
  {
    hide FtypBox, OpenMdat, BE32, BE64, Tag, Io.Tracking, Splice;
    var offset2 := io.Tell();
    io.Seek(offset);
    io.Begin();
    io.W32(1);
    io.Put(Tag("mdat"));
    io.W64(U64(size + 16));
    assert io.out == MdatHead(payload);
    OverwriteAt(FtypBox(), OpenMdat(), MdatHead(payload), payload);
    Overwritten(io);
    io.Seek(offset2);
  }

  /** A 32-bit number written at the current position. */
  method Overwrite32(io: Io, v: uint32)
    requires io.error == 0 && io.pos <= |io.data|
    modifies io`data, io`pos, io`base, io`start, io`out
    ensures io.data == Splice(old(io.data), old(io.pos), BE32(v))
  {
    io.Begin();
    io.W32(v);
  }

  lemma Overwritten(io: Io)
    requires io.Tracking()
    ensures io.start <= |io.base| && io.data == Splice(io.base, io.start, io.out)
  {
  }

  lemma OverwriteAt(head: seq<byte>, was: seq<byte>, now: seq<byte>, tail: seq<byte>)
    requires |was| == |now|
    ensures Splice(head + was + tail, |head|, now) == head + now + tail
  {
    var o := head + was + tail;
    assert o[..|head|] == head && o[|head| + |now|..] == tail;
  }
}
