/** The whole way round: what a reader finds in a closed file is what was written, with and without
    faststart, for 32-bit and 64-bit media data. */
module EndToEnd {
  import opened Bytes
  import opened Runs
  import opened SampleTables
  import opened Timing
  import opened TrackBoxes
  import opened Co64
  import opened MovTrack
  import opened IoUtil
  import opened MovWriter
  import opened Options
  import opened BoxParser
  import opened ReadTables
  import opened ReadBack
  import opened Recover
  import MovReader
  import opened TrackReader

  /** What a reader ends up with for a track. */
  function ReadTrack(v: TrackV): Tables
    requires v.ms != []
  {
    TablesOf(v).(samples := Recovered(v), clock := Recovered(v)[|v.ms| - 1].dts)
  }

  /** Tracks without samples are not in the file. */
  function ReadTracks(vs: seq<TrackV>): seq<Tables> {
    if vs == [] then [] else
      var n := |vs| - 1;
      ReadTracks(vs[..n]) + (if vs[n].ms == [] then [] else [ReadTrack(vs[n])])
  }

  ghost predicate AllReadable(vs: seq<TrackV>) {
    && (forall i :: 0 <= i < |vs| ==> vs[i].ms == [] || Readable(vs[i]))
    && (forall i, j :: 0 <= i < j < |vs| ==> vs[i].header.id != vs[j].header.id)
  }

  lemma ReadTrackId(v: TrackV)
    requires v.ms != []
    ensures ReadTrack(v).id == v.header.id
  {
  }

  lemma {:induction false} IdsOf(vs: seq<TrackV>, id: uint32)
    requires forall i :: 0 <= i < |vs| ==> vs[i].header.id != id
    ensures forall i :: 0 <= i < |ReadTracks(vs)| ==> ReadTracks(vs)[i].id != id
  {
    hide ReadTrack;
    if vs != [] {
      var n := |vs| - 1;
      IdsOf(vs[..n], id);
      if vs[n].ms != [] {
        ReadTrackId(vs[n]);
      }
    }
  }

  /** A trak box: its tables are read, then applied. */
  lemma TrakStep(d: seq<byte>, p: nat, end: nat, ts: seq<Tables>, cur: int, v: TrackV)
    requires v.ms != [] && Readable(v) && At(d, p, TrakBox(v)) && p + |TrakBox(v)| <= end
    requires forall i :: 0 <= i < |ts| ==> ts[i].id != v.header.id
    ensures ParseBoxes(d, p, end, Moov, Reading(ts, cur, 0, 0))
         == ParseBoxes(d, p + |TrakBox(v)|, end, Moov, Reading(ts + [ReadTrack(v)], |ts|, 0, 0))
  {
    hide *;
    TrakBoxIs(v);
    ReadableParts(v);
    BoxHeader(d, p, "trak", TrakBody(v));
    TrakInside(d, p + 8, ts, cur, v);
    BoxRead(d, p, end, Moov, Reading(ts, cur, 0, 0), "trak", TRAK, TrakBody(v), Reading(ts + [ReadTrack(v)], |ts|, 0, 0));
  }

  lemma TrakBoxIs(v: TrackV)
    ensures TrakBox(v) == Box("trak", TrakBody(v)) && |TrakBody(v)| > 0 && FourCC("trak") == TRAK
  {
    hide TkhdBox, EdtsBox, MdiaBody;
  }

  /** A box that is read is passed. */
  lemma BoxRead(d: seq<byte>, p: nat, end: nat, parent: Kind, st: Reading, tag: string, code: uint32, body: seq<byte>,
                read: Reading)
    requires |tag| == 4 && FourCC(tag) == code && At(d, p, Box(tag, body))
    requires p + 8 < end && |body| + 8 <= UINT32_MAX && p + 8 + |body| <= end
    requires ParseBox(d, p + 8, p + 8 + |body|, code, parent, st) == Read(read)
    ensures ParseBoxes(d, p, end, parent, st) == ParseBoxes(d, p + |Box(tag, body)|, end, parent, read)
  {
    hide ParseBoxes, ParseBox, At, FourCC, Box;
    BoxStep(d, p, end, parent, st, tag, body);
  }

  lemma TrakInside(d: seq<byte>, q: nat, ts: seq<Tables>, cur: int, v: TrackV)
    requires v.ms != [] && Readable(v) && At(d, q, TrakBody(v)) && q >= 8
    requires forall i :: 0 <= i < |ts| ==> ts[i].id != v.header.id
    ensures ParseBox(d, q, q + |TrakBody(v)|, TRAK, Moov, Reading(ts, cur, 0, 0))
         == Read(Reading(ts + [ReadTrack(v)], |ts|, 0, 0))
  {
    hide ParseBoxes, At, FourCC, TrakBody, TablesOf, Recovered, Chunkable, IsStsd, Readable, MdiaBody, CtsFit,
         Consistent, Rebuild, ApplyTables;
    EdtsCode();
    ReadableParts(v);
    TrakRead(d, q, Reading(ts, -1, 0, 0), v);
    NewTrak(ts, v);
    RebuildIs(v);
    ApplyIs(ts, v);
  }

  lemma NewTrak(ts: seq<Tables>, v: TrackV)
    requires forall i :: 0 <= i < |ts| ==> ts[i].id != v.header.id
    ensures var r := FetchTrack(Reading(ts, -1, 0, 0), v.header.id);
      r.With(TrakTables(r.Track(), v)) == Reading(ts + [TablesOf(v)], |ts|, 0, 0)
  {
    hide TrakTables;
  }

  lemma ApplyIs(ts: seq<Tables>, v: TrackV)
    requires v.ms != [] && Consistent(TablesOf(v)) && Rebuild(TablesOf(v)) == Recovered(v)
    ensures ApplyTables(Reading(ts + [TablesOf(v)], |ts|, 0, 0)) == Read(Reading(ts + [ReadTrack(v)], |ts|, 0, 0))
  {
    hide Consistent, Rebuild, Recovered;
    assert |TablesOf(v).sizes| == |v.ms|;
    assert (ts + [TablesOf(v)])[|ts| := ReadTrack(v)] == ts + [ReadTrack(v)];
  }

  lemma TraksSplit(vs: seq<TrackV>)
    requires vs != []
    ensures var n := |vs| - 1;
      && Traks(vs) == Traks(vs[..n]) + (if vs[n].ms == [] then [] else TrakBox(vs[n]))
      && ReadTracks(vs) == (if vs[n].ms == [] then ReadTracks(vs[..n]) else ReadTracks(vs[..n]) + [ReadTrack(vs[n])])
      && (vs[n].ms == [] ==> Traks(vs) == Traks(vs[..n]))
  {
    hide TrakBox, ReadTrack;
  }

  lemma ReadableFront(vs: seq<TrackV>)
    requires vs != [] && AllReadable(vs)
    ensures var n := |vs| - 1;
      && AllReadable(vs[..n]) && (vs[n].ms == [] || Readable(vs[n]))
      && forall i :: 0 <= i < n ==> vs[..n][i].header.id != vs[n].header.id
  {
    hide Readable;
  }

  lemma NoTraksRead()
    ensures Traks([]) == [] && ReadTracks([]) == []
  {
  }

  lemma {:induction false} TraksRead(d: seq<byte>, p: nat, end: nat, vs: seq<TrackV>) returns (cur: int)
    requires AllReadable(vs) && At(d, p, Traks(vs)) && p + |Traks(vs)| <= end
    ensures ParseBoxes(d, p, end, Moov, START)
         == ParseBoxes(d, p + |Traks(vs)|, end, Moov, Reading(ReadTracks(vs), cur, 0, 0))
  {
    hide ParseBoxes, At, TrakBox, Readable, ReadTrack, Traks, ReadTracks, AllReadable;
    if vs == [] {
      cur := -1;
      NoTraksRead();
    } else {
      var n := |vs| - 1;
      var v := vs[n];
      TraksSplit(vs);
      ReadableFront(vs);
      AtConcat(d, p, Traks(vs[..n]), if v.ms == [] then [] else TrakBox(v));
      cur := TraksRead(d, p, end, vs[..n]);
      if v.ms != [] {
        IdsOf(vs[..n], v.header.id);
        TrakStep(d, p + |Traks(vs[..n])|, end, ReadTracks(vs[..n]), cur, v);
        cur := |ReadTracks(vs[..n])|;
      }
    }
  }

  lemma MoovStep(d: seq<byte>, p: nat, end: nat, m: MovieV, vs: seq<TrackV>) returns (cur: int)
    requires AllReadable(vs) && At(d, p, MoovBox(m, vs)) && |MoovBox(m, vs)| <= UINT32_MAX
    requires p + |MoovBox(m, vs)| <= end
    ensures ParseBoxes(d, p, end, Root, START)
         == ParseBoxes(d, p + |MoovBox(m, vs)|, end, Root, Reading(ReadTracks(vs), cur, 0, 0))
  {
    hide ParseBoxes, At, FourCC, Box, Traks, MvhdBox, AllReadable, ReadTracks, Skipped, Container, List32;
    NestCodes();
    EdtsCode();
    HeaderCodes();
    var b1, b2, b3 := MvhdBox(m.created, m.duration, m.nextId), Traks(vs), UdtaBox(m.udta);
    ContainerStep(d, p, end, Root, START, "moov", b1 + b2 + b3, Moov);
    AtConcat(d, p + 8, b1 + b2, b3);
    AtConcat(d, p + 8, b1, b2);
    var end' := p + 8 + |b1 + b2 + b3|;
    SkipMvhd(d, p + 8, end', m);
    cur := TraksRead(d, p + 8 + |b1|, end', vs);
    var st := Reading(ReadTracks(vs), cur, 0, 0);
    if m.udta != [] {
      SkipStep(d, p + 8 + |b1| + |b2|, end', Moov, st, "udta", m.udta);
    }
    Done(d, end', Moov, st);
  }

  lemma SkipMvhd(d: seq<byte>, p: nat, end: nat, m: MovieV)
    requires At(d, p, MvhdBox(m.created, m.duration, m.nextId)) && p + 108 <= end
    ensures ParseBoxes(d, p, end, Moov, START) == ParseBoxes(d, p + 108, end, Moov, START)
  {
    hide ParseBoxes, At, FourCC, Box, Skipped, List32;
    HeaderCodes();
    SkipStep(d, p, end, Moov, START, "mvhd",
             [0] + BE24(0) + List32([m.created, m.created, TIMESCALE, m.duration, 0x1_0000, 0x100_0000, 0, 0,
                                     0x1_0000, 0, 0, 0, 0x1_0000, 0, 0, 0, 0x4000_0000, 0, 0, 0, 0, 0, 0, m.nextId]));
  }

  // ---- The file ----

  const INFINITE := 0xFFFF_FFFF_FFFF_FFFF

  predicate SkippedAtRoot(code: uint32) {
    && Container(code, Root) == None && code != TKHD && code != ELST
    && code != TREX && code != TFHD && code != TFDT && code != TRUN && code != TFRA
    && code != STTS && code != CTTS && code != STSC && code != STSZ && code != STCO && code != CO64 && code != STSS
  }

  lemma RootCodes()
    ensures SkippedAtRoot(FourCC("ftyp")) && SkippedAtRoot(FourCC("free")) && SkippedAtRoot(FourCC("mdat"))
  {
    hide FourCC;
    RootNumbers();
  }

  lemma RootNumbers()
    ensures FourCC("ftyp") == 0x6674_7970 && FourCC("free") == 0x6672_6565 && FourCC("mdat") == 0x6D64_6174
  {
  }

  lemma RootSkip(d: seq<byte>, p: nat, st: Reading, tag: string, body: seq<byte>)
    requires |tag| == 4 && At(d, p, Box(tag, body)) && SkippedAtRoot(FourCC(tag))
    requires |body| + 8 <= UINT32_MAX && p + 8 + |body| < INFINITE
    ensures ParseBoxes(d, p, INFINITE, Root, st) == ParseBoxes(d, p + 8 + |body|, INFINITE, Root, st)
  {
    hide ParseBoxes, Box, FourCC, At, Container;
    BoxStep(d, p, INFINITE, Root, st, tag, body);
  }

  /** The media data with its header, right behind the reserve or in place of it. */
  lemma MdatStep(d: seq<byte>, p: nat, st: Reading, payload: seq<byte>)
    requires At(d, p, RearOf(payload)) && p + 16 + |payload| < INFINITE
    ensures ParseBoxes(d, p, INFINITE, Root, st) == ParseBoxes(d, p + |RearOf(payload)|, INFINITE, Root, st)
  {
    if Small(payload) {
      SmallMdat(d, p, st, payload);
    } else {
      LargeMdat(d, p, st, payload);
    }
  }

  lemma SmallMdat(d: seq<byte>, p: nat, st: Reading, payload: seq<byte>)
    requires Small(payload) && At(d, p, RearOf(payload)) && p + 16 + |payload| < INFINITE
    ensures ParseBoxes(d, p, INFINITE, Root, st) == ParseBoxes(d, p + |RearOf(payload)|, INFINITE, Root, st)
  {
    hide ParseBoxes, FourCC, At, BE32, Tag, SkippedAtRoot;
    RootCodes();
    assert RearOf(payload) == Box("mdat", payload);
    RootSkip(d, p, st, "mdat", payload);
  }

  lemma LargeMdat(d: seq<byte>, p: nat, st: Reading, payload: seq<byte>)
    requires !Small(payload) && At(d, p, RearOf(payload)) && p + 16 + |payload| < INFINITE
    ensures ParseBoxes(d, p, INFINITE, Root, st) == ParseBoxes(d, p + |RearOf(payload)|, INFINITE, Root, st)
  {
    hide ParseBoxes, ParseBox, FourCC, At, RearOf, Get32, SkippedAtRoot, BoxExtent;
    RootCodes();
    RearLength(payload);
    LargeHeader(d, p, payload);
    Unfold(d, p, INFINITE, Root, st, |payload| + 16, 16);
    SkipAny(d, p + 16, p + 16 + |payload|, FourCC("mdat"), st);
  }

  lemma SkipAny(d: seq<byte>, p: nat, q: nat, code: uint32, st: Reading)
    requires 8 <= p <= q && SkippedAtRoot(code)
    ensures ParseBox(d, p, q, code, Root, st) == Read(st)
  {
  }

  lemma LargeHeader(d: seq<byte>, p: nat, payload: seq<byte>)
    requires At(d, p, RearOf(payload)) && !Small(payload) && p + 16 + |payload| < INFINITE
    ensures p + 16 + |payload| <= |d| && Get32(d, p + 4) == FourCC("mdat")
    ensures BoxExtent(d, p, INFINITE).Some? && BoxExtent(d, p, INFINITE).value.0 == |payload| + 16
      && BoxExtent(d, p, INFINITE).value.1 == 16
  {
    hide FourCC, BE64, BE32, Tag, Get32, Get64;
    AtConcat(d, p, BE32(1) + Tag("mdat") + BE64(U64(|payload| + 16)), payload);
    AtConcat(d, p, BE32(1) + Tag("mdat"), BE64(U64(|payload| + 16)));
    AtConcat(d, p, BE32(1), Tag("mdat"));
    Get32Of(d, p, 1);
    CodeOf(d, p + 4, "mdat");
    Get64Of(d, p + 8, |payload| + 16);
  }

  lemma AtEof(d: seq<byte>, st: Reading)
    requires |d| + 8 < INFINITE
    ensures ParseBoxes(d, |d|, INFINITE, Root, st) == Read(st)
  {
  }

  lemma AtWhole(d: seq<byte>)
    ensures At(d, 0, d)
  {
  }

  lemma FrontStep(d: seq<byte>, st: Reading, payload: seq<byte>)
    requires At(d, 0, FrontOf(payload))
    ensures ParseBoxes(d, 0, INFINITE, Root, st) == ParseBoxes(d, |FrontOf(payload)|, INFINITE, Root, st)
  {
    hide ParseBoxes, FourCC, At, Box, BE32, Tag, SkippedAtRoot;
    RootCodes();
    var brands := Tag("isom") + BE32(0x200) + Tag("isom") + Tag("iso2") + Tag("avc1") + Tag("mp41");
    assert FtypBox() == Box("ftyp", brands);
    if Small(payload) {
      AtConcat(d, 0, FtypBox(), FreeBox());
      RootSkip(d, 0, st, "ftyp", brands);
      FreeIsBox();
      RootSkip(d, 32, st, "free", []);
    } else {
      RootSkip(d, 0, st, "ftyp", brands);
    }
  }

  lemma FreeIsBox()
    ensures FreeBox() == Box("free", [])
  {
  }

  /** Reading a file whose media data comes first. */
  lemma PlainFile(d: seq<byte>, payload: seq<byte>, m: MovieV, vs: seq<TrackV>)
    requires d == FtypBox() + MdatHead(payload) + payload + MoovBox(m, vs) && |d| + 8 < INFINITE
    requires AllReadable(vs) && |MoovBox(m, vs)| <= UINT32_MAX
    ensures ParseFile(d) == Some(ReadTracks(vs))
  {
    hide ParseBoxes, At, FtypBox, MdatHead, FrontOf, RearOf, MoovBox, AllReadable, ReadTracks;
    AtWhole(d);
    SplitFile(payload);
    assert d == FrontOf(payload) + RearOf(payload) + MoovBox(m, vs);
    AtConcat(d, 0, FrontOf(payload) + RearOf(payload), MoovBox(m, vs));
    AtConcat(d, 0, FrontOf(payload), RearOf(payload));
    var st := START;
    FrontStep(d, st, payload);
    MdatStep(d, |FrontOf(payload)|, st, payload);
    var cur := MoovStep(d, |FrontOf(payload) + RearOf(payload)|, INFINITE, m, vs);
    AtEof(d, Reading(ReadTracks(vs), cur, 0, 0));
  }

  /** Reading a file whose moov comes first. */
  lemma FastFile(d: seq<byte>, payload: seq<byte>, m: MovieV, vs: seq<TrackV>)
    requires d == FrontOf(payload) + MoovBox(m, vs) + RearOf(payload) && |d| + 8 < INFINITE
    requires AllReadable(vs) && |MoovBox(m, vs)| <= UINT32_MAX
    ensures ParseFile(d) == Some(ReadTracks(vs))
  {
    hide ParseBoxes, At, FrontOf, RearOf, MoovBox, AllReadable, ReadTracks;
    AtWhole(d);
    AtConcat(d, 0, FrontOf(payload) + MoovBox(m, vs), RearOf(payload));
    AtConcat(d, 0, FrontOf(payload), MoovBox(m, vs));
    FrontStep(d, START, payload);
    var cur := MoovStep(d, |FrontOf(payload)|, INFINITE, m, vs);
    var st := Reading(ReadTracks(vs), cur, 0, 0);
    RearLength(payload);
    MdatStep(d, |FrontOf(payload) + MoovBox(m, vs)|, st, payload);
    AtEof(d, st);
  }

  lemma RearLength(payload: seq<byte>)
    ensures |RearOf(payload)| == |payload| + (if Small(payload) then 8 else 16)
    ensures |FrontOf(payload)| == if Small(payload) then 40 else 32
  {
  }

  // ---- The bytes ----

  /** Bytes found in the open file at some offset are found in the payload, 48 bytes earlier. */
  lemma InPayload(payload: seq<byte>, offset: nat, b: seq<byte>)
    requires At(FtypBox() + OpenMdat() + payload, offset, b) && PAYLOAD_START <= offset
    ensures At(payload, offset - PAYLOAD_START, b)
  {
    hide FtypBox, OpenMdat;
    var d := FtypBox() + OpenMdat() + payload;
    assert d[offset..offset + |b|] == payload[offset - 48..offset - 48 + |b|];
  }

  lemma InFile(d: seq<byte>, front: seq<byte>, payload: seq<byte>, rear: seq<byte>, offset: nat, b: seq<byte>)
    requires d == front + payload + rear && At(payload, offset, b)
    ensures At(d, |front| + offset, b)
  {
    assert d[|front| + offset..|front| + offset + |b|] == payload[offset..offset + |b|];
  }

  /** Every sample read back lies where its bytes are. */
  ghost predicate Found(d: seq<byte>, v: TrackV, log: Log) {
    && |log| == |v.ms|
    && forall k :: 0 <= k < |v.ms| ==>
         Recovered(v)[k].bytes == |log[k]| && At(d, Recovered(v)[k].offset, log[k])
  }

  ghost predicate BytesFound(d: seq<byte>, vs: seq<TrackV>, logs: seq<Log>) {
    |logs| == |vs| && forall i :: 0 <= i < |vs| ==> Found(d, vs[i], logs[i])
  }

  ghost predicate AllPlaced(vs: seq<TrackV>, payload: seq<byte>, logs: seq<Log>) {
    && |logs| == |vs|
    && forall i :: 0 <= i < |vs| ==> vs[i].shift == 0 && Placed(vs[i].ms, FtypBox() + OpenMdat() + payload, logs[i])
  }

  lemma PlacedAt(ms: seq<Media>, data: seq<byte>, log: Log, k: nat)
    requires Placed(ms, data, log) && k < |ms|
    ensures |log| == |ms| && |log[k]| == ms[k].bytes && PAYLOAD_START <= ms[k].offset
    ensures At(data, ms[k].offset, log[k])
  {
  }

  lemma RecoveredAt(v: TrackV, k: nat)
    requires k < |v.ms|
    ensures Recovered(v)[k].offset == v.ms[k].offset + v.shift && Recovered(v)[k].bytes == v.ms[k].bytes
  {
  }

  lemma BytesMoved(d: seq<byte>, front: seq<byte>, payload: seq<byte>, rear: seq<byte>, up: nat,
                   vs: seq<TrackV>, logs: seq<Log>)
    requires d == front + payload + rear && |front| == PAYLOAD_START + up
    requires AllPlaced(vs, payload, logs)
    ensures BytesFound(d, ShiftAll(vs, up), logs)
  {
    hide FtypBox, OpenMdat, Found, Placed;
    var ts := ShiftAll(vs, up);
    forall i | 0 <= i < |ts|
      ensures Found(d, ts[i], logs[i])
    {
      assert vs[i].shift == 0;
      FoundMoved(d, front, payload, rear, up, vs[i], logs[i]);
    }
  }

  lemma FoundMoved(d: seq<byte>, front: seq<byte>, payload: seq<byte>, rear: seq<byte>, up: nat, v: TrackV, log: Log)
    requires d == front + payload + rear && |front| == PAYLOAD_START + up
    requires v.shift == 0 && Placed(v.ms, FtypBox() + OpenMdat() + payload, log)
    ensures Found(d, ShiftBy(v, up), log)
  {
    hide FtypBox, OpenMdat, Recovered, At, Placed;
    var t := ShiftBy(v, up);
    PlacedLength(v.ms, FtypBox() + OpenMdat() + payload, log);
    forall k | 0 <= k < |t.ms|
      ensures Recovered(t)[k].bytes == |log[k]| && At(d, Recovered(t)[k].offset, log[k])
    {
      PlacedAt(v.ms, FtypBox() + OpenMdat() + payload, log, k);
      RecoveredAt(t, k);
      InPayload(payload, v.ms[k].offset, log[k]);
      InFile(d, front, payload, rear, v.ms[k].offset - PAYLOAD_START, log[k]);
    }
  }

  lemma PlacedLength(ms: seq<Media>, data: seq<byte>, log: Log)
    requires Placed(ms, data, log)
    ensures |log| == |ms|
  {
  }

  // ---- Closing and reading ----

  /** What the caller has to see to: no empty sample, presentation times within 31 bits of their
      decode times, and a sample description box. */
  ghost predicate Sound(vs: seq<TrackV>) {
    forall i :: 0 <= i < |vs| ==> NonEmpty(vs[i].ms) && CtsFit(vs[i].ms) && IsStsd(vs[i].header.stsd)
  }

  /** What the writer sees to: ids counted from 1. */
  ghost predicate Counted(vs: seq<TrackV>) {
    forall i :: 0 <= i < |vs| ==> vs[i].header.id == i + 1
  }

  /** The closed file is within the limits of the format. (A build with assertions stops earlier when it
      moves a moov of 2 GiB or more to the front.) */
  ghost predicate WithinLimits(d: seq<byte>, moov: nat, ts: seq<TrackV>) {
    && moov <= UINT32_MAX && |d| + 8 < INFINITE
    && forall i :: 0 <= i < |ts| ==>
         ts[i].duration < 0x1_0000_0000_0000_0000
         && (ts[i].ms != [] ==> Delay(ts[i].ms) < 0x1_0000_0000_0000_0000)
  }

  lemma {:induction false} TrakWithin(vs: seq<TrackV>, i: nat)
    requires i < |vs| && vs[i].ms != []
    ensures |TrakBox(vs[i])| <= |Traks(vs)|
  {
    hide TrakBox;
    var n := |vs| - 1;
    if i < n {
      TrakWithin(vs[..n], i);
    }
  }

  lemma ReadableTrack(v: TrackV, d: seq<byte>, front: seq<byte>, payload: seq<byte>, log: Log)
    requires v.ms != [] && |v.ms| <= UINT32_MAX && NeverBack(v.ms)
    requires NonEmpty(v.ms) && CtsFit(v.ms) && IsStsd(v.header.stsd)
    requires v.duration < 0x1_0000_0000_0000_0000 && Delay(v.ms) < 0x1_0000_0000_0000_0000
    requires |TrakBox(v)| <= UINT32_MAX && |d| < INFINITE
    requires Placed(v.ms, FtypBox() + OpenMdat() + payload, log)
    requires |FtypBox() + OpenMdat() + payload| + v.shift <= |d|
    ensures Readable(v)
  {
    hide FtypBox, OpenMdat, TrakBox, NeverBack, IsStsd, CtsFit;
    var n := |v.ms| - 1;
    assert At(FtypBox() + OpenMdat() + payload, v.ms[n].offset, log[n]);
  }

  ghost predicate AllOrdered(vs: seq<TrackV>) {
    forall i :: 0 <= i < |vs| ==> |vs[i].ms| <= UINT32_MAX && NeverBack(vs[i].ms)
  }

  lemma AllAreReadable(d: seq<byte>, payload: seq<byte>, m: MovieV, vs: seq<TrackV>, up: nat, logs: seq<Log>)
    requires AllPlaced(vs, payload, logs) && Sound(vs) && Counted(vs) && AllOrdered(vs)
    requires WithinLimits(d, |MoovBox(m, ShiftAll(vs, up))|, ShiftAll(vs, up))
    requires |payload| + PAYLOAD_START + up <= |d|
    ensures AllReadable(ShiftAll(vs, up))
  {
    hide FtypBox, OpenMdat, TrakBox, NeverBack, IsStsd, CtsFit, Placed, NonEmpty, Readable, MvhdBox, UdtaBox;
    var ts := ShiftAll(vs, up);
    forall i | 0 <= i < |ts| && ts[i].ms != []
      ensures Readable(ts[i])
    {
      TrakWithin(ts, i);
      ReadableTrack(ts[i], d, [], payload, logs[i]);
    }
  }

  lemma ShiftNone(vs: seq<TrackV>)
    ensures ShiftAll(vs, 0) == vs
  {
  }

  /** Without faststart: every sample is found again, with its bytes. */
  lemma PlainEnd(d: seq<byte>, payload: seq<byte>, m: MovieV, vs: seq<TrackV>, logs: seq<Log>)
    requires d == FtypBox() + MdatHead(payload) + payload + MoovBox(m, vs)
    requires AllPlaced(vs, payload, logs) && Sound(vs) && Counted(vs) && AllOrdered(vs)
    requires WithinLimits(d, |MoovBox(m, vs)|, vs)
    ensures ParseFile(d) == Some(ReadTracks(vs)) && BytesFound(d, vs, logs)
  {
    hide FtypBox, MdatHead, MoovBox, ReadTracks, AllReadable, BytesFound, Sound, Counted, AllOrdered, AllPlaced, ParseFile;
    ShiftNone(vs);
    AllAreReadable(d, payload, m, vs, 0, logs);
    PlainFile(d, payload, m, vs);
    BytesMoved(d, FtypBox() + MdatHead(payload), payload, MoovBox(m, vs), 0, vs, logs);
  }

  /** With faststart: the same, with every offset moved by the size of moov. */
  lemma FastEnd(d: seq<byte>, payload: seq<byte>, m: MovieV, vs: seq<TrackV>, up: nat, logs: seq<Log>)
    requires up == |MoovBox(m, ShiftAll(vs, up))|
    requires d == FrontOf(payload) + MoovBox(m, ShiftAll(vs, up)) + RearOf(payload)
    requires AllPlaced(vs, payload, logs) && Sound(vs) && Counted(vs) && AllOrdered(vs)
    requires WithinLimits(d, up, ShiftAll(vs, up))
    ensures ParseFile(d) == Some(ReadTracks(ShiftAll(vs, up))) && BytesFound(d, ShiftAll(vs, up), logs)
  {
    hide FrontOf, RearOf, MoovBox, ReadTracks, AllReadable, BytesFound, Sound, Counted, AllOrdered, AllPlaced, ParseFile;
    var moov := MoovBox(m, ShiftAll(vs, up));
    RearLength(payload);
    AllAreReadable(d, payload, m, vs, up, logs);
    FastFile(d, payload, m, ShiftAll(vs, up));
    var head := RearHead(payload);
    assert d == (FrontOf(payload) + moov + head) + payload + [];
    BytesMoved(d, FrontOf(payload) + moov + head, payload, [], up, vs, logs);
  }

  lemma RearHead(payload: seq<byte>) returns (head: seq<byte>)
    ensures RearOf(payload) == head + payload && |head| == if Small(payload) then 8 else 16
  {
    head := if Small(payload) then BE32(|payload| + 8) + Tag("mdat")
            else BE32(1) + Tag("mdat") + BE64(U64(|payload| + 16));
  }

  /** Closing a writer at the end of any run, then reading the file. The reader finds every non-empty
      track, and for each of its samples, at the offset and size rebuilt from the tables, the very bytes
      that were handed over. */
  method CloseAndRead(w: Writer, ghost vs: seq<TrackV>) returns (r: int, reader: MovReader.Reader, ghost ts: seq<TrackV>)
    requires w.Valid() && AllWritable(w.tracks) && Views(w.tracks, vs) && Sound(vs)
    modifies w`duration, w`mdatOffset, w.tracks, w.io
    ensures |ts| == |vs| && forall i :: 0 <= i < |vs| ==> ts[i].ms == vs[i].ms && ts[i].header == vs[i].header
    ensures reader.Valid() && reader.io == w.io
    ensures WithinLimits(w.io.data, |MoovBox(w.MovieOf(), ts)|, ts) ==>
      r == 0 && MovReader.Views(reader.tracks) == ReadTracks(ts) && BytesFound(w.io.data, ts, w.logs)
  {
    hide WithinLimits, Sound, ParseFile, ReadTracks, BytesFound, MoovBox, FtypBox;
    ts := Close(w, vs);
    w.io.Seek(0);
    reader := new MovReader.Reader(w.io);
    r := reader.ReadFile();
  }

  /** The file that is left at the end of any run parses to the tracks that were written. */
  method Close(w: Writer, ghost vs: seq<TrackV>) returns (ghost ts: seq<TrackV>)
    requires w.Valid() && AllWritable(w.tracks) && Views(w.tracks, vs) && Sound(vs)
    modifies w`duration, w`mdatOffset, w.tracks, w.io
    ensures |ts| == |vs| && forall i :: 0 <= i < |vs| ==> ts[i].ms == vs[i].ms && ts[i].header == vs[i].header
    ensures WithinLimits(w.io.data, |MoovBox(w.MovieOf(), ts)|, ts) ==>
      ParseFile(w.io.data) == Some(ReadTracks(ts)) && BytesFound(w.io.data, ts, w.logs)
  {
    hide FtypBox, MdatHead, MoovBox, ReadTracks, BytesFound, Sound, Counted, AllOrdered, AllPlaced, ParseFile, FrontOf,
         RearOf, WithinLimits, Timed, LeastSettled;
    ghost var payload, logs := w.payload, w.logs;
    OpenFacts(w, vs);
    TimedFacts(vs, payload, logs);
    ghost var growth := w.Destroy(vs);
    ghost var m, timed := w.MovieOf(), Timed(vs);
    ghost var moov := |MoovBox(m, timed)|;
    if w.faststart {
      ts := ShiftAll(timed, moov + growth);
      GrowthSettles(m, timed, moov, growth);
      if WithinLimits(w.io.data, |MoovBox(m, ts)|, ts) {
        FastEnd(w.io.data, payload, m, timed, moov + growth, logs);
      }
    } else {
      ts := timed;
      if WithinLimits(w.io.data, |MoovBox(m, ts)|, ts) {
        PlainEnd(w.io.data, payload, m, timed, logs);
      }
    }
  }

  lemma GrowthSettles(m: MovieV, ts: seq<TrackV>, moov: nat, growth: nat)
    requires LeastSettled(ts, moov, growth) && moov == |MoovBox(m, ts)|
    ensures |MoovBox(m, ShiftAll(ts, moov + growth))| == moov + growth
  {
    hide MoovBox;
    SettledSize(m, ts, growth);
  }

  lemma OpenFacts(w: Writer, vs: seq<TrackV>)
    requires w.Valid() && AllWritable(w.tracks) && Views(w.tracks, vs)
    ensures AllPlaced(vs, w.payload, w.logs) && AllOrdered(vs) && Counted(vs)
  {
    hide Placed, NeverBack, FtypBox, OpenMdat;
    forall i | 0 <= i < |vs|
      ensures vs[i].shift == 0 && Placed(vs[i].ms, FtypBox() + OpenMdat() + w.payload, w.logs[i])
      ensures |vs[i].ms| <= UINT32_MAX && NeverBack(vs[i].ms) && vs[i].header.id == i + 1
    {
      assert w.tracks[i].V() == vs[i] && w.tracks[i].Writable();
    }
  }

  lemma TimedFacts(vs: seq<TrackV>, payload: seq<byte>, logs: seq<Log>)
    requires AllPlaced(vs, payload, logs) && AllOrdered(vs) && Sound(vs) && Counted(vs)
    ensures AllPlaced(Timed(vs), payload, logs) && AllOrdered(Timed(vs)) && Sound(Timed(vs)) && Counted(Timed(vs))
    ensures forall i :: 0 <= i < |vs| ==> Timed(vs)[i].ms == vs[i].ms && Timed(vs)[i].header == vs[i].header
  {
    hide Placed, NeverBack, FtypBox, OpenMdat, DurationOf, NonEmpty, CtsFit, IsStsd;
  }

  // ---- Whole runs ----

  /** A call of mov_writer_add_* or of mov_writer_write. */
  datatype Call =
    | Add(header: Header)
    | Udta(udta: seq<byte>)
    | Put(track: int, data: seq<byte>, pts: int, dts: int, flags: int)

  /** The tracks that the calls add. */
  function TracksAdded(calls: seq<Call>): (hs: seq<Header>) {
    if calls == [] then [] else
      var front, c := calls[..|calls| - 1], calls[|calls| - 1];
      if c.Add? then TracksAdded(front) + [c.header] else TracksAdded(front)
  }

  /** The user data that the calls leave. */
  function UdtaGiven(calls: seq<Call>): seq<byte> {
    if calls == [] then [] else
      var front, c := calls[..|calls| - 1], calls[|calls| - 1];
      if c.Udta? then c.udta else UdtaGiven(front)
  }

  /** The last call writes a sample to a track that is there. */
  predicate Known(front: seq<Call>, c: Call) {
    c.Put? && 0 <= c.track < |TracksAdded(front)|
  }

  /** The bytes that the calls have written. */
  function Taken(calls: seq<Call>): nat {
    if calls == [] then 0 else
      var front, c := calls[..|calls| - 1], calls[|calls| - 1];
      Taken(front) + if Known(front, c) then |c.data| else 0
  }

  function MediaOf(c: Call, offset: nat): Media
    requires c.Put?
  {
    Media(c.flags, c.pts, c.dts, offset, U32(|c.data|), 1)
  }

  /** The samples that the calls make of track `i`, one behind the other in the file. */
  function Recorded(calls: seq<Call>, i: nat): seq<Media> {
    if calls == [] then [] else
      var front, c := calls[..|calls| - 1], calls[|calls| - 1];
      if Known(front, c) && c.track == i then Recorded(front, i) + [MediaOf(c, PAYLOAD_START + Taken(front))]
      else Recorded(front, i)
  }

  /** Their payloads. */
  function Payloads(calls: seq<Call>, i: nat): Log {
    if calls == [] then [] else
      var front, c := calls[..|calls| - 1], calls[|calls| - 1];
      if Known(front, c) && c.track == i then Payloads(front, i) + [c.data] else Payloads(front, i)
  }

  function AllPayloads(calls: seq<Call>): (logs: seq<Log>)
    ensures |logs| == |TracksAdded(calls)|
  {
    seq(|TracksAdded(calls)|, i requires 0 <= i < |TracksAdded(calls)| => Payloads(calls, i))
  }

  /** What the caller of a whole run has to see to. */
  ghost predicate GoodRun(calls: seq<Call>) {
    && |calls| < UINT32_MAX && (forall k :: 0 <= k < |calls| && calls[k].Put? ==> |calls[k].data| < UINT32_MAX)
    && forall i :: 0 <= i < |TracksAdded(calls)| ==>
         var ms := Recorded(calls, i);
         |ms| <= UINT32_MAX && NeverBack(ms) && NonEmpty(ms) && CtsFit(ms) && IsStsd(TracksAdded(calls)[i].stsd)
  }

  /** The writer after some calls. */
  ghost predicate After(w: Writer, calls: seq<Call>)
    reads w, w.tracks
  {
    && |w.tracks| == |TracksAdded(calls)| < UINT32_MAX && w.nextId == |w.tracks| + 1
    && |w.logs| == |w.tracks| && |w.payload| == Taken(calls) && w.udta == UdtaGiven(calls)
    && forall i :: 0 <= i < |w.tracks| ==>
         && w.tracks[i].header == TracksAdded(calls)[i].(id := i + 1)
         && Medias(w.tracks[i].samples) == Recorded(calls, i)
         && w.logs[i] == Payloads(calls, i)
  }

  lemma CallsSnoc(front: seq<Call>, c: Call)
    ensures var known, all := Known(front, c), front + [c];
      && TracksAdded(all) == (if c.Add? then TracksAdded(front) + [c.header] else TracksAdded(front))
      && UdtaGiven(all) == (if c.Udta? then c.udta else UdtaGiven(front))
      && Taken(all) == Taken(front) + (if known then |c.data| else 0)
      && (forall i: nat :: Recorded(all, i) ==
            if known && c.track == i then Recorded(front, i) + [MediaOf(c, PAYLOAD_START + Taken(front))]
            else Recorded(front, i))
      && (forall i: nat :: Payloads(all, i) == if known && c.track == i then Payloads(front, i) + [c.data]
                                               else Payloads(front, i))
  {
    hide MediaOf;
    assert (front + [c])[..|front|] == front;
  }

  lemma {:induction false} NothingPut(calls: seq<Call>, i: nat)
    requires |TracksAdded(calls)| <= i
    ensures Recorded(calls, i) == [] && Payloads(calls, i) == []
  {
    hide MediaOf;
    if calls != [] {
      NothingPut(calls[..|calls| - 1], i);
    }
  }

  lemma {:induction false} FewTracks(calls: seq<Call>)
    ensures |TracksAdded(calls)| <= |calls|
  {
    if calls != [] {
      FewTracks(calls[..|calls| - 1]);
    }
  }

  method DoAdd(w: Writer, ghost front: seq<Call>, header: Header)
    requires w.Valid() && After(w, front) && w.nextId < UINT32_MAX
    modifies w`tracks, w`logs, w`nextId
    ensures w.Valid() && After(w, front + [Add(header)])
    ensures |w.tracks| == |old(w.tracks)| + 1 && fresh(w.tracks[|old(w.tracks)|])
    ensures w.tracks[..|old(w.tracks)|] == old(w.tracks)
  {
    hide Writer.Valid, Recorded, Payloads, Taken, Medias;
    CallsSnoc(front, Add(header));
    NothingPut(front, |w.tracks|);
    NoMedias();
    ghost var ts := w.tracks;
    var index := w.AddTrack(header);
    forall i | 0 <= i < |w.tracks|
      ensures i < |ts| ==> w.tracks[i] == ts[i]
    {
      assert i < |ts| ==> w.tracks[..index][i] == ts[i];
    }
  }

  lemma NoMedias()
    ensures Medias([]) == []
  {
  }

  method DoUdta(w: Writer, ghost front: seq<Call>, data: seq<byte>)
    requires w.Valid() && After(w, front)
    modifies w`udta
    ensures w.Valid() && After(w, front + [Udta(data)])
  {
    hide Writer.Valid, Recorded, Payloads, Taken, Medias;
    CallsSnoc(front, Udta(data));
    w.AddUdta(data);
  }

  lemma MediaIs(c: Call, offset: nat)
    requires c.Put? && |c.data| < UINT32_MAX
    ensures MediaOf(c, offset) == Media(c.flags, c.pts, c.dts, offset, |c.data|, 1)
  {
  }

  method DoPut(w: Writer, ghost front: seq<Call>, c: Call)
    requires w.Valid() && c.Put? && After(w, front) && |c.data| < UINT32_MAX
    modifies w`mdatSize, w`payload, w`logs, w.tracks, w.io`data, w.io`pos, w.io`out
    ensures w.Valid() && After(w, front + [c]) && w.tracks == old(w.tracks)
  {
    hide Writer.Valid, Recorded, Payloads, Taken, Medias, MediaOf, U32, TracksAdded, UdtaGiven;
    CallsSnoc(front, c);
    MediaIs(c, PAYLOAD_START + Taken(front));
    var r := w.Write(c.track, c.data, c.pts, c.dts, c.flags);
    forall i | 0 <= i < |w.tracks|
      ensures Medias(w.tracks[i].samples) == Recorded(front + [c], i)
    {
      if i != c.track {
        assert w.tracks[i].V().ms == old(w.tracks[i].V()).ms;
      }
    }
  }

  method DoAll(w: Writer, calls: seq<Call>)
    requires w.Valid() && w.tracks == [] && w.payload == [] && w.udta == [] && |calls| < UINT32_MAX
    requires forall k :: 0 <= k < |calls| && calls[k].Put? ==> |calls[k].data| < UINT32_MAX
    modifies w, w.io
    ensures w.Valid() && After(w, calls) && forall i :: 0 <= i < |w.tracks| ==> fresh(w.tracks[i])
  {
    hide Writer.Valid, After;
    assert calls[..0] == [];
    NothingYet(w);
    for k := 0 to |calls|
      invariant w.Valid() && After(w, calls[..k])
      invariant forall i :: 0 <= i < |w.tracks| ==> fresh(w.tracks[i])
    {
      assert calls[..k + 1] == calls[..k] + [calls[k]];
      match calls[k]
      case Add(header) =>
        FewTracks(calls[..k]);
        NextId(w, calls[..k]);
        ghost var ts := w.tracks;
        DoAdd(w, calls[..k], header);
        assert forall i :: 0 <= i < |ts| ==> w.tracks[i] == w.tracks[..|ts|][i] == ts[i];
      case Udta(data) => DoUdta(w, calls[..k], data);
      case Put(_, _, _, _, _) => DoPut(w, calls[..k], calls[k]);
    }
    assert calls[..|calls|] == calls;
  }

  lemma NothingYet(w: Writer)
    requires w.Valid() && w.tracks == [] && w.payload == [] && w.udta == []
    ensures After(w, [])
  {
  }

  lemma NextId(w: Writer, calls: seq<Call>)
    requires After(w, calls) && |TracksAdded(calls)| <= |calls| < UINT32_MAX - 1
    ensures w.nextId < UINT32_MAX
  {
  }

  lemma ViewsOf(w: Writer, calls: seq<Call>) returns (vs: seq<TrackV>)
    requires After(w, calls) && GoodRun(calls)
    ensures Views(w.tracks, vs) && AllWritable(w.tracks) && Sound(vs) && |vs| == |TracksAdded(calls)| < UINT32_MAX
    ensures forall i :: 0 <= i < |vs| ==> vs[i].ms == Recorded(calls, i) && vs[i].header == TracksAdded(calls)[i].(id := i + 1)
    ensures w.logs == AllPayloads(calls) && w.udta == UdtaGiven(calls)
  {
    hide Recorded, Payloads, Taken, UdtaGiven, NeverBack, NonEmpty, CtsFit, IsStsd, Medias;
    vs := seq(|w.tracks|, i requires 0 <= i < |w.tracks| reads w, w.tracks => w.tracks[i].V());
    forall i | 0 <= i < |w.tracks|
      ensures w.tracks[i].Writable()
    {
      assert w.tracks[i].V().ms == Medias(w.tracks[i].samples);
      MediasLength(w.tracks[i].samples);
    }
    assert w.logs == AllPayloads(calls);
  }

  lemma MediasLength(ss: seq<Sample>)
    ensures |Medias(ss)| == |ss|
  {
  }

  /** A whole run: tracks are added, user data given and samples written in any order, the file is closed
      and read. The reader finds every track that got samples, and the bytes of every sample. */
  method WriteAndRead(io: Io, created: uint32, faststart: bool, calls: seq<Call>)
    returns (r: int, reader: MovReader.Reader, ghost m: MovieV, ghost ts: seq<TrackV>)
    requires io.data == [] && io.pos == 0 && io.error == 0 && GoodRun(calls)
    modifies io
    ensures m.created == created && m.udta == UdtaGiven(calls) && |ts| == |TracksAdded(calls)| < UINT32_MAX
    ensures forall i :: 0 <= i < |ts| ==>
      ts[i].ms == Recorded(calls, i) && ts[i].header == TracksAdded(calls)[i].(id := i + 1)
    ensures WithinLimits(io.data, |MoovBox(m, ts)|, ts) ==>
      r == 0 && MovReader.Views(reader.tracks) == ReadTracks(ts) && BytesFound(io.data, ts, AllPayloads(calls))
  {
    hide Writer.Valid, After, WithinLimits, ReadTracks, BytesFound, MoovBox, Views, AllWritable, Sound,
      Recorded, AllPayloads, UdtaGiven, NeverBack, NonEmpty, CtsFit, IsStsd;
    var w := new Writer(io, created, faststart);
    DoAll(w, calls);
    ghost var vs := ViewsOf(w, calls);
    r, reader, ts := CloseAndRead(w, vs);
    m := w.MovieOf();
  }
}
