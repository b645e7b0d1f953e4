/** The fields of the boxes that the writers print, by the byte positions and the numbers of
    ISO/IEC 14496-12: what a reader that was not written together with them finds. */
module BoxFields {
  import opened Bytes
  import opened Runs
  import opened SampleTables
  import opened Timing
  import opened TrackBoxes
  import opened FragmentBoxes
  import opened IndexBoxes
  import FragmentIntro
  import MovWriter

  lemma {:induction false} WordAt(b: seq<byte>, p: nat, xs: seq<nat>, k: nat)
    requires At(b, p, List32(xs)) && k < |xs|
    ensures p + 4 * k + 4 <= |b| && Get32(b, p + 4 * k) == U32(xs[k])
    decreases |xs|
  {
    hide BE32, Get32;
    var n := |xs| - 1;
    AtConcat(b, p, List32(xs[..n]), BE32(U32(xs[n])));
    if k < n {
      WordAt(b, p, xs[..n], k);
    } else {
      Get32Of(b, p + 4 * n, U32(xs[n]));
    }
  }

  /** The front of a box, and that of a full box. */
  lemma Framed(tag: string, body: seq<byte>)
    requires |tag| == 4
    ensures var b := Box(tag, body);
      Get32(b, 0) == U32(|b|) && b[4..8] == Tag(tag) && b[8..] == body && At(b, 8, body)
  {
    hide BE32, Get32, Tag;
    var b := Box(tag, body);
    Get32Of(b, 0, U32(|body| + 8));
    assert b == BE32(U32(|body| + 8)) + (Tag(tag) + body);
  }

  lemma FullFramed(tag: string, v: byte, f: uint24, body: seq<byte>)
    requires |tag| == 4
    ensures var b := FullBox(tag, v, f, body);
      Get32(b, 0) == U32(|b|) && b[4..8] == Tag(tag) && b[8] == v && Get24(b, 9) == f && b[12..] == body && At(b, 12, body)
  {
    hide Box, BE24, Get24, Get32, Tag;
    var front := [v] + BE24(f);
    var b := FullBox(tag, v, f, body);
    Framed(tag, front + body);
    AtConcat(b, 8, front, body);
    AtConcat(b, 8, [v], BE24(f));
    Get24Of(b, 9, f);
    assert b[8] == b[8..9][0];
    assert b[12..] == b[8..][4..] == body;
  }

  // ---- Movie, track and media headers ----

  /** Times in thousandths, normal rate and volume, no transformation. */
  lemma MvhdFields(created: uint32, duration: nat, nextId: uint32)
    ensures var b := MvhdBox(created, duration, nextId);
      && b[4..8] == Tag("mvhd") && b[8] == 0 && Get32(b, 12) == created && Get32(b, 16) == created
      && Get32(b, 20) == 1000 && Get32(b, 24) == U32(duration) && Get32(b, 28) == 0x1_0000 && Get32(b, 32) == 0x100_0000
      && Get32(b, 44) == 0x1_0000 && Get32(b, 60) == 0x1_0000 && Get32(b, 76) == 0x4000_0000
      && Get32(b, 104) == nextId
  {
    hide FullBox, List32, Get32, Tag;
    var xs := [created, created, TIMESCALE, duration, 0x1_0000, 0x100_0000, 0, 0, 0x1_0000, 0, 0, 0, 0x1_0000, 0, 0, 0,
               0x4000_0000, 0, 0, 0, 0, 0, 0, nextId];
    var b := MvhdBox(created, duration, nextId);
    FullFramed("mvhd", 0, 0, List32(xs));
    WordAt(b, 12, xs, 0);
    WordAt(b, 12, xs, 1);
    WordAt(b, 12, xs, 2);
    WordAt(b, 12, xs, 3);
    WordAt(b, 12, xs, 4);
    WordAt(b, 12, xs, 5);
    WordAt(b, 12, xs, 8);
    WordAt(b, 12, xs, 12);
    WordAt(b, 12, xs, 16);
    WordAt(b, 12, xs, 23);
  }

  /** Enabled and in the movie; the volume is 1 for audio only. */
  lemma TkhdFields(h: Header, duration: nat)
    ensures var b := TkhdBox(h, duration);
      && b[4..8] == Tag("tkhd") && b[8] == 0 && Get24(b, 9) == 3 && Get32(b, 12) == h.created
      && Get32(b, 20) == h.id && Get32(b, 28) == U32(duration)
      && Get32(b, 44) == (if h.handler == Audio then 0x100_0000 else 0)
      && Get32(b, 48) == 0x1_0000 && Get32(b, 64) == 0x1_0000 && Get32(b, 80) == 0x4000_0000
      && Get32(b, 84) == h.width && Get32(b, 88) == h.height
  {
    hide FullBox, List32, Get24, Get32, Tag;
    var xs := [h.created, h.created, h.id, 0, duration, 0, 0, 0, if h.handler == Audio then 0x100_0000 else 0,
               0x1_0000, 0, 0, 0, 0x1_0000, 0, 0, 0, 0x4000_0000, h.width, h.height];
    var b := TkhdBox(h, duration);
    FullFramed("tkhd", 0, 3, List32(xs));
    WordAt(b, 12, xs, 0);
    WordAt(b, 12, xs, 2);
    WordAt(b, 12, xs, 4);
    WordAt(b, 12, xs, 8);
    WordAt(b, 12, xs, 9);
    WordAt(b, 12, xs, 13);
    WordAt(b, 12, xs, 17);
    WordAt(b, 12, xs, 18);
    WordAt(b, 12, xs, 19);
  }

  lemma MdhdFields(h: Header, duration: nat)
    ensures var b := MdhdBox(h, duration);
      && b[4..8] == Tag("mdhd") && b[8] == 0 && Get32(b, 12) == h.created
      && Get32(b, 20) == 1000 && Get32(b, 24) == U32(duration) && Get32(b, 28) == 0x55C4_0000
  {
    hide FullBox, List32, Get32, Tag;
    var xs := [h.created, h.created, TIMESCALE, duration, 0x55C4_0000];
    var b := MdhdBox(h, duration);
    FullFramed("mdhd", 0, 0, List32(xs));
    WordAt(b, 12, xs, 0);
    WordAt(b, 12, xs, 2);
    WordAt(b, 12, xs, 3);
    WordAt(b, 12, xs, 4);
  }

  /** The handler and the media header that goes with it. */
  lemma HandlerFields(handler: Handler)
    ensures var b := HdlrBox(handler);
      && b[4..8] == Tag("hdlr") && b[8] == 0 && |b| > 33 && b[|b| - 1] == 0
      && b[16..20] == Tag(match handler case Video => "vide" case Audio => "soun" case Subtitle => "sbtl")
    ensures MediaHeaderBox(handler)[4..8] == Tag(match handler case Video => "vmhd" case Audio => "smhd" case Subtitle => "nmhd")
  {
    hide FullBox, Tag, List32, Text;
    var t, rest := Tag(HandlerType(handler)), List32([0, 0, 0]) + Text(HandlerName(handler)) + [0];
    var body := List32([0]) + Tag(HandlerType(handler)) + List32([0, 0, 0]) + Text(HandlerName(handler)) + [0];
    assert body == List32([0]) + (t + rest);
    FullFramed("hdlr", 0, 0, body);
    var b := HdlrBox(handler);
    assert b[16..20] == b[12..][4..8] == t;
    assert b[|b| - 1] == b[12..][|body| - 1];
    FullFramed("vmhd", 0, 1, List32([0, 0]));
    FullFramed("smhd", 0, 0, List32([0]));
    FullFramed("nmhd", 0, 0, []);
  }

  // ---- Brands ----

  /** isom, version 0x200, compatible with isom, iso2, avc1 and mp41. */
  lemma FtypFields()
    ensures var b := MovWriter.FtypBox();
      && b[4..8] == [0x66, 0x74, 0x79, 0x70] && b[8..12] == [0x69, 0x73, 0x6F, 0x6D] && Get32(b, 12) == 0x200
      && b[16..20] == [0x69, 0x73, 0x6F, 0x6D] && b[20..24] == [0x69, 0x73, 0x6F, 0x32]
      && b[24..28] == [0x61, 0x76, 0x63, 0x31] && b[28..32] == [0x6D, 0x70, 0x34, 0x31]
  {
    hide Box, BE32, Get32;
    var b := MovWriter.FtypBox();
    var body := Tag("isom") + BE32(0x200) + Tag("isom") + Tag("iso2") + Tag("avc1") + Tag("mp41");
    Framed("ftyp", body);
    Slices(b, body, Tag("isom"), BE32(0x200), Tag("isom"), Tag("iso2"), Tag("avc1"), Tag("mp41"));
    Get32Of(b, 12, 0x200);
  }

  lemma Slices(b: seq<byte>, body: seq<byte>, s0: seq<byte>, s1: seq<byte>, s2: seq<byte>, s3: seq<byte>, s4: seq<byte>, s5: seq<byte>)
    requires |b| >= 32 && b[8..] == body && body[..24] == s0 + s1 + s2 + s3 + s4 + s5
    requires |s0| == |s1| == |s2| == |s3| == |s4| == |s5| == 4
    ensures b[8..12] == s0 && b[12..16] == s1 && b[16..20] == s2 && b[20..24] == s3 && b[24..28] == s4 && b[28..32] == s5
  {
    assert b[8..32] == s0 + s1 + s2 + s3 + s4 + s5;
    assert b[8..12] == b[8..32][..4] && b[12..16] == b[8..32][4..8] && b[16..20] == b[8..32][8..12];
    assert b[20..24] == b[8..32][12..16] && b[24..28] == b[8..32][16..20] && b[28..32] == b[8..32][20..24];
  }

  /** isom, version 1, compatible with isom, mp42, avc1, dash and iso5. */
  lemma FragmentedFtypFields()
    ensures var b := FragmentIntro.FtypBox();
      && b[4..8] == [0x66, 0x74, 0x79, 0x70] && b[8..12] == [0x69, 0x73, 0x6F, 0x6D] && Get32(b, 12) == 1
      && b[16..20] == [0x69, 0x73, 0x6F, 0x6D] && b[20..24] == [0x6D, 0x70, 0x34, 0x32]
      && b[24..28] == [0x61, 0x76, 0x63, 0x31] && b[28..32] == [0x64, 0x61, 0x73, 0x68]
      && b[32..] == [0x69, 0x73, 0x6F, 0x35]
  {
    hide Box, BE32, Get32;
    var b, body := FragmentIntro.FtypBox(), FragmentIntro.Brands();
    Framed("ftyp", body);
    var six := Tag("isom") + BE32(1) + Tag("isom") + Tag("mp42") + Tag("avc1") + Tag("dash");
    assert body == six + Tag("iso5");
    Slices(b, body, Tag("isom"), BE32(1), Tag("isom"), Tag("mp42"), Tag("avc1"), Tag("dash"));
    assert b[32..] == b[8..][24..] == Tag("iso5");
    Get32Of(b, 12, 1);
  }

  // ---- Media data ----

  /** A 32-bit size behind the reserve as long as it fits, otherwise a 64-bit size in the place of both;
      while the file is open the size is 0, to the end of the file. */
  lemma MdatFields(payload: seq<byte>)
    requires |payload| + 16 < 0x1_0000_0000_0000_0000
    ensures var b := MovWriter.MdatHead(payload);
      if |payload| + 8 <= 0xFFFF_FFFF
      then Get32(b, 0) == 8 && b[4..8] == Tag("free") && Get32(b, 8) == |payload| + 8 && b[12..] == Tag("mdat")
      else Get32(b, 0) == 1 && b[4..8] == Tag("mdat") && Get64(b, 8) == |payload| + 16
    ensures var b := MovWriter.OpenMdat();
      Get32(b, 0) == 8 && b[4..8] == Tag("free") && Get32(b, 8) == 0 && b[12..] == Tag("mdat")
  {
    hide Tag, BE32, BE64, Get32, Get64;
    var small, n := MovWriter.MdatHead(payload), |payload|;
    Get32Of(MovWriter.OpenMdat(), 0, 8);
    Get32Of(MovWriter.OpenMdat(), 8, 0);
    if n + 8 <= 0xFFFF_FFFF {
      Get32Of(small, 0, 8);
      Get32Of(small, 8, n + 8);
    } else {
      Get32Of(small, 0, 1);
      Get64Of(small, 8, U64(n + 16));
    }
  }

  // ---- Tables ----

  /** 64-bit chunk offsets exactly when the last sample's place does not fit 32 bits. */
  lemma StcoKind(ms: seq<Media>, shift: nat)
    ensures var b := StcoBox(ms, shift);
      if ms != [] && ms[|ms| - 1].offset + shift > 0xFFFF_FFFF then b[4..8] == Tag("co64") else b[4..8] == Tag("stco")
  {
    hide FullBox, Tag, BE32, List32, List64;
    var xs := ChunkOffsets(ms, shift);
    FullFramed("co64", 0, 0, BE32(U32(|xs|)) + List64(xs));
    FullFramed("stco", 0, 0, BE32(U32(|xs|)) + List32(xs));
  }

  lemma CttsVersion(ms: seq<Media>, v1: bool)
    ensures CttsBox(ms, v1)[8] == (if v1 then 1 else 0) && CttsBox(ms, v1)[4..8] == Tag("ctts")
  {
    hide FullBox, Tag, BE32, RunBytes;
    var rs := Compress(Offsets(ms));
    FullFramed("ctts", if v1 then 1 else 0, 0, BE32(U32(|rs|)) + RunBytes(rs));
  }

  /** Version 1 exactly when a duration does not fit 32 bits; an empty edit first exactly when the first
      sample is presented above time 0. */
  lemma ElstFields(ms: seq<Media>, duration: nat)
    requires ms != []
    ensures var b := ElstBox(ms, duration);
      && b[4..8] == Tag("elst") && b[8] == (if duration > 0xFFFF_FFFF || ms[0].pts > 0xFFFF_FFFF then 1 else 0)
      && |b| >= 16 && Get32(b, 12) == (if ms[0].pts > 0 then 2 else 1)
  {
    hide FullBox, Tag, BE32, Get32, ElstEntry;
    var v := ElstVersion(ms, duration);
    var entry := ElstEntry(v, duration, ElstTime(ms));
    var first := if Delay(ms) > 0 then ElstEntry(v, Delay(ms), -1) else [];
    var n := if Delay(ms) > 0 then 2 else 1;
    var rest := if Delay(ms) > 0 then first + entry else entry;
    var body := if Delay(ms) > 0 then BE32(2) + first + entry else BE32(1) + entry;
    assert body == BE32(n) + rest;
    FullFramed("elst", v, 0, body);
    AtConcat(ElstBox(ms, duration), 12, BE32(n), rest);
    Get32Of(ElstBox(ms, duration), 12, n);
  }

  // ---- Fragments ----

  /** The number of the fragment. */
  lemma MoofNumber(vs: seq<TrackF>, fragment: nat, moof: nat)
    ensures var b := MoofBox(vs, fragment, moof);
      b[4..8] == Tag("moof") && |b| >= 24 && b[12..16] == Tag("mfhd") && Get32(b, 20) == U32(fragment)
  {
    hide Box, Tag, BE32, Get32, Trafs;
    var b, mfhd := MoofBox(vs, fragment, moof), MfhdBox(fragment);
    Framed("moof", mfhd + Trafs(vs, moof));
    FullFramed("mfhd", 0, 0, BE32(U32(fragment)));
    AtConcat(b, 8, mfhd, Trafs(vs, moof));
    assert b[8..24] == mfhd;
    assert b[12..16] == mfhd[4..8];
    assert b[20..24] == mfhd[12..] == BE32(U32(fragment));
    Get32Of(b, 20, U32(fragment));
  }

  /** The fields that are there: description, duration, size and flags, with offsets counted from the moof.
      Sync samples that depend on no other for audio, the opposite for everything else. */
  lemma TfhdFields(v: TrackF)
    requires v.ms != []
    ensures var b := TfhdBox(v);
      && b[4..8] == Tag("tfhd") && b[8] == 0 && Get24(b, 9) == 0x2_003A && Get32(b, 12) == v.id && Get32(b, 16) == 1
      && Get32(b, 20) == Duration(v, 0) && Get32(b, 24) == v.ms[0].bytes
      && Get32(b, 28) == if v.handler == Audio then 0x200_0000 else 0x101_0000
  {
    hide FullBox, Tag, BE32, Get24, Get32, Duration;
    var b := TfhdBox(v);
    var w0, w1, w2, w3, w4 := BE32(v.id), BE32(1), BE32(Duration(v, 0)), BE32(v.ms[0].bytes), BE32(DefaultFlags(v.handler));
    FullFramed("tfhd", 0, TFHD_FLAGS, w0 + w1 + w2 + w3 + w4);
    AtConcat(b, 12, w0 + w1 + w2 + w3, w4);
    AtConcat(b, 12, w0 + w1 + w2, w3);
    AtConcat(b, 12, w0 + w1, w2);
    AtConcat(b, 12, w0, w1);
    Get32Of(b, 12, v.id);
    Get32Of(b, 16, 1);
    Get32Of(b, 20, Duration(v, 0));
    Get32Of(b, 24, v.ms[0].bytes);
    Get32Of(b, 28, DefaultFlags(v.handler));
  }

  /** Version 1 exactly when the time does not fit 31 bits. */
  lemma TfdtVersion(v: TrackF)
    requires v.ms != []
    ensures var b, t := TfdtBox(v), U64(v.ms[0].dts - v.start);
      b[4..8] == Tag("tfdt") && b[8] == if t > 0x7FFF_FFFF then 1 else 0
  {
    hide FullBox, Tag, BE32, BE64;
    var t := BaseDecodeTime(v);
    FullFramed("tfdt", 1, 0, BE64(t));
    if t <= 0x7FFF_FFFF {
      FullFramed("tfdt", 0, 0, BE32(t));
    }
  }

  /** The fields that are there: the data offset always, flags of the first sample when it is a key frame,
      and of the durations, sizes and composition offsets those that were chosen. */
  lemma TrunFields(v: TrackF, from: nat, count: nat, moof: nat)
    requires 0 < count && from + count <= |v.ms|
    ensures var b, c := TrunBox(v, from, count, moof), ChoiceOf(v, from, count);
      && |b| >= 20 && b[4..8] == Tag("trun") && b[8] == 1
      && Get24(b, 9) == 0x1 + (if v.ms[from].flags % 2 == 1 then 0x4 else 0) + (if c.durations then 0x100 else 0)
                        + (if c.sizes then 0x200 else 0) + (if c.cts then 0x800 else 0)
      && Get32(b, 12) == U32(count) && Get32(b, 16) == U32(moof + v.ms[from].offset)
      && (v.ms[from].flags % 2 == 1 ==> |b| >= 24 && Get32(b, 20) == 0x200_0000)
  {
    hide FullBox, Tag, BE32, Get24, Get32, TrunEntries;
    var b, c := TrunBox(v, from, count, moof), ChoiceOf(v, from, count);
    var head, rest := TrunHead(v, from, count, moof), TrunEntries(v, from, count, c);
    var w0, w1 := BE32(U32(count)), BE32(U32(moof + v.ms[from].offset));
    FullFramed("trun", 1, c.Flags(), head + rest);
    AtConcat(b, 12, head, rest);
    var first := if IsKey(v.ms[from]) then BE32(DEPENDS_ON_I_PICTURE) else [];
    AtConcat(b, 12, w0 + w1, first);
    AtConcat(b, 12, w0, w1);
    Get32Of(b, 12, U32(count));
    Get32Of(b, 16, U32(moof + v.ms[from].offset));
    if IsKey(v.ms[from]) {
      Get32Of(b, 20, DEPENDS_ON_I_PICTURE);
    }
  }

  /** The defaults of a track that says nothing else: the first description. */
  lemma TrexFields(id: uint32)
    ensures var b := FragmentIntro.TrexBox(id);
      && b[4..8] == Tag("trex") && Get32(b, 12) == id && Get32(b, 16) == 1
      && Get32(b, 20) == 0 && Get32(b, 24) == 0 && Get32(b, 28) == 0
  {
    hide FullBox, List32, Get32, Tag;
    var xs, b := [id, 1, 0, 0, 0], FragmentIntro.TrexBox(id);
    FullFramed("trex", 0, 0, List32(xs));
    WordAt(b, 12, xs, 0);
    WordAt(b, 12, xs, 1);
    WordAt(b, 12, xs, 2);
    WordAt(b, 12, xs, 3);
    WordAt(b, 12, xs, 4);
  }

  /** The last word of an index is its size: how far back it begins. */
  lemma MfroSize(m: Index)
    ensures var b := MfraBox(m);
      |b| >= 24 && b[4..8] == Tag("mfra") && Get32(b, |b| - 4) == U32(|b|) && b[|b| - 12..|b| - 8] == Tag("mfro")
  {
    hide Box, Tag, BE32, BE24, Get32, Tfras;
    var b, n := MfraBox(m), |Tfras(m)| + 24;
    var mfro := MfroBox(n);
    Framed("mfra", MfraBody(m));
    FullFramed("mfro", 0, 0, BE32(U32(n)));
    AtConcat(b, 8, Tfras(m), mfro);
    var p := 8 + |Tfras(m)|;
    assert b[p..p + 16] == mfro;
    assert b[p + 4..p + 8] == mfro[4..8] && b[p + 12..p + 16] == mfro[12..];
    Get32Of(b, p + 12, U32(n));
  }

  /** Version 1: 64-bit times and offsets, and one byte for each of the three numbers, which are all 1. */
  lemma TfraHead(id: uint32, xs: seq<Mark>)
    ensures var b := TfraBox(id, xs);
      && |b| >= 24 && b[4..8] == Tag("tfra") && b[8] == 1
      && Get32(b, 12) == id && Get32(b, 16) == 0 && Get32(b, 20) == U32(|xs|)
  {
    hide Box, Tag, BE32, BE24, Get32, AllMarks;
    var b := TfraBox(id, xs);
    var w0, w1, w2 := BE32(id), BE32(0), BE32(U32(|xs|));
    FullFramed("tfra", 1, 0, w0 + w1 + w2 + AllMarks(xs));
    AtConcat(b, 12, w0 + w1 + w2, AllMarks(xs));
    AtConcat(b, 12, w0 + w1, w2);
    AtConcat(b, 12, w0, w1);
    Get32Of(b, 12, id);
    Get32Of(b, 16, 0);
    Get32Of(b, 20, U32(|xs|));
  }

  lemma {:induction false} MarkFields(b: seq<byte>, p: nat, xs: seq<Mark>, k: nat)
    requires At(b, p, AllMarks(xs)) && k < |xs|
    ensures var e := p + 19 * k;
      && e + 19 <= |b| && Get64(b, e) == xs[k].time && Get64(b, e + 8) == xs[k].offset
      && b[e + 16..e + 19] == [1, 1, 1]
    decreases |xs|
  {
    hide BE64, Get64;
    var n := |xs| - 1;
    AtConcat(b, p, AllMarks(xs[..n]), MarkBytes(xs[n]));
    if k < n {
      MarkFields(b, p, xs[..n], k);
    } else {
      var e := p + 19 * n;
      var x := xs[n];
      AtConcat(b, e, BE64(x.time) + BE64(x.offset), [1, 1, 1]);
      AtConcat(b, e, BE64(x.time), BE64(x.offset));
      Get64Of(b, e, x.time);
      Get64Of(b, e + 8, x.offset);
    }
  }
}
