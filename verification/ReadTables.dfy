/** Every table box that the writers produce is read back as the table it was made from. */
module ReadTables {
  import opened Bytes
  import opened Runs
  import opened SampleTables
  import opened Timing
  import opened TrackBoxes
  import opened Options
  import opened BoxParser

  /** Go on behind a box that has been parsed. */
  function Next(o: Outcome, d: seq<byte>, p: nat, end: nat, parent: Kind): Outcome {
    match o
    case Read(st) => ParseBoxes(d, p, end, parent, st)
    case Refused => Refused
    case Malformed => Malformed
  }

  lemma CodeOf(d: seq<byte>, p: nat, tag: string)
    requires |tag| == 4 && At(d, p, Tag(tag))
    ensures Get32(d, p) == FourCC(tag)
  {
    var t := d[p..p + 4];
    assert t[0] == d[p] && t[1] == d[p + 1] && t[2] == d[p + 2] && t[3] == d[p + 3];
  }

  lemma TableCodes()
    ensures FourCC("stts") == STTS && FourCC("ctts") == CTTS && FourCC("stsc") == STSC && FourCC("stsz") == STSZ
    ensures FourCC("stco") == STCO && FourCC("co64") == CO64 && FourCC("stss") == STSS
  {
  }

  lemma NestCodes()
    ensures FourCC("moov") == MOOV && FourCC("trak") == TRAK && FourCC("edts") == EDTS && FourCC("mdia") == MDIA
    ensures FourCC("minf") == MINF && FourCC("dinf") == DINF && FourCC("stbl") == STBL && FourCC("tkhd") == TKHD
    ensures FourCC("elst") == ELST && FourCC("mvex") == MVEX && FourCC("trex") == TREX
  {
  }

  lemma Unfold(d: seq<byte>, p: nat, end: nat, parent: Kind, st: Reading, size: nat, n: nat)
    requires p + 8 < end && p + 8 <= |d| && n <= size
    requires BoxExtent(d, p, end).Some? && BoxExtent(d, p, end).value.0 == size && BoxExtent(d, p, end).value.1 == n
    ensures ParseBoxes(d, p, end, parent, st)
         == Next(ParseBox(d, p + n, p + size, Get32(d, p + 4), parent, st), d, p + size, end, parent)
  {
    hide ParseBox, Get32, BoxExtent;
  }

  lemma BoxHeader(d: seq<byte>, p: nat, tag: string, body: seq<byte>)
    requires |tag| == 4 && At(d, p, Box(tag, body)) && |body| + 8 <= UINT32_MAX
    ensures p + 8 + |body| <= |d| && At(d, p + 8, body)
    ensures Get32(d, p) == |body| + 8 && Get32(d, p + 4) == FourCC(tag)
  {
    hide BE32, Get32, Tag, FourCC;
    AtConcat(d, p, BE32(U32(|body| + 8)) + Tag(tag), body);
    AtConcat(d, p, BE32(U32(|body| + 8)), Tag(tag));
    Get32Of(d, p, |body| + 8);
    CodeOf(d, p + 4, tag);
  }

  lemma ShortBox(d: seq<byte>, p: nat, end: nat, size: nat)
    requires p + 8 <= |d| && Get32(d, p) == size >= 8 && p + size <= end
    ensures BoxExtent(d, p, end) == Some((size, 8))
  {
    hide Get32, Get64;
  }

  /** A box is recognised by its size and type, wherever it stands. */
  lemma BoxStep(d: seq<byte>, p: nat, end: nat, parent: Kind, st: Reading, tag: string, body: seq<byte>)
    requires |tag| == 4 && At(d, p, Box(tag, body))
    requires p + 8 < end && |body| + 8 <= UINT32_MAX && p + 8 + |body| <= end
    ensures ParseBoxes(d, p, end, parent, st)
         == Next(ParseBox(d, p + 8, p + 8 + |body|, FourCC(tag), parent, st), d, p + 8 + |body|, end, parent)
    ensures At(d, p + 8, body)
  {
    hide ParseBox, ParseBoxes, Box, At, Get32, FourCC, BoxExtent, Next;
    BoxHeader(d, p, tag, body);
    ShortBox(d, p, end, |body| + 8);
    Unfold(d, p, end, parent, st, |body| + 8, 8);
  }

  /** Boxes that are neither containers nor tables are skipped. */
  predicate Skipped(code: uint32, parent: Kind) {
    && Container(code, parent) == None
    && parent != Root && code != TKHD && code != ELST
    && code != TREX && code != TFHD && code != TFDT && code != TRUN && code != TFRA
    && code != STTS && code != CTTS && code != STSC && code != STSZ && code != STCO && code != CO64 && code != STSS
  }

  lemma SkipStep(d: seq<byte>, p: nat, end: nat, parent: Kind, st: Reading, tag: string, body: seq<byte>)
    requires |tag| == 4 && At(d, p, Box(tag, body)) && Skipped(FourCC(tag), parent)
    requires 0 < |body| && |body| + 8 <= UINT32_MAX && p + 8 + |body| <= end
    ensures ParseBoxes(d, p, end, parent, st) == ParseBoxes(d, p + |Box(tag, body)|, end, parent, st)
  {
    hide ParseBoxes, Box, FourCC, At, Container;
    BoxStep(d, p, end, parent, st, tag, body);
  }

  /** A table box in stbl goes to its parser. */
  lemma TableStep(d: seq<byte>, p: nat, end: nat, st: Reading, tag: string, body: seq<byte>)
    requires |tag| == 4 && At(d, p, Box(tag, body))
    requires 0 < |body| && |body| + 8 <= UINT32_MAX && p + 8 + |body| <= end
    requires Container(FourCC(tag), Stbl) == None && FourCC(tag) != TKHD && FourCC(tag) != ELST
    requires FourCC(tag) != TREX && FourCC(tag) != TFHD && FourCC(tag) != TFDT && FourCC(tag) != TRUN && FourCC(tag) != TFRA
    ensures ParseBoxes(d, p, end, Stbl, st)
         == Next(ParseTable(d, p + 8, p + 8 + |body|, FourCC(tag), st), d, p + 8 + |body|, end, Stbl)
    ensures At(d, p + 8, body)
  {
    hide ParseBoxes, Box, FourCC, At, Container, ParseTable;
    BoxStep(d, p, end, Stbl, st, tag, body);
  }

  /** The front of a full box whose body starts with a 32-bit entry count. */
  lemma Counted(d: seq<byte>, p: nat, v: byte, f: uint24, n: nat, table: seq<byte>, entry: nat)
    requires At(d, p, [v] + BE24(f) + (BE32(U32(n)) + table)) && n <= UINT32_MAX && |table| == entry * n
    ensures At(d, p + 8, table) && Get32(d, p + 4) == n && d[p] == v
    ensures ParseCounted(d, p, p + 8 + |table|, entry) == Some(n)
  {
    hide BE24, BE32, Get32;
    AtConcat(d, p, [v] + BE24(f), BE32(U32(n)) + table);
    AtConcat(d, p, [v], BE24(f));
    AtConcat(d, p + 4, BE32(U32(n)), table);
    Get32Of(d, p + 4, n);
    assert d[p] == d[p..p + 1][0];
  }

  lemma RunsStep(d: seq<byte>, p: nat, end: nat, st: Reading, tag: string, v: byte, rs: seq<Run>)
    requires tag == "stts" || tag == "ctts"
    requires At(d, p, FullBox(tag, v, 0, BE32(U32(|rs|)) + RunBytes(rs)))
    requires 16 + 8 * |rs| <= UINT32_MAX && p + 16 + 8 * |rs| <= end && st.HasTrack()
    requires forall j :: 0 <= j < |rs| ==> rs[j].count <= UINT32_MAX
    ensures ParseBoxes(d, p, end, Stbl, st)
         == ParseBoxes(d, p + 16 + 8 * |rs|, end, Stbl,
                       st.With(if tag == "stts" then st.Track().(stts := rs) else st.Track().(ctts := rs)))
  {
    hide ParseBoxes, FourCC, ParseCounted, Box, RunBytes, BE24, BE32, Get32, ParseRuns, At;
    var table := RunBytes(rs);
    TableCodes();
    TableStep(d, p, end, st, tag, [v] + BE24(0) + (BE32(U32(|rs|)) + table));
    Counted(d, p + 8, v, 0, |rs|, table, 8);
    ParseRunBytes(d, p + 16, rs);
  }

  lemma StssStep(d: seq<byte>, p: nat, end: nat, st: Reading, ms: seq<Media>)
    requires At(d, p, StssBox(ms)) && |ms| <= UINT32_MAX
    requires |StssBox(ms)| <= UINT32_MAX && p + |StssBox(ms)| <= end && st.HasTrack()
    ensures ParseBoxes(d, p, end, Stbl, st)
         == ParseBoxes(d, p + |StssBox(ms)|, end, Stbl, st.With(st.Track().(stss := KeyNumbers(ms))))
  {
    hide ParseBoxes, FourCC, ParseCounted, Box, List32, BE24, BE32, Get32, Parse32, At, KeyNumbers;
    var ks := KeyNumbers(ms);
    TableCodes();
    TableStep(d, p, end, st, "stss", [0] + BE24(0) + (BE32(U32(|ks|)) + List32(ks)));
    Counted(d, p + 8, 0, 0, |ks|, List32(ks), 4);
    KeyNumbersBounded(ms);
    Parse32Of(d, p + 16, ks);
  }

  lemma {:induction false} KeyNumbersBounded(ms: seq<Media>)
    ensures forall j :: 0 <= j < |KeyNumbers(ms)| ==> 1 <= KeyNumbers(ms)[j] <= |ms|
  {
    if ms != [] {
      KeyNumbersBounded(ms[..|ms| - 1]);
    }
  }

  /** The key frame table names exactly the key frames. */
  lemma {:induction false} KeyNumbersAre(ms: seq<Media>, i: nat)
    requires i < |ms|
    ensures i + 1 in KeyNumbers(ms) <==> IsKey(ms[i])
  {
    var n := |ms| - 1;
    KeyNumbersBounded(ms[..n]);
    if i < n {
      KeyNumbersAre(ms[..n], i);
    }
  }

  lemma {:induction false} ParseStscBytes(d: seq<byte>, p: nat, es: seq<Stsc>)
    requires At(d, p, StscBytes(es))
    requires forall j :: 0 <= j < |es| ==> es[j].first <= UINT32_MAX && es[j].count <= UINT32_MAX
    ensures ParseStsc(d, p, |es|) == es
  {
    hide BE32, Get32, StscEntry;
    if es != [] {
      var n := |es| - 1;
      AtConcat(d, p, StscBytes(es[..n]), StscEntry(es[n]));
      ParseStscBytes(d, p, es[..n]);
      ParseStscEntry(d, p + 12 * n, es[n]);
      assert ParseStsc(d, p, |es|) == ParseStsc(d, p, n) + [es[n]];
    }
  }

  lemma ParseStscEntry(d: seq<byte>, p: nat, e: Stsc)
    requires At(d, p, StscEntry(e)) && e.first <= UINT32_MAX && e.count <= UINT32_MAX
    ensures Stsc(Get32(d, p), Get32(d, p + 4), Get32(d, p + 8)) == e
  {
    hide BE32, Get32;
    AtConcat(d, p, BE32(U32(e.first)) + BE32(U32(e.count)), BE32(e.sdi));
    AtConcat(d, p, BE32(U32(e.first)), BE32(U32(e.count)));
    Get32Of(d, p, e.first);
    Get32Of(d, p + 4, e.count);
    Get32Of(d, p + 8, e.sdi);
  }

  lemma {:induction false} StscBounded(cs: seq<Chunk>, most: nat)
    requires forall j :: 0 <= j < |cs| ==> cs[j].count <= most
    ensures forall j :: 0 <= j < |StscOf(cs)| ==> StscOf(cs)[j].first <= |cs| && StscOf(cs)[j].count <= most
    ensures |StscOf(cs)| <= |cs|
  {
    if cs != [] {
      StscBounded(cs[..|cs| - 1], most);
    }
  }

  lemma StscStep(d: seq<byte>, p: nat, end: nat, st: Reading, ms: seq<Media>)
    requires At(d, p, StscBox(ms)) && |ms| <= UINT32_MAX
    requires |StscBox(ms)| <= UINT32_MAX && p + |StscBox(ms)| <= end && st.HasTrack()
    ensures ParseBoxes(d, p, end, Stbl, st)
         == ParseBoxes(d, p + |StscBox(ms)|, end, Stbl, st.With(st.Track().(stsc := StscOf(Chunks(ms)))))
  {
    hide ParseBoxes, FourCC, ParseCounted, Box, StscBytes, BE24, BE32, Get32, ParseStsc, At, StscOf, Chunks;
    var es := StscOf(Chunks(ms));
    TableCodes();
    TableStep(d, p, end, st, "stsc", [0] + BE24(0) + (BE32(U32(|es|)) + StscBytes(es)));
    ChunksMaximal(ms);
    StscBounded(Chunks(ms), |ms|);
    Counted(d, p + 8, 0, 0, |es|, StscBytes(es), 12);
    ParseStscBytes(d, p + 16, es);
  }

  /** The size table comes back unless every sample is empty: then its zero is taken for "a table
      follows". */
  lemma StszRoundTrip(d: seq<byte>, p: nat, xs: seq<uint32>)
    requires At(d, p, [0] + BE24(0) + StszBody(xs)) && |xs| <= UINT32_MAX
    ensures ParseStsz(d, p, p + 4 + |StszBody(xs)|) == Some(xs)
        <==> !(xs != [] && forall i :: 0 <= i < |xs| ==> xs[i] == 0)
  {
    hide BE24, BE32, Get32, List32, At;
    AtConcat(d, p, [0] + BE24(0), StszBody(xs));
    var size := if AllSame(xs) && xs != [] then xs[0] else 0;
    var rest := if AllSame(xs) then [] else List32(xs);
    assert StszBody(xs) == BE32(size) + BE32(U32(|xs|)) + rest;
    AtConcat(d, p + 4, BE32(size) + BE32(U32(|xs|)), rest);
    AtConcat(d, p + 4, BE32(size), BE32(U32(|xs|)));
    Get32Of(d, p + 4, size);
    Get32Of(d, p + 8, |xs|);
    AtEnd(d, p + 12, rest);
    var parsed := ParseStsz(d, p, p + 4 + |StszBody(xs)|);
    if AllSame(xs) {
      if xs != [] {
        AllSameAs(xs);
      }
      if size != 0 {
        assert parsed.Some? && parsed.value == xs;
      } else if xs == [] {
        assert parsed.Some? && parsed.value == xs;
      } else {
        assert parsed == None;
      }
    } else {
      Parse32Of(d, p + 12, xs);
      assert Parse32(d, p + 12, |xs|) == xs;
      NotAllZero(xs);
    }
  }

  /** Two empty samples: their table is not read back. */
  lemma ZerosLost(d: seq<byte>)
    requires d == [0] + BE24(0) + StszBody([0, 0])
    ensures ParseStsz(d, 0, |d|) != Some([0, 0])
  {
    hide BE24, StszBody, ParseStsz;
    StszRoundTrip(d, 0, [0, 0]);
  }

  lemma AtEnd(d: seq<byte>, p: nat, b: seq<byte>)
    requires At(d, p, b)
    ensures p + |b| <= |d|
  {
  }

  lemma {:induction false} SameAsFirst(xs: seq<uint32>, i: nat)
    requires AllSame(xs) && i < |xs|
    ensures xs[i] == xs[0]
  {
    if i > 0 {
      SameAsFirst(xs, i - 1);
    }
  }

  lemma AllSameAs(xs: seq<uint32>)
    requires AllSame(xs) && xs != []
    ensures forall i :: 0 <= i < |xs| ==> xs[i] == xs[0]
  {
    forall i | 0 <= i < |xs|
      ensures xs[i] == xs[0]
    {
      SameAsFirst(xs, i);
    }
  }

  lemma NotAllZero(xs: seq<uint32>)
    requires !AllSame(xs)
    ensures !(forall i :: 0 <= i < |xs| ==> xs[i] == 0)
  {
    var i :| 0 < i < |xs| && xs[i] != xs[i - 1];
  }

  ghost predicate NonEmpty(ms: seq<Media>) {
    forall i :: 0 <= i < |ms| ==> ms[i].bytes > 0
  }

  lemma StszStep(d: seq<byte>, p: nat, end: nat, st: Reading, ms: seq<Media>)
    requires At(d, p, StszBox(ms)) && |ms| <= UINT32_MAX && NonEmpty(ms)
    requires |StszBox(ms)| <= UINT32_MAX && p + |StszBox(ms)| <= end && st.HasTrack()
    ensures ParseBoxes(d, p, end, Stbl, st)
         == ParseBoxes(d, p + |StszBox(ms)|, end, Stbl, st.With(st.Track().(sizes := Sizes(ms), samples := [])))
  {
    hide ParseBoxes, FourCC, ParseCounted, Box, BE24, BE32, Get32, At, StszBody, ParseStsz;
    var xs := Sizes(ms);
    TableCodes();
    TableStep(d, p, end, st, "stsz", [0] + BE24(0) + StszBody(xs));
    StszRoundTrip(d, p + 8, xs);
    if xs != [] {
      assert xs[0] == ms[0].bytes > 0;
    }
    assert ParseStsz(d, p + 8, p + 8 + 4 + |StszBody(xs)|) == Some(xs);
  }

  /** Samples follow one another in the file. */
  ghost predicate OffsetsUp(ms: seq<Media>) {
    forall i :: 0 <= i < |ms| - 1 ==> ms[i].offset <= ms[i + 1].offset
  }

  lemma {:induction false} ChunkOffsetsBelow(ms: seq<Media>)
    requires OffsetsUp(ms) && ms != []
    ensures forall j :: 0 <= j < |Chunks(ms)| ==> Chunks(ms)[j].offset <= ms[|ms| - 1].offset
  {
    if |ms| > 1 {
      ChunkOffsetsBelow(ms[..|ms| - 1]);
    } else {
      assert Chunks(ms[..0]) == [];
    }
  }

  lemma NoneChunked()
    ensures Chunks([]) == []
  {
  }

  lemma StcoStep(d: seq<byte>, p: nat, end: nat, st: Reading, ms: seq<Media>, shift: nat)
    requires At(d, p, StcoBox(ms, shift)) && OffsetsUp(ms)
    requires ms != [] ==> ms[|ms| - 1].offset + shift < 0x1_0000_0000_0000_0000
    requires |StcoBox(ms, shift)| <= UINT32_MAX && p + |StcoBox(ms, shift)| <= end && st.HasTrack()
    ensures ParseBoxes(d, p, end, Stbl, st)
         == ParseBoxes(d, p + |StcoBox(ms, shift)|, end, Stbl, st.With(st.Track().(stco := ChunkOffsets(ms, shift))))
  {
    hide ParseBoxes, FourCC, ParseCounted, Box, BE24, BE32, Get32, At, List32, List64, Parse32, Parse64, Chunks;
    var xs := ChunkOffsets(ms, shift);
    if ms != [] {
      ChunkOffsetsBelow(ms);
    } else {
      NoneChunked();
    }
    if NeedsCo64(ms, shift) {
      TableCodes();
      TableStep(d, p, end, st, "co64", [0] + BE24(0) + (BE32(U32(|xs|)) + List64(xs)));
      Counted(d, p + 8, 0, 0, |xs|, List64(xs), 8);
      Parse64Of(d, p + 16, xs);
    } else {
      TableCodes();
      TableStep(d, p, end, st, "stco", [0] + BE24(0) + (BE32(U32(|xs|)) + List32(xs)));
      Counted(d, p + 8, 0, 0, |xs|, List32(xs), 4);
      Parse32Of(d, p + 16, xs);
    }
  }

  // ---- The edit list ----

  function ElstOf(ms: seq<Media>, duration: nat): seq<Elst>
    requires ms != []
  {
    (if Delay(ms) > 0 then [Elst(Delay(ms), -1)] else []) + [Elst(duration, ElstTime(ms))]
  }

  /** What the edit list of a track says: an empty edit up to the first presentation time, if that is above
      zero; then all of the track, from as far into it as the first sample is presented behind its decoding. */
  lemma EditsAre(ms: seq<Media>, duration: nat)
    requires ms != []
    ensures var es, cts := ElstOf(ms, duration), ms[0].pts - ms[0].dts;
      && es != [] && es[|es| - 1] == Elst(duration, if cts > 0 then cts else 0)
      && (if ms[0].pts > 0 then |es| == 2 && es[0] == Elst(ms[0].pts, -1) else |es| == 1)
  {
  }

  lemma ElstEntryOf(d: seq<byte>, p: nat, v: byte, duration: nat, time: int)
    requires At(d, p, ElstEntry(v, duration, time)) && (v == 0 || v == 1)
    requires if v == 1 then duration < 0x1_0000_0000_0000_0000 else duration <= UINT32_MAX
    requires -1 <= time < 0x8000_0000
    ensures ParseElst(d, p, 1, v) == [Elst(duration, time)]
  {
    hide BE16, BE32, BE64, Get32, Get64;
    if v == 1 {
      AtConcat(d, p, BE64(U64(duration)) + BE64(U64(time)), BE16(1) + BE16(0));
      assert ElstEntry(v, duration, time) == BE64(U64(duration)) + BE64(U64(time)) + (BE16(1) + BE16(0));
      AtConcat(d, p, BE64(U64(duration)), BE64(U64(time)));
      Get64Of(d, p, U64(duration));
      Get64Of(d, p + 8, U64(time));
    } else {
      AtConcat(d, p, BE32(U32(duration)) + BE32(U32(time)), BE16(1) + BE16(0));
      assert ElstEntry(v, duration, time) == BE32(U32(duration)) + BE32(U32(time)) + (BE16(1) + BE16(0));
      AtConcat(d, p, BE32(U32(duration)), BE32(U32(time)));
      Get32Of(d, p, U32(duration));
      Get32Of(d, p + 4, U32(time));
    }
  }

  lemma ElstStep(d: seq<byte>, p: nat, end: nat, st: Reading, ms: seq<Media>, duration: nat)
    requires ms != [] && At(d, p, ElstBox(ms, duration)) && Cts(ms[0]) < 0x8000_0000
    requires p + |ElstBox(ms, duration)| <= end && st.HasTrack()
    requires duration < 0x1_0000_0000_0000_0000 && Delay(ms) < 0x1_0000_0000_0000_0000
    ensures ParseBoxes(d, p, end, Edts, st)
         == ParseBoxes(d, p + |ElstBox(ms, duration)|, end, Edts, st.With(st.Track().(elst := ElstOf(ms, duration))))
  {
    hide ParseBoxes, FourCC, ParseCounted, Box, BE24, BE32, Get32, At, ElstEntry, ParseElst;
    var v := ElstVersion(ms, duration);
    var n := if Delay(ms) > 0 then 2 else 1;
    var first := if Delay(ms) > 0 then ElstEntry(v, Delay(ms), -1) else [];
    var entry := ElstEntry(v, duration, ElstTime(ms));
    var size := if v == 1 then 20 else 12;
    assert BE32(n) + (first + entry) == BE32(n) + first + entry;
    assert Delay(ms) <= 0 ==> BE32(n) + first == BE32(n);
    assert ElstBox(ms, duration) == Box("elst", [v] + BE24(0) + (BE32(U32(n)) + (first + entry)));
    NestCodes();
    BoxStep(d, p, end, Edts, st, "elst", [v] + BE24(0) + (BE32(U32(n)) + (first + entry)));
    Counted(d, p + 8, v, 0, n, first + entry, size);
    AtConcat(d, p + 16, first, entry);
    AtEnd(d, p + 16, first + entry);
    ElstEntryOf(d, p + 16 + |first|, v, duration, ElstTime(ms));
    if Delay(ms) > 0 {
      ElstEntryOf(d, p + 16, v, Delay(ms), -1);
    }
    ElstList(d, p + 16, n, v, ElstOf(ms, duration));
  }

  lemma ElstList(d: seq<byte>, p: nat, n: nat, v: byte, es: seq<Elst>)
    requires |es| == n && (n == 1 || n == 2) && p + (if v == 1 then 20 * n else 12 * n) <= |d|
    requires ParseElst(d, p + (if v == 1 then 20 * (n - 1) else 12 * (n - 1)), 1, v) == [es[n - 1]]
    requires n == 2 ==> ParseElst(d, p, 1, v) == [es[0]]
    ensures ParseElst(d, p, n, v) == es
  {
    var all := ParseElst(d, p, n, v);
    var q := p + (if v == 1 then 20 * (n - 1) else 12 * (n - 1));
    assert all[n - 1] == ParseElst(d, q, 1, v)[0];
    if n == 2 {
      assert all[0] == ParseElst(d, p, 1, v)[0];
    }
  }

  /** The base time a reader finds: the first presentation time, if it is above zero. */
  lemma BaseTimeOf(ms: seq<Media>, duration: nat)
    requires ms != []
    ensures BaseTime(ElstOf(ms, duration)) == if ms[0].pts > 0 then ms[0].pts else 0
  {
    assert Delay(ms) == ms[0].pts;
    var es := ElstOf(ms, duration);
    if Delay(ms) > 0 {
      assert es[..1] == [Elst(Delay(ms), -1)] && es[..1][..0] == [];
    } else {
      assert es[..0] == [];
    }
  }
}
