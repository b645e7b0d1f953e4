/** What the sample table of a track says, as functions of its samples: the tables the writer
    derives, their bytes, and the samples a reader derives back from the tables. */
module SampleTables {
  import opened Bytes
  import opened Runs

  const KEYFRAME := 1

  /** What the caller handed over for one sample, in the timescale of the track. */
  datatype Media = Media(flags: int, pts: int, dts: int, offset: nat, bytes: uint32, sdi: uint32)

  /** A sample record: its media and the two scratch fields that every table builder reuses. */
  datatype Sample = Sample(m: Media, firstChunk: uint32, samplesPerChunk: uint32)

  function Medias(ss: seq<Sample>): (ms: seq<Media>)
    ensures |ms| == |ss|
  {
    seq(|ss|, i requires 0 <= i < |ss| => ss[i].m)
  }

  predicate IsKey(m: Media) { m.flags % 2 == KEYFRAME }

  function Sum(xs: seq<uint32>): nat {
    if xs == [] then 0 else Sum(xs[..|xs| - 1]) + xs[|xs| - 1]
  }

  lemma {:induction false} SumConcat(a: seq<uint32>, b: seq<uint32>)
    ensures Sum(a + b) == Sum(a) + Sum(b)
  {
    if b == [] {
      assert a + b == a;
    } else {
      SumConcat(a, b[..|b| - 1]);
      assert (a + b)[..|a + b| - 1] == a + b[..|b| - 1];
    }
  }

  function Sizes(ms: seq<Media>): (xs: seq<uint32>)
    ensures |xs| == |ms|
  {
    seq(|ms|, i requires 0 <= i < |ms| => ms[i].bytes)
  }

  // ---- Lists of 32-bit and 64-bit numbers ----

  function List32(xs: seq<nat>): (b: seq<byte>)
    ensures |b| == 4 * |xs|
  {
    if xs == [] then [] else List32(xs[..|xs| - 1]) + BE32(U32(xs[|xs| - 1]))
  }

  function List64(xs: seq<nat>): (b: seq<byte>)
    ensures |b| == 8 * |xs|
  {
    if xs == [] then [] else List64(xs[..|xs| - 1]) + BE64(U64(xs[|xs| - 1]))
  }

  function Parse32(d: seq<byte>, p: nat, n: nat): (xs: seq<nat>)
    requires p + 4 * n <= |d|
    ensures |xs| == n
  {
    seq(n, i requires 0 <= i < n => Get32(d, p + 4 * i))
  }

  function Parse64(d: seq<byte>, p: nat, n: nat): (xs: seq<nat>)
    requires p + 8 * n <= |d|
    ensures |xs| == n
  {
    seq(n, i requires 0 <= i < n => Get64(d, p + 8 * i))
  }

  lemma {:induction false} Parse32Of(d: seq<byte>, p: nat, xs: seq<nat>)
    requires At(d, p, List32(xs))
    requires forall j :: 0 <= j < |xs| ==> xs[j] <= UINT32_MAX
    ensures Parse32(d, p, |xs|) == xs
  {
    hide BE32, Get32;
    if xs != [] {
      var n := |xs| - 1;
      AtConcat(d, p, List32(xs[..n]), BE32(U32(xs[n])));
      Parse32Of(d, p, xs[..n]);
      Get32Of(d, p + 4 * n, xs[n]);
      assert Parse32(d, p, |xs|) == Parse32(d, p, n) + [xs[n]];
    }
  }

  lemma {:induction false} Parse64Of(d: seq<byte>, p: nat, xs: seq<nat>)
    requires At(d, p, List64(xs))
    requires forall j :: 0 <= j < |xs| ==> xs[j] < 0x1_0000_0000_0000_0000
    ensures Parse64(d, p, |xs|) == xs
  {
    hide BE64, Get64;
    if xs != [] {
      var n := |xs| - 1;
      AtConcat(d, p, List64(xs[..n]), BE64(U64(xs[n])));
      Parse64Of(d, p, xs[..n]);
      Get64Of(d, p + 8 * n, xs[n]);
      assert Parse64(d, p, |xs|) == Parse64(d, p, n) + [xs[n]];
    }
  }

  // ---- Chunks: maximal contiguous runs of one description (section 8.7.5) ----

  datatype Chunk = Chunk(offset: nat, count: nat, sdi: uint32, size: nat)

  predicate Joins(c: Chunk, m: Media) {
    c.offset + c.size == m.offset && c.sdi == m.sdi
  }

  function AddToChunks(cs: seq<Chunk>, m: Media): (r: seq<Chunk>)
    ensures r != []
  {
    if cs != [] && Joins(cs[|cs| - 1], m)
    then cs[..|cs| - 1] + [cs[|cs| - 1].(count := cs[|cs| - 1].count + 1, size := cs[|cs| - 1].size + m.bytes)]
    else cs + [Chunk(m.offset, 1, m.sdi, m.bytes)]
  }

  function Chunks(ms: seq<Media>): (cs: seq<Chunk>)
    ensures ms != [] ==> cs != []
  {
    if ms == [] then [] else AddToChunks(Chunks(ms[..|ms| - 1]), ms[|ms| - 1])
  }

  /** Two neighbouring chunks never could have been one. */
  lemma {:induction false} ChunksMaximal(ms: seq<Media>)
    ensures |Chunks(ms)| <= |ms|
    ensures forall j :: 0 <= j < |Chunks(ms)| ==> 0 < Chunks(ms)[j].count <= |ms|
    ensures forall j :: 0 <= j < |Chunks(ms)| - 1 ==>
      Chunks(ms)[j].offset + Chunks(ms)[j].size != Chunks(ms)[j + 1].offset
      || Chunks(ms)[j].sdi != Chunks(ms)[j + 1].sdi
  {
    if ms != [] {
      ChunksMaximal(ms[..|ms| - 1]);
    }
  }

  function Total(cs: seq<Chunk>): nat {
    if cs == [] then 0 else Total(cs[..|cs| - 1]) + cs[|cs| - 1].count
  }

  // ---- The sample-to-chunk table: chunks that repeat count and description are left out ----

  datatype Stsc = Stsc(first: nat, count: nat, sdi: uint32)

  function AddStsc(es: seq<Stsc>, number: nat, c: Chunk): (r: seq<Stsc>) {
    if es != [] && es[|es| - 1].count == c.count && es[|es| - 1].sdi == c.sdi
    then es else es + [Stsc(number, c.count, c.sdi)]
  }

  function StscOf(cs: seq<Chunk>): (es: seq<Stsc>) {
    if cs == [] then [] else AddStsc(StscOf(cs[..|cs| - 1]), |cs|, cs[|cs| - 1])
  }

  /** Entries start at chunk 1 and go up; the last one starts at an existing chunk. */
  ghost predicate StscOrdered(es: seq<Stsc>, chunks: nat) {
    && (es != [] ==> es[0].first == 1 && es[|es| - 1].first <= chunks)
    && (es == [] ==> chunks == 0)
    && (forall i :: 0 <= i < |es| - 1 ==> es[i].first < es[i + 1].first)
  }

  /** The entry that governs chunk number `j`: the last one that starts at or before it. */
  function Governing(es: seq<Stsc>, j: nat): (i: nat)
    requires es != []
    ensures i < |es|
  {
    if |es| == 1 || es[|es| - 1].first <= j then |es| - 1 else Governing(es[..|es| - 1], j)
  }

  lemma {:induction false} GoverningIs(es: seq<Stsc>, i: nat, j: nat, chunks: nat)
    requires StscOrdered(es, chunks)
    requires i < |es| && es[i].first <= j && (i + 1 < |es| ==> j < es[i + 1].first)
    ensures Governing(es, j) == i
    decreases |es|
  {
    if i < |es| - 1 {
      FirstsIncrease(es, i + 1, |es| - 1, chunks);
      var front := es[..|es| - 1];
      assert StscOrdered(front, front[|front| - 1].first);
      GoverningIs(front, i, j, front[|front| - 1].first);
    }
  }

  lemma {:induction false} FirstsIncrease(es: seq<Stsc>, a: nat, b: nat, chunks: nat)
    requires StscOrdered(es, chunks) && a <= b < |es|
    ensures es[a].first <= es[b].first
    decreases b - a
  {
    if a < b {
      FirstsIncrease(es, a, b - 1, chunks);
    }
  }

  /** The entries say count and description of every chunk. */
  ghost predicate Describes(es: seq<Stsc>, cs: seq<Chunk>) {
    && StscOrdered(es, |cs|)
    && (forall j :: 0 <= j < |cs| ==> Says(es, j, cs[j]))
    && (cs != [] ==> es[|es| - 1].count == cs[|cs| - 1].count && es[|es| - 1].sdi == cs[|cs| - 1].sdi)
  }

  ghost predicate Says(es: seq<Stsc>, j: nat, c: Chunk) {
    es != [] && es[Governing(es, j + 1)].count == c.count && es[Governing(es, j + 1)].sdi == c.sdi
  }

  lemma DescribesAdd(es: seq<Stsc>, cs: seq<Chunk>, c: Chunk)
    requires Describes(es, cs)
    ensures Describes(AddStsc(es, |cs| + 1, c), cs + [c])
  {
    var es' := AddStsc(es, |cs| + 1, c);
    forall j | 0 <= j < |cs| + 1
      ensures Says(es', j, (cs + [c])[j])
    {
      if j < |cs| {
        assert Says(es, j, cs[j]);
        assert |es'| > |es| ==> es'[..|es|] == es;
      }
    }
  }

  /** Expanding the doubly compressed table gives back count and description of every chunk. */
  lemma {:induction false} StscRoundTrip(cs: seq<Chunk>)
    ensures Describes(StscOf(cs), cs)
  {
    hide Describes, AddStsc;
    if cs == [] {
      DescribesNone();
    } else {
      var n := |cs| - 1;
      StscRoundTrip(cs[..n]);
      DescribesAdd(StscOf(cs[..n]), cs[..n], cs[n]);
      assert cs == cs[..n] + [cs[n]];
    }
  }

  /** No entry could have been left out: neighbours differ in count or description. */
  lemma {:induction false} StscMinimal(cs: seq<Chunk>)
    ensures forall i :: 0 <= i < |StscOf(cs)| - 1 ==>
      StscOf(cs)[i].count != StscOf(cs)[i + 1].count || StscOf(cs)[i].sdi != StscOf(cs)[i + 1].sdi
  {
    if cs != [] {
      StscMinimal(cs[..|cs| - 1]);
    }
  }

  lemma DescribesNone()
    ensures Describes([], [])
  {
  }

  // ---- Placing samples in chunks, the reader's way ----

  /** Where a sample lies, and with which description. */
  datatype Spot = Spot(offset: nat, sdi: uint32)

  function PlaceChunk(offset: nat, sizes: seq<uint32>, sdi: uint32): (s: seq<Spot>)
    ensures |s| == |sizes|
  {
    if sizes == [] then [] else
      var n := |sizes| - 1;
      PlaceChunk(offset, sizes[..n], sdi) + [Spot(offset + Sum(sizes[..n]), sdi)]
  }

  /** The first Total(cs) samples, one chunk after the other. */
  function Place(cs: seq<Chunk>, sizes: seq<uint32>): (s: seq<Spot>)
    requires Total(cs) <= |sizes|
    ensures |s| == Total(cs)
  {
    if cs == [] then [] else
      var n := |cs| - 1;
      var before := Total(cs[..n]);
      Place(cs[..n], sizes) + PlaceChunk(cs[n].offset, sizes[before..before + cs[n].count], cs[n].sdi)
  }

  function Spots(ms: seq<Media>, shift: nat): (s: seq<Spot>)
    ensures |s| == |ms|
  {
    seq(|ms|, i requires 0 <= i < |ms| => Spot(ms[i].offset + shift, ms[i].sdi))
  }

  function Shifted(cs: seq<Chunk>, shift: nat): (r: seq<Chunk>)
    ensures |r| == |cs|
  {
    seq(|cs|, i requires 0 <= i < |cs| => cs[i].(offset := cs[i].offset + shift))
  }

  lemma {:induction false} TotalShifted(cs: seq<Chunk>, shift: nat)
    ensures Total(Shifted(cs, shift)) == Total(cs)
  {
    if cs != [] {
      var n := |cs| - 1;
      TotalShifted(cs[..n], shift);
      assert Shifted(cs, shift)[..n] == Shifted(cs[..n], shift);
    }
  }

  lemma {:induction false} TotalChunks(ms: seq<Media>)
    ensures Total(Chunks(ms)) == |ms|
  {
    if ms != [] {
      var n := |ms| - 1;
      TotalChunks(ms[..n]);
      var cs := Chunks(ms[..n]);
      if cs != [] && Joins(cs[|cs| - 1], ms[n]) {
        assert Chunks(ms)[..|cs| - 1] == cs[..|cs| - 1];
      } else {
        assert Chunks(ms)[..|cs|] == cs;
      }
    }
  }

  /** More sizes behind the placed samples change nothing. */
  lemma {:induction false} PlacePrefix(cs: seq<Chunk>, sizes: seq<uint32>, more: seq<uint32>)
    requires Total(cs) <= |sizes|
    ensures Place(cs, sizes + more) == Place(cs, sizes)
  {
    if cs != [] {
      var n := |cs| - 1;
      var before := Total(cs[..n]);
      PlacePrefix(cs[..n], sizes, more);
      assert (sizes + more)[before..before + cs[n].count] == sizes[before..before + cs[n].count];
    }
  }

  lemma {:induction false} ShiftedSnoc(cs: seq<Chunk>, c: Chunk, shift: nat)
    ensures Shifted(cs + [c], shift) == Shifted(cs, shift) + [c.(offset := c.offset + shift)]
  {
  }

  lemma {:induction false} TotalSnoc(cs: seq<Chunk>, c: Chunk)
    ensures Total(cs + [c]) == Total(cs) + c.count
  {
    assert (cs + [c])[..|cs|] == cs;
  }

  lemma {:induction false} PlaceSnoc(cs: seq<Chunk>, c: Chunk, sizes: seq<uint32>)
    requires Total(cs) + c.count <= |sizes|
    ensures Total(cs + [c]) == Total(cs) + c.count
    ensures Place(cs + [c], sizes)
         == Place(cs, sizes) + PlaceChunk(c.offset, sizes[Total(cs)..Total(cs) + c.count], c.sdi)
  {
    TotalSnoc(cs, c);
    assert (cs + [c])[..|cs|] == cs;
  }

  /** One more sample in the last chunk is placed right behind it. */
  lemma PlaceChunkSnoc(offset: nat, sizes: seq<uint32>, x: uint32, sdi: uint32)
    ensures PlaceChunk(offset, sizes + [x], sdi)
         == PlaceChunk(offset, sizes, sdi) + [Spot(offset + Sum(sizes), sdi)]
  {
    assert (sizes + [x])[..|sizes|] == sizes;
  }

  /** The chunks cover the samples, and the size of the last one is what its samples add up to. */
  ghost predicate Covers(cs: seq<Chunk>, sizes: seq<uint32>) {
    && Total(cs) == |sizes|
    && (cs != [] ==>
          var f, c := cs[..|cs| - 1], cs[|cs| - 1];
          Total(f) + c.count == |sizes| && c.size == Sum(sizes[Total(f)..]))
  }

  lemma CoversExtend(f: seq<Chunk>, c: Chunk, sizes: seq<uint32>)
    requires Total(f) + c.count == |sizes| && c.size == Sum(sizes[Total(f)..])
    ensures Covers(f + [c], sizes)
  {
    TotalSnoc(f, c);
    assert (f + [c])[..|f|] == f;
  }

  lemma CoversAdd(cs: seq<Chunk>, m: Media, sizes: seq<uint32>)
    requires Covers(cs, sizes)
    ensures Covers(AddToChunks(cs, m), sizes + [m.bytes])
  {
    hide Total, Sum, Covers;
    var all := sizes + [m.bytes];
    assert Sum([m.bytes]) == m.bytes by { SumOne(m.bytes); }
    if cs != [] && Joins(cs[|cs| - 1], m) {
      var f, c := cs[..|cs| - 1], cs[|cs| - 1];
      LastCovers(cs, sizes);
      assert all[Total(f)..] == sizes[Total(f)..] + [m.bytes];
      SumConcat(sizes[Total(f)..], [m.bytes]);
      CoversExtend(f, c.(count := c.count + 1, size := c.size + m.bytes), all);
    } else {
      AllCovers(cs, sizes);
      assert all[|sizes|..] == [m.bytes];
      CoversExtend(cs, Chunk(m.offset, 1, m.sdi, m.bytes), all);
    }
  }

  lemma SumOne(x: uint32)
    ensures Sum([x]) == x
  {
    assert [x][..0] == [];
  }

  lemma AllCovers(cs: seq<Chunk>, sizes: seq<uint32>)
    requires Covers(cs, sizes)
    ensures Total(cs) == |sizes|
  {
  }

  lemma LastCovers(cs: seq<Chunk>, sizes: seq<uint32>)
    requires Covers(cs, sizes) && cs != []
    ensures Total(cs[..|cs| - 1]) + cs[|cs| - 1].count == |sizes|
    ensures cs[|cs| - 1].size == Sum(sizes[Total(cs[..|cs| - 1])..])
  {
  }

  lemma CoversNone()
    ensures Covers([], [])
  {
  }

  lemma {:induction false} ChunksCover(ms: seq<Media>)
    ensures Covers(Chunks(ms), Sizes(ms))
  {
    hide Covers, AddToChunks;
    if ms == [] {
      CoversNone();
    } else {
      var n := |ms| - 1;
      ChunksCover(ms[..n]);
      CoversAdd(Chunks(ms[..n]), ms[n], Sizes(ms[..n]));
      assert Sizes(ms) == Sizes(ms[..n]) + [ms[n].bytes];
    }
  }

  /** A sample that joins the last chunk is placed right behind it. */
  lemma PlaceJoin(f: seq<Chunk>, c: Chunk, c': Chunk, sizes: seq<uint32>, x: uint32)
    requires Total(f) + c.count == |sizes| && c' == c.(count := c.count + 1, size := c'.size)
    ensures Total(f + [c]) == |sizes| && Total(f + [c']) == |sizes| + 1
    ensures Place(f + [c'], sizes + [x])
         == Place(f + [c], sizes) + [Spot(c.offset + Sum(sizes[Total(f)..]), c.sdi)]
  {
    hide Place, PlaceChunk, Total, Sum;
    var t := Total(f);
    TotalSnoc(f, c);
    TotalSnoc(f, c');
    PlaceSnoc(f, c, sizes);
    PlaceSnoc(f, c', sizes + [x]);
    PlacePrefix(f, sizes, [x]);
    assert sizes[t..t + c.count] == sizes[t..];
    assert (sizes + [x])[t..t + c'.count] == sizes[t..] + [x];
    PlaceChunkSnoc(c.offset, sizes[t..], x, c.sdi);
  }

  /** A sample that starts a chunk is placed at its offset. */
  lemma PlaceNew(cs: seq<Chunk>, c: Chunk, sizes: seq<uint32>, x: uint32)
    requires Total(cs) == |sizes| && c.count == 1
    ensures Total(cs + [c]) == |sizes| + 1
    ensures Place(cs + [c], sizes + [x]) == Place(cs, sizes) + [Spot(c.offset, c.sdi)]
  {
    TotalSnoc(cs, c);
    PlaceSnoc(cs, c, sizes + [x]);
    PlacePrefix(cs, sizes, [x]);
    assert (sizes + [x])[|sizes|..|sizes| + 1] == [] + [x];
    PlaceChunkSnoc(c.offset, [], x, c.sdi);
  }

  lemma PlaceAddToChunks(cs: seq<Chunk>, m: Media, sizes: seq<uint32>, shift: nat)
    requires Covers(cs, sizes)
    ensures Total(Shifted(cs, shift)) == |sizes|
    ensures Total(Shifted(AddToChunks(cs, m), shift)) == |sizes| + 1
    ensures Place(Shifted(AddToChunks(cs, m), shift), sizes + [m.bytes])
         == Place(Shifted(cs, shift), sizes) + [Spot(m.offset + shift, m.sdi)]
  {
    hide Place, Total, Sum, Covers, Shifted;
    TotalShifted(cs, shift);
    AllCovers(cs, sizes);
    if cs != [] && Joins(cs[|cs| - 1], m) {
      var f, c := cs[..|cs| - 1], cs[|cs| - 1];
      var c' := c.(count := c.count + 1, size := c.size + m.bytes);
      LastCovers(cs, sizes);
      assert cs == f + [c];
      TotalShifted(f, shift);
      ShiftedSnoc(f, c, shift);
      ShiftedSnoc(f, c', shift);
      PlaceJoin(Shifted(f, shift), c.(offset := c.offset + shift), c'.(offset := c.offset + shift),
                sizes, m.bytes);
    } else {
      var c := Chunk(m.offset, 1, m.sdi, m.bytes);
      ShiftedSnoc(cs, c, shift);
      PlaceNew(Shifted(cs, shift), c.(offset := c.offset + shift), sizes, m.bytes);
    }
  }

  lemma PlaceNone(shift: nat)
    ensures Total(Shifted([], shift)) == 0 && Place(Shifted([], shift), []) == []
  {
  }

  /** Expanding the chunks of a track gives back every sample's place and description. */
  lemma {:induction false} ChunkRoundTrip(ms: seq<Media>, shift: nat)
    ensures Total(Shifted(Chunks(ms), shift)) == |ms|
    ensures Place(Shifted(Chunks(ms), shift), Sizes(ms)) == Spots(ms, shift)
  {
    hide Place, Total, AddToChunks, Covers, Shifted;
    if ms == [] {
      PlaceNone(shift);
    } else {
      var n := |ms| - 1;
      ChunksCover(ms[..n]);
      ChunkRoundTrip(ms[..n], shift);
      PlaceAddToChunks(Chunks(ms[..n]), ms[n], Sizes(ms[..n]), shift);
      assert Sizes(ms) == Sizes(ms[..n]) + [ms[n].bytes];
      assert Spots(ms, shift) == Spots(ms[..n], shift) + [Spot(ms[n].offset + shift, ms[n].sdi)];
    }
  }
}
