/** The samples a reader rebuilds from the tables of a track, next to the samples that were written. */
module Recover {
  import opened Bytes
  import opened Runs
  import opened SampleTables
  import opened Timing
  import opened TrackBoxes
  import opened Options
  import opened BoxParser
  import opened ReadTables
  import opened ReadBack

  /** The time the first sample gets. */
  function First(ms: seq<Media>): nat
    requires ms != []
  {
    if ms[0].pts > 0 then ms[0].pts else 0
  }

  /** Sample by sample: same bytes at the shifted place, same description; decode times counted on
      from the first, composition offsets less the shift, key frames where a table lists them. */
  function Recovered(v: TrackV): (r: seq<Media>)
    requires v.ms != []
    ensures |r| == |v.ms|
  {
    seq(|v.ms|, i requires 0 <= i < |v.ms| =>
      var dts := DtsFrom(First(v.ms), Deltas(v.ms))[i];
      Media(if HasStss(v.header) && IsKey(v.ms[i]) then KEYFRAME else 0,
            dts + Cts(v.ms[i]) - ShiftOver(Offsets(v.ms)), dts,
            v.ms[i].offset + v.shift, v.ms[i].bytes, v.ms[i].sdi))
  }

  // ---- When ctts is left out, and when it is version 1 ----

  lemma {:induction false} AllZero(os: seq<uint32>, n: nat)
    requires |os| == n && forall i :: 0 <= i < n ==> os[i] == 0
    requires n > 0
    ensures Compress(os) == [Run(n, 0)]
  {
    var one := [Run(n, 0)];
    assert Canonical(one);
    assert one[..0] == [];
    assert Expand(one) == Expand([]) + Repeat(0, n) == os;
    CompressUnique(one);
  }

  /** ctts is left out exactly when every presentation time is the decode time. */
  lemma CttsOmitted(ms: seq<Media>)
    requires CtsFit(ms) && ms != []
    ensures !WritesCtts(ms) <==> forall i :: 0 <= i < |ms| ==> ms[i].pts == ms[i].dts
  {
    hide Compress;
    var os := Offsets(ms);
    var rs := Compress(os);
    if !WritesCtts(ms) {
      assert rs == [Run(rs[0].count, 0)];
      assert rs[..0] == [];
      ExpandCompress(os);
      assert os == Repeat(0, rs[0].count);
      forall i | 0 <= i < |ms|
        ensures ms[i].pts == ms[i].dts
      {
        CtsCode(ms[i]);
        assert os[i] == U32(Cts(ms[i]));
      }
    }
    if forall i :: 0 <= i < |ms| ==> ms[i].pts == ms[i].dts {
      AllZero(os, |ms|);
    }
  }

  /** The version-1 flag goes up exactly when some sample is presented before it is decoded. */
  lemma {:induction false} VersionOne(ms: seq<Media>)
    requires CtsFit(ms)
    ensures NegativeRun(ms) <==> exists i :: 0 <= i < |ms| && ms[i].pts < ms[i].dts
  {
    if ms != [] {
      var n := |ms| - 1;
      VersionOne(ms[..n]);
      CtsCode(ms[n]);
      if n > 0 {
        CtsCode(ms[n - 1]);
        assert ms[..n][n - 1] == ms[n - 1];
      }
      if NegativeRun(ms[..n]) {
        var i :| 0 <= i < n && ms[..n][i].pts < ms[..n][i].dts;
        assert ms[i] == ms[..n][i];
      }
      if i :| 0 <= i < |ms| && ms[i].pts < ms[i].dts {
        if i < n {
          assert ms[..n][i] == ms[i];
        }
      }
    }
  }

  // ---- The apply passes on what was written ----

  /** Placing looks at offsets, counts and descriptions only. */
  lemma {:induction false} PlaceSame(a: seq<Chunk>, b: seq<Chunk>, sizes: seq<uint32>)
    requires |a| == |b|
    requires forall j :: 0 <= j < |a| ==> a[j] == b[j].(size := a[j].size)
    requires Total(b) <= |sizes|
    ensures Total(a) == Total(b) && Place(a, sizes) == Place(b, sizes)
  {
    if a != [] {
      PlaceSame(a[..|a| - 1], b[..|b| - 1], sizes);
    }
  }

  lemma PlanIs(v: TrackV)
    requires v.ms != []
    ensures var t := TablesOf(v);
      && t.stsc != [] && StscUp(t.stsc, |t.stco|)
      && Total(PlanOf(t)) == |v.ms| && Place(PlanOf(t), Sizes(v.ms)) == Spots(v.ms, v.shift)
  {
    hide Place, Total, StscOf, Chunks, Governing, Compress, WritesCtts, KeyNumbers, HasStss;
    var t := TablesOf(v);
    var cs := Chunks(v.ms);
    assert t.stsc == StscOf(cs) && t.stco == ChunkOffsets(v.ms, v.shift);
    StscRoundTrip(cs);
    forall j | 0 <= j < |cs|
      ensures PlanOf(t)[j] == Shifted(cs, v.shift)[j].(size := PlanOf(t)[j].size)
    {
      assert Says(t.stsc, j, cs[j]);
    }
    ChunkRoundTrip(v.ms, v.shift);
    PlaceSame(PlanOf(t), Shifted(cs, v.shift), Sizes(v.ms));
  }

  lemma TimesAre(v: TrackV)
    requires v.ms != [] && CtsFit(v.ms)
    ensures var t := TablesOf(v);
      && Counts(t.stts) == |v.ms| && Expand(t.stts) == Deltas(v.ms)
      && (t.ctts == [] <==> !WritesCtts(v.ms))
      && (t.ctts != [] ==> Counts(t.ctts) == |v.ms| && Expand(t.ctts) == Offsets(v.ms))
      && (t.ctts != [] ==> ShiftOf(t.ctts) == ShiftOver(Offsets(v.ms)))
      && (t.ctts == [] ==> ShiftOver(Offsets(v.ms)) == 0)
  {
    hide Compress, Expand, Counts, ShiftOf, ShiftOver, WritesCtts, KeyNumbers, HasStss, StscOf, Chunks;
    ExpandCompress(Deltas(v.ms));
    ExpandLength(Compress(Deltas(v.ms)));
    ExpandCompress(Offsets(v.ms));
    ExpandLength(Compress(Offsets(v.ms)));
    ShiftCompress(Offsets(v.ms));
    CttsOmitted(v.ms);
    ShiftZero(v.ms);
    CttsPresent(v.ms);
  }

  lemma CttsPresent(ms: seq<Media>)
    requires ms != []
    ensures Compress(Offsets(ms)) != []
  {
  }

  /** Applying the tables of a track gives back its samples. */
  lemma RebuildIs(v: TrackV)
    requires v.ms != [] && CtsFit(v.ms)
    ensures Consistent(TablesOf(v)) && Rebuild(TablesOf(v)) == Recovered(v)
  {
    hide Compress, Expand, Counts, ShiftOf, ShiftOver, KeyNumbers, StscOf, Chunks, Place, PlanOf, StscUp,
         DtsFrom, Deltas, Offsets, Total, WritesCtts;
    var t := TablesOf(v);
    PlanIs(v);
    TimesAre(v);
    BaseTimeOf(v.ms, v.duration);
    assert t.sizes == Sizes(v.ms);
    var r := Rebuild(t);
    forall i | 0 <= i < |v.ms|
      ensures r[i] == Recovered(v)[i]
    {
      KeyNumbersAre(v.ms, i);
      StssIs(v, i);
      RebuiltPts(v, i);
      assert Spots(v.ms, v.shift)[i] == Spot(v.ms[i].offset + v.shift, v.ms[i].sdi);
    }
  }

  lemma StssIs(v: TrackV, i: nat)
    requires v.ms != []
    ensures TablesOf(v).stss == if HasStss(v.header) then KeyNumbers(v.ms) else []
  {
  }

  lemma RebuiltPts(v: TrackV, i: nat)
    requires v.ms != [] && CtsFit(v.ms) && i < |v.ms|
    ensures var dts := DtsFrom(First(v.ms), Deltas(v.ms))[i];
      var s := ShiftOver(Offsets(v.ms));
      PtsFrom(dts, Offsets(v.ms)[i], s) == dts + Cts(v.ms[i]) - s
      && (TablesOf(v).ctts == [] ==> Cts(v.ms[i]) == 0 && s == 0)
  {
    hide Compress, ShiftOver, DtsFrom, Deltas, WritesCtts;
    CtsCode(v.ms[i]);
    TimesAre(v);
    CttsOmitted(v.ms);
  }

  /** Every time comes back exactly when the first sample is decoded at its presentation time, or at 0
      if that is negative, decode times go up, by steps within 32 bits, and no sample is presented more
      than one tick before it is decoded. */
  lemma TimesExact(v: TrackV)
    requires v.ms != [] && CtsFit(v.ms)
    ensures (forall i :: 0 <= i < |v.ms| ==>
               Recovered(v)[i].dts == v.ms[i].dts && Recovered(v)[i].pts == v.ms[i].pts)
        <==> && v.ms[0].dts == First(v.ms)
             && StepsKept(v.ms)
             && (forall i :: 0 <= i < |v.ms| ==> Cts(v.ms[i]) >= -1)
  {
    hide DtsFrom, Deltas, ShiftOver, Offsets;
    DtsExact(v.ms, First(v.ms));
    ShiftZero(v.ms);
    var r := Recovered(v);
    if forall i :: 0 <= i < |v.ms| ==> r[i].dts == v.ms[i].dts && r[i].pts == v.ms[i].pts {
      assert r[0].dts == v.ms[0].dts && r[0].pts == v.ms[0].pts;
      forall i | 0 <= i < |v.ms|
        ensures DtsFrom(First(v.ms), Deltas(v.ms))[i] == v.ms[i].dts
      {
        assert r[i].dts == v.ms[i].dts;
      }
    }
  }

  /** In a track with a picture exactly the samples marked as key frames by the caller come back as key
      frames; in any other track none does. */
  lemma KeysRecovered(v: TrackV, i: nat)
    requires i < |v.ms|
    ensures var f := Recovered(v)[i].flags;
      (f == 0 || f == 1) && (f == 1 <==> v.header.width > 0 && v.header.height > 0 && v.ms[i].flags % 2 == 1)
  {
    hide DtsFrom, Deltas, Offsets, ShiftOver;
  }

  /** A single sample presented 2 ticks after it is decoded at 0: it comes back 2 ticks late. */
  lemma DelayMoves(v: TrackV, m: Media)
    requires v.ms == [m] && m.pts == 2 && m.dts == 0
    ensures Recovered(v)[0].dts == 2
  {
    DtsFromFirst(First(v.ms), Deltas(v.ms));
  }
}
