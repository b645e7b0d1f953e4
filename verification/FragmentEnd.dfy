/** The whole way round for fragments: what a reader finds in the file, and where and when it is what was sent. */
module FragmentEnd {
  import opened Bytes
  import opened SampleTables
  import opened Timing
  import opened TrackBoxes
  import opened Options
  import opened BoxParser
  import opened ReadTables
  import opened FragmentBoxes
  import opened FragmentWriters
  import opened FragmentRead
  import opened Fmp4Writer
  import opened FragmentFile
  import opened IndexBoxes
  import opened IndexRead
  import MovReader
  import MovWriter
  import EndToEnd

  // ---- Placement ----

  /** Where the data of sample `j` of track `i` is in the file. */
  function TruePlace(f: Fragment, base: nat, i: nat, j: nat): nat
    requires i < |f.vs| && j < |f.vs[i].ms|
  {
    base + |MoofBox(f.vs, f.id, 0)| + |MdatHeader(Bulk(f.vs))| + f.vs[i].ms[j].offset
  }

  lemma {:induction false} JoinAt(ms: seq<Media>, ds: seq<seq<byte>>, j: nat)
    requires SizesMatch(ms, ds) && j < |ms|
    ensures At(Join(ds), Sum(Sizes(ms[..j])), ds[j])
  {
    var n := |ms| - 1;
    JoinLength(ms[..n], ds[..n]);
    if j < n {
      JoinAt(ms[..n], ds[..n], j);
      assert ms[..n][..j] == ms[..j];
      AtFront(Join(ds[..n]), ds[n], Sum(Sizes(ms[..j])), ds[j]);
    }
  }

  lemma AtFront(a: seq<byte>, b: seq<byte>, p: nat, x: seq<byte>)
    requires At(a, p, x)
    ensures At(a + b, p, x)
  {
    assert (a + b)[p..p + |x|] == a[p..p + |x|];
  }

  lemma AtBehind(a: seq<byte>, b: seq<byte>, p: nat, x: seq<byte>)
    requires At(b, p, x)
    ensures At(a + b, |a| + p, x)
  {
    assert (a + b)[|a| + p..|a| + p + |x|] == b[p..p + |x|];
  }

  lemma {:induction false} JoinAllAt(vs: seq<TrackF>, dss: seq<seq<seq<byte>>>, i: nat, j: nat)
    requires |vs| == |dss| && (forall k :: 0 <= k < |vs| ==> SizesMatch(vs[k].ms, dss[k]))
    requires i < |vs| && j < |vs[i].ms|
    ensures j < |dss[i]| && At(JoinAll(dss), Bulk(vs[..i]) + Sum(Sizes(vs[i].ms[..j])), dss[i][j])
  {
    hide Join, Sum, Sizes, At;
    var n := |vs| - 1;
    assert SizesMatch(vs[i].ms, dss[i]);
    JoinAllLength(vs[..n], dss[..n]);
    if i < n {
      JoinAllAt(vs[..n], dss[..n], i, j);
      assert vs[..n][..i] == vs[..i];
      AtFront(JoinAll(dss[..n]), Join(dss[n]), Bulk(vs[..i]) + Sum(Sizes(vs[i].ms[..j])), dss[i][j]);
    } else {
      JoinAt(vs[n].ms, dss[n], j);
      AtBehind(JoinAll(dss[..n]), Join(dss[n]), Sum(Sizes(vs[n].ms[..j])), dss[n][j]);
    }
  }

  lemma LaidOffset(vs: seq<TrackF>, i: nat, j: nat)
    requires vs == LaidAll(vs) && i < |vs| && j < |vs[i].ms|
    ensures vs[i].ms[j].offset == Bulk(vs[..i]) + Sum(Sizes(vs[i].ms[..j]))
    ensures vs[i].ms[j].offset == vs[i].ms[0].offset + Sum(Sizes(vs[i].ms[..j]))
  {
    hide LaidAll, Laid, Bulk;
    LaidAllAt(vs, i);
    LaidAt(vs[i].ms, Bulk(vs[..i]), j);
    LaidAt(vs[i].ms, Bulk(vs[..i]), 0);
    NoSizes();
  }

  lemma DataPlaced(d: seq<byte>, p: nat, f: Fragment, i: nat, j: nat)
    requires Sound(f) && i < |f.vs| && j < |f.vs[i].ms| && At(d, p, FragmentBytes(f))
    ensures j < |f.data[i]| && At(d, TruePlace(f, p + |HeadBytes(f)|, i, j), f.data[i][j])
  {
    hide MoofBox, LaidAll, JoinAll, At, MdatHeader, DataStart, Bulk, Sum, Sizes, SizesMatch;
    MoofSize(f.vs, f.id, 0, DataStart(f));
    LaidOffset(f.vs, i, j);
    JoinAllAt(f.vs, f.data, i, j);
    var front := HeadBytes(f) + MoofBox(f.vs, f.id, DataStart(f)) + MdatHeader(Bulk(f.vs));
    AtConcat(d, p, front, JoinAll(f.data));
    Inside(d, p + |front|, JoinAll(f.data), f.vs[i].ms[j].offset, f.data[i][j]);
  }

  lemma Inside(d: seq<byte>, p: nat, b: seq<byte>, q: nat, x: seq<byte>)
    requires At(d, p, b) && At(b, q, x)
    ensures At(d, p + q, x)
  {
    forall k | 0 <= k < |x|
      ensures d[p + q + k] == x[k]
    {
      assert d[p..p + |b|][q + k] == b[q + k] && b[q..q + |x|][k] == x[k];
    }
  }

  /** mdat has the short header that was counted on, and the track starts within 31 bits of moof. */
  predicate Fits(f: Fragment, i: nat)
    requires i < |f.vs| && f.vs[i].ms != []
  {
    Bulk(f.vs) + 8 <= UINT32_MAX && DataStart(f) + f.vs[i].ms[0].offset <= INT32_MAX
  }

  lemma Wrapped(x: nat)
    ensures S32(U32(x)) == x <==> x <= INT32_MAX
    ensures S32(U32(x)) != x + 8 && S32(U32(x)) <= x
  {
  }

  lemma Modulo(z: int, t: nat)
    requires t < 0x8000_0000_0000_0000 && -0x1_0000_0000_0000_0000 < z - t < 0x1_0000_0000_0000_0000
    ensures U64(z) == t <==> z == t
  {
  }

  /** Only one offset within 63 bits is right. */
  lemma Right(base: nat, x: nat, e: nat, s: nat)
    requires base + x + e + s < 0x8000_0000_0000_0000 && e <= 8
    ensures U64(U64(U64(base) + S32(U32(x))) + s) == base + x + e + s <==> S32(U32(x)) == x + e
  {
    hide U64, S32, U32;
    var y := S32(U32(x));
    Wrapped(x);
    U64Sum(base, y);
    U64Sum(base + y, s);
    Modulo(base + y + s, base + x + e + s);
  }

  /** A sample is looked for where it is exactly when its track fits. */
  lemma PlacedExactly(f: Fragment, base: nat, i: nat, j: nat)
    requires Sound(f) && i < |f.vs| && j < |f.vs[i].ms| && TruePlace(f, base, i, j) < 0x8000_0000_0000_0000
    ensures ReadSample(f.vs[i], base, DataStart(f), j).offset == TruePlace(f, base, i, j) <==> Fits(f, i)
  {
    hide MoofBox, LaidAll, Bulk, Sum, Sizes, SizesMatch, U64, S32, U32, Elapsed, BaseDecodeTime;
    var v := f.vs[i];
    LaidOffset(f.vs, i, j);
    var x, e := DataStart(f) + v.ms[0].offset, if Bulk(f.vs) + 8 <= UINT32_MAX then 0 else 8;
    HeaderSize(Bulk(f.vs));
    Right(base, x, e, Sum(Sizes(v.ms[..j])));
    Wrapped(x);
  }

  lemma HeaderSize(bulk: nat)
    ensures |MdatHeader(bulk)| == if bulk + 8 <= UINT32_MAX then 8 else 16
  {
  }

  /** A second track behind 2 GiB of a first: all of mdat fits 32 bits, yet the sample is looked for in
      the wrong place. */
  lemma LateTrackMisplaced(video: seq<byte>, audio: seq<byte>, base: nat)
    requires |video| == 0x7FFF_FFFF && |audio| == 100 && base < 0x1_0000_0000
    ensures var f := Fragment([], None, 1, [TrackF(1, Video, [Media(1, 0, 0, 0, 0x7FFF_FFFF, 1)], 0, 0),
                                        TrackF(2, Audio, [Media(1, 0, 0, 0x7FFF_FFFF, 100, 1)], 0, 0)],
                              [[video], [audio]]);
      Sound(f) && Bulk(f.vs) + 8 <= UINT32_MAX
      && ReadSample(f.vs[1], base, DataStart(f), 0).offset != TruePlace(f, base, 1, 0)
  {
    hide MoofBox, ReadSample, LaidAll, Bulk, SizesMatch, Sum, Sizes;
    var v1 := TrackF(1, Video, [Media(1, 0, 0, 0, 0x7FFF_FFFF, 1)], 0, 0);
    var v2 := TrackF(2, Audio, [Media(1, 0, 0, 0x7FFF_FFFF, 100, 1)], 0, 0);
    var f := Fragment([], None, 1, [v1, v2], [[video], [audio]]);
    Lone(v1.ms[0], 0, video);
    Lone(v2.ms[0], 0x7FFF_FFFF, audio);
    TwoTracks(v1, v2);
    MoofBound(f);
    HeaderSize(Bulk(f.vs));
    PlacedExactly(f, base, 1, 0);
  }

  lemma Lone(m: Media, n: nat, data: seq<byte>)
    requires |data| == m.bytes
    ensures Laid([m], n) == [m.(offset := n)] && Sum(Sizes([m])) == m.bytes && SizesMatch([m], [data])
  {
    assert [m][..0] == [] && Sizes([m]) == [m.bytes] && Sizes([m])[..0] == [];
  }

  lemma TwoTracks(v1: TrackF, v2: TrackF)
    ensures Bulk([v1, v2]) == Sum(Sizes(v1.ms)) + Sum(Sizes(v2.ms))
    ensures LaidAll([v1, v2]) == [v1.(ms := Laid(v1.ms, 0)), v2.(ms := Laid(v2.ms, Sum(Sizes(v1.ms))))]
    ensures Weight([v1, v2]) == 168 + 12 * (|v1.ms| + |v2.ms|)
  {
    hide Laid, Sum, Sizes;
    assert [v1, v2][..1] == [v1] && [v1][..0] == [];
    assert Bulk([]) == 0 && Weight([]) == 0 && LaidAll([]) == [];
    assert Bulk([v1]) == Sum(Sizes(v1.ms)) && Weight([v1]) == 84 + 12 * |v1.ms|;
    assert LaidAll([v1]) == [v1.(ms := Laid(v1.ms, 0))];
  }

  // ---- Times ----

  /** Decode times come back counted from the first sample of the track, whatever fields were chosen. */
  lemma DecodeTime(v: TrackF, base: nat, moof: nat, j: nat)
    requires j < |v.ms| && DtsOrdered(v.ms)
    requires -0x8000_0000_0000_0000 <= BeginTime(v) < 0x8000_0000_0000_0000
    ensures ReadSample(v, base, moof, j).dts == v.ms[j].dts - v.start
  {
    hide Sum, Sizes, DataOffset, Duration, DtsOrdered;
    ElapsedIs(v, j);
    Signed(BeginTime(v));
  }

  lemma Signed(x: int)
    requires -0x8000_0000_0000_0000 <= x < 0x8000_0000_0000_0000
    ensures S64(U64(x)) == x
  {
  }

  /** The distance to the presentation time comes back exactly when it fits 32 signed bits. */
  lemma PresentationTime(v: TrackF, base: nat, moof: nat, j: nat)
    requires j < |v.ms|
    ensures var m := ReadSample(v, base, moof, j);
      m.pts - m.dts == Cts(v.ms[j]) <==> -0x8000_0000 <= Cts(v.ms[j]) < 0x8000_0000
  {
    hide Sum, Sizes, DataOffset, Duration, Elapsed, BaseDecodeTime;
  }

  /** Key flags come back exactly when the fragment starts with a key frame and the rest is what its
      kind of track is assumed to hold: key frames for audio, none otherwise. */
  lemma KeyFlags(v: TrackF, base: nat, moof: nat)
    requires v.ms != []
    ensures (forall j :: 0 <= j < |v.ms| ==> (IsKey(ReadSample(v, base, moof, j)) <==> IsKey(v.ms[j])))
        <==> IsKey(v.ms[0]) && forall j :: 0 < j < |v.ms| ==> (IsKey(v.ms[j]) <==> v.handler == Audio)
  {
    hide Sum, Sizes, DataOffset, Duration, Elapsed, BaseDecodeTime, ReadCts;
    if forall j :: 0 <= j < |v.ms| ==> (IsKey(ReadSample(v, base, moof, j)) <==> IsKey(v.ms[j])) {
      assert IsKey(ReadSample(v, base, moof, 0));
      forall j | 0 < j < |v.ms|
        ensures IsKey(v.ms[j]) <==> v.handler == Audio
      {
        assert IsKey(ReadSample(v, base, moof, j)) <==> v.handler == Audio;
      }
    }
  }

  /** A video fragment of one sample that is no key frame: it is read as one. */
  lemma KeyGained(m: Media, base: nat, moof: nat)
    requires !IsKey(m)
    ensures IsKey(ReadSample(TrackF(1, Video, [m], m.dts, 0), base, moof, 0))
  {
    hide Sum, Sizes, DataOffset, Duration, Elapsed, BaseDecodeTime, ReadCts;
  }

  // ---- Whole runs ----

  /** Decode times never go back, and go on by 32 bits at most. */
  ghost predicate Steady(log: seq<Sent>) {
    forall x :: 0 <= x < |log| - 1 ==> 0 <= log[x + 1].dts - log[x].dts <= UINT32_MAX
  }

  /** Times within their fields. */
  ghost predicate InRange(log: seq<Sent>, start: int) {
    forall x :: 0 <= x < |log| ==>
      0 <= log[x].dts - start < 0x8000_0000_0000_0000 && -0x8000_0000 <= log[x].pts - log[x].dts < 0x8000_0000
  }

  /** A sample read back is the one that was sent: same bytes at its place, same distance between its
      times, and its decode time counted from the start of the track. */
  ghost predicate Same(d: seq<byte>, m: Media, s: Sent, start: int) {
    && m.bytes == |s.data| && At(d, m.offset, s.data)
    && m.dts == s.dts - start && m.pts - m.dts == s.pts - s.dts
  }

  ghost predicate AllSame(d: seq<byte>, ms: seq<Media>, log: seq<Sent>, start: int) {
    |ms| == |log| && forall x :: 0 <= x < |log| ==> Same(d, ms[x], log[x], start)
  }

  lemma AllSameConcat(d: seq<byte>, ms: seq<Media>, log: seq<Sent>, ms': seq<Media>, log': seq<Sent>, start: int)
    requires AllSame(d, ms, log, start) && AllSame(d, ms', log', start)
    ensures AllSame(d, ms + ms', log + log', start)
  {
    hide Same;
  }

  lemma SteadySplit(a: seq<Sent>, b: seq<Sent>, start: int)
    requires Steady(a + b) && InRange(a + b, start)
    ensures Steady(a) && Steady(b) && InRange(a, start) && InRange(b, start)
  {
    var c := a + b;
    forall x | 0 <= x < |b| - 1
      ensures 0 <= b[x + 1].dts - b[x].dts <= UINT32_MAX
    {
      assert c[|a| + x] == b[x] && c[|a| + x + 1] == b[x + 1];
    }
    forall x | 0 <= x < |b|
      ensures 0 <= b[x].dts - start < 0x8000_0000_0000_0000 && -0x8000_0000 <= b[x].pts - b[x].dts < 0x8000_0000
    {
      assert c[|a| + x] == b[x];
    }
    forall x | 0 <= x < |a| - 1
      ensures 0 <= a[x + 1].dts - a[x].dts <= UINT32_MAX
    {
      assert c[x] == a[x] && c[x + 1] == a[x + 1];
    }
    forall x | 0 <= x < |a|
      ensures 0 <= a[x].dts - start < 0x8000_0000_0000_0000 && -0x8000_0000 <= a[x].pts - a[x].dts < 0x8000_0000
    {
      assert c[x] == a[x];
    }
  }

  lemma SentOrdered(ms: seq<Media>, ds: seq<seq<byte>>)
    requires Steady(SentOf(ms, ds))
    ensures DtsOrdered(ms)
  {
    var log := SentOf(ms, ds);
    forall x | 0 <= x < |ms| - 1
      ensures 0 <= ms[x + 1].dts - ms[x].dts <= UINT32_MAX
    {
      assert log[x].dts == ms[x].dts && log[x + 1].dts == ms[x + 1].dts;
    }
  }

  /** The samples of one track in one fragment. */
  lemma FragmentSame(d: seq<byte>, p: nat, f: Fragment, i: nat)
    requires Sound(f) && i < |f.vs| && f.vs[i].ms != [] && Fits(f, i)
    requires At(d, p, FragmentBytes(f)) && |d| < 0x8000_0000_0000_0000
    requires Steady(FlushedIn(f, i)) && InRange(FlushedIn(f, i), f.vs[i].start)
    ensures AllSame(d, ReadSamples(f.vs[i], p + |HeadBytes(f)|, DataStart(f), |f.vs[i].ms|), FlushedIn(f, i), f.vs[i].start)
  {
    hide At, FragmentBytes, DataStart, LaidAll, ReadSample, TruePlace, SizesMatch, Fits, DtsOrdered;
    var v, log, base := f.vs[i], FlushedIn(f, i), p + |HeadBytes(f)|;
    SentOrdered(v.ms, f.data[i]);
    forall x | 0 <= x < |log|
      ensures Same(d, ReadSample(v, base, DataStart(f), x), log[x], v.start)
    {
      OneSame(d, p, f, i, x);
    }
  }

  lemma OneSame(d: seq<byte>, p: nat, f: Fragment, i: nat, x: nat)
    requires Sound(f) && i < |f.vs| && x < |f.vs[i].ms| && Fits(f, i) && DtsOrdered(f.vs[i].ms)
    requires At(d, p, FragmentBytes(f)) && |d| < 0x8000_0000_0000_0000
    requires InRange(FlushedIn(f, i), f.vs[i].start)
    ensures Same(d, ReadSample(f.vs[i], p + |HeadBytes(f)|, DataStart(f), x), FlushedIn(f, i)[x], f.vs[i].start)
  {
    hide FragmentBytes, DataStart, LaidAll, TruePlace, Fits, DtsOrdered, Sum, Sizes, Duration, Elapsed, BaseDecodeTime,
         DataOffset, ReadCts;
    var v, log, base := f.vs[i], FlushedIn(f, i), p + |HeadBytes(f)|;
    DataPlaced(d, p, f, i, x);
    PlacedExactly(f, base, i, x);
    assert log[0].dts == v.ms[0].dts && log[x].dts == v.ms[x].dts && log[x].pts == v.ms[x].pts;
    DecodeTime(v, base, DataStart(f), x);
    PresentationTime(v, base, DataStart(f), x);
    assert SizesMatch(v.ms, f.data[i]);
  }

  ghost predicate AllFit(done: seq<Fragment>, i: nat) {
    forall k :: 0 <= k < |done| && i < |done[k].vs| && done[k].vs[i].ms != [] ==> Fits(done[k], i)
  }

  lemma SoundSplit(done: seq<Fragment>)
    requires done != [] && AllSound(done)
    ensures var n := |done| - 1;
      AllSound(done[..n]) && Sound(done[n]) && |done[n].vs| == |done[n].data|
      && FileOf(done) == FileOf(done[..n]) + FragmentBytes(done[n])
  {
    hide FragmentBytes, LaidAll, SizesMatch;
  }

  lemma FlushedSplit(done: seq<Fragment>, i: nat)
    requires done != [] && |done[|done| - 1].vs| == |done[|done| - 1].data|
    ensures var n := |done| - 1;
      var f := done[n];
      Flushed(done, i) == if HasSamples(f, i) then Flushed(done[..n], i) + FlushedIn(f, i) else Flushed(done[..n], i)
  {
    var f := done[|done| - 1];
    if i < |f.vs| && f.vs[i].ms == [] {
      assert FlushedIn(f, i) == [];
    }
  }

  lemma ReadOfSplit(done: seq<Fragment>, i: nat)
    requires done != []
    ensures var n := |done| - 1;
      var f := done[n];
      ReadOf(done, i) == if HasSamples(f, i)
        then ReadOf(done[..n], i)
             + ReadSamples(f.vs[i], |FileOf(done[..n])| + |HeadBytes(f)|, DataStart(f), |f.vs[i].ms|)
        else ReadOf(done[..n], i)
  {
    hide ReadSamples, DataStart, FileOf, HeadBytes;
  }

  lemma FitSplit(done: seq<Fragment>, i: nat)
    requires done != [] && AllFit(done, i)
    ensures var n := |done| - 1;
      AllFit(done[..n], i) && (HasSamples(done[n], i) ==> Fits(done[n], i))
  {
    hide Fits;
  }

  lemma FromStart(f: Fragment, logs: seq<seq<Sent>>, i: nat)
    requires From(f, logs) && i < |f.vs| && f.vs[i].ms != []
    ensures i < |logs| && logs[i] != [] && f.vs[i].start == logs[i][0].dts
  {
  }

  lemma AllFromSplit(done: seq<Fragment>, logs: seq<seq<Sent>>)
    requires done != [] && AllFrom(done, logs)
    ensures AllFrom(done[..|done| - 1], logs) && From(done[|done| - 1], logs)
  {
    hide From;
  }

  /** Over a whole run: the samples of a track that have been flushed are read back in their order,
      each with its bytes and times. */
  lemma {:induction false} RunRead(d: seq<byte>, done: seq<Fragment>, i: nat, logs: seq<seq<Sent>>)
    requires AllSound(done) && AllFrom(done, logs) && AllFit(done, i)
    requires At(d, 0, FileOf(done)) && |d| < 0x8000_0000_0000_0000
    requires i < |logs| && logs[i] != []
    requires Steady(Flushed(done, i)) && InRange(Flushed(done, i), logs[i][0].dts)
    ensures AllSame(d, ReadOf(done, i), Flushed(done, i), logs[i][0].dts)
  {
    hide At, FileOf, FragmentBytes, Sound, From, Fits, AllFit, ReadOf, Flushed, FlushedIn, ReadSamples, DataStart, AllSame,
         Steady, InRange, AllSound, AllFrom, HeadBytes, MoofAt;
    var start := logs[i][0].dts;
    if done == [] {
      NoneSame(d, i, start);
    } else {
      var n := |done| - 1;
      var f := done[n];
      SoundSplit(done);
      FlushedSplit(done, i);
      ReadOfSplit(done, i);
      FitSplit(done, i);
      AllFromSplit(done, logs);
      AtConcat(d, 0, FileOf(done[..n]), FragmentBytes(f));
      if HasSamples(f, i) {
        FromStart(f, logs, i);
        SteadySplit(Flushed(done[..n], i), FlushedIn(f, i), start);
        FragmentSame(d, |FileOf(done[..n])|, f, i);
        RunRead(d, done[..n], i, logs);
        AllSameConcat(d, ReadOf(done[..n], i), Flushed(done[..n], i),
                      ReadSamples(f.vs[i], |FileOf(done[..n])| + |HeadBytes(f)|, DataStart(f), |f.vs[i].ms|),
                      FlushedIn(f, i), start);
      } else {
        RunRead(d, done[..n], i, logs);
      }
    }
  }

  lemma NoneSame(d: seq<byte>, i: nat, start: int)
    ensures AllSame(d, ReadOf([], i), Flushed([], i), start)
  {
  }

  /** What has been flushed is the front of what was sent. */
  lemma FlushedFront(w: FWriter, i: nat)
    requires w.Valid() && i < |w.tracks|
    ensures Flushed(w.done, i) <= w.logs[i]
    ensures w.tracks[i].samples == [] ==> Flushed(w.done, i) == w.logs[i]
  {
    hide FileOf, Flushed;
    assert w.AllKept(w.logs);
    assert Kept(w.tracks[i].samples, w.tracks[i].startDts, w.tracks[i].lastDts, w.logs[i], Flushed(w.done, i));
  }

  ghost predicate Regular(log: seq<Sent>) {
    log != [] && Steady(log) && InRange(log, log[0].dts)
  }

  /** Reading what a writer has written so far, with a reader that knows nothing. Every flushed sample
      comes back, first to last, exactly when nothing was flushed after the end of a segment, no flushed
      sample is of a track added after the first flush, and no segment was closed with a track that the
      first moov does not announce. Then, for every track whose times keep within their fields and whose
      fragments fit, each has its bytes and its times. */
  method ReadFragments(w: FWriter) returns (r: int, reader: MovReader.Reader)
    requires w.Valid() && AllLimited(w.done) && ShortIndexes(w.trailing) && |w.io.data| < 0x8000_0000_0000_0000
    modifies w.io`pos, w.io`error
    ensures ReadRun(w.done, w.trailing).Some? <==> r == 0
    ensures r == 0 ==> forall i: nat :: SamplesOf(MovReader.Views(reader.tracks), i) == ReadSince(w.done, i)
    ensures OneMoov(w.done) ==> (r == 0 <==> NoLateTrack(w.done) && IndexesKnown(w.done, w.trailing))
    ensures (r == 0 && forall i: nat :: SamplesOf(MovReader.Views(reader.tracks), i) == ReadOf(w.done, i))
        <==> OneMoov(w.done) && NoLateTrack(w.done) && IndexesKnown(w.done, w.trailing)
    ensures r == 0 && w.trailing != [] ==>
      var last := w.trailing[|w.trailing| - 1];
      |last| <= |reader.tracks| && forall i :: 0 <= i < |last| ==> MovReader.Views(reader.tracks)[i].frags == last[i]
    ensures forall i :: 0 <= i < |w.tracks| && Regular(w.logs[i]) && AllFit(w.done, i) ==>
        AllSame(w.io.data, ReadOf(w.done, i), Flushed(w.done, i), w.logs[i][0].dts)
  {
    hide ParseBoxes, FileOf, AllLimited, ReadRun, ReadOf, ReadSince, Flushed, AllSame, Steady, InRange, Mfras, ShortIndexes,
         AllFit, AllSound, AllFrom, Widening, FWriter.InQueues, FWriter.InIndex, OneMoov, NoLateTrack, IndexesKnown, SamplesOf;
    ghost var d := w.io.data;
    forall i | 0 <= i < |w.tracks| && Regular(w.logs[i]) && AllFit(w.done, i)
      ensures AllSame(d, ReadOf(w.done, i), Flushed(w.done, i), w.logs[i][0].dts)
    {
      RegularRead(w, i);
    }
    WholeFile(w.done, w.trailing, w.logs);
    AllComesBack(w.done, w.trailing, w.logs);
    if OneMoov(w.done) {
      RunKnown(w.done, w.trailing, w.logs);
    }
    if ReadRun(w.done, w.trailing).Some? {
      ReadRunOf(w.done, w.trailing, w.logs);
      if w.trailing != [] {
        LastRead(w.done, w.trailing);
      }
    }
    w.io.Seek(0);
    reader := new MovReader.Reader(w.io);
    r := reader.ReadFile();
  }

  lemma LastRead(done: seq<Fragment>, trailing: seq<Index>)
    requires ReadRun(done, trailing).Some? && trailing != []
    ensures var last, ts := trailing[|trailing| - 1], ReadRun(done, trailing).value;
      |last| <= |ts| && forall i :: 0 <= i < |last| ==> ts[i].frags == last[i]
  {
    hide ReadAll;
    LastIndex(ReadAll(done).value, trailing);
  }

  lemma RegularRead(w: FWriter, i: nat)
    requires w.Valid() && i < |w.tracks| && Regular(w.logs[i]) && AllFit(w.done, i)
    requires |w.io.data| < 0x8000_0000_0000_0000
    ensures AllSame(w.io.data, ReadOf(w.done, i), Flushed(w.done, i), w.logs[i][0].dts)
  {
    hide FileOf, ReadOf, Flushed, AllSame, Steady, InRange, Mfras, AllFit, AllSound, AllFrom, Widening, FWriter.InIndex;
    FlushedFront(w, i);
    var d := w.io.data;
    var rest := w.logs[i][|Flushed(w.done, i)|..];
    assert w.logs[i] == Flushed(w.done, i) + rest;
    SteadySplit(Flushed(w.done, i), rest, w.logs[i][0].dts);
    EndToEnd.AtWhole(d);
    AtConcat(d, 0, FileOf(w.done), Mfras(w.trailing));
    RunRead(d, w.done, i, w.logs);
  }

  /** The file of a writer that has been destroyed ends with an index of all tracks: then everything comes
      back exactly when there is one moov and it announces every track there is. */
  lemma ClosedFile(w: FWriter)
    requires w.Valid() && w.trailing != [] && |w.trailing[|w.trailing| - 1]| == |w.tracks|
    ensures OneMoov(w.done) && NoLateTrack(w.done) && IndexesKnown(w.done, w.trailing)
        <==> OneMoov(w.done) && AllAnnounced(w.done, |w.tracks|)
  {
    hide FileOf, Mfras, AllSound, AllFrom, Widening, FWriter.OnFile, FWriter.InQueues, OneMoov, MarksOf;
    NotWider(w.done, w.logs);
    var n := |w.trailing| - 1;
    assert w.trailing == w.trailing[..n] + [w.trailing[n]];
  }

  /** The first moov announces all `n` tracks, and no index in front of it names one. */
  predicate AllAnnounced(done: seq<Fragment>, n: nat) {
    if done == [] then n == 0 else AllWithin(done[0].before, 0) && |done[0].vs| == n
  }

  /** The fragments and indexes of a writer once it is destroyed. */
  ghost function ClosedFragments(w: FWriter): seq<Fragment>
    reads w, w.tracks
  {
    if w.mdatSize > 0 then w.done + [w.Pending()] else w.done
  }

  ghost function ClosedIndexes(w: FWriter): seq<Index>
    reads w, w.tracks
  {
    (if w.mdatSize > 0 then [] else w.trailing) + [SegmentIndex(ClosedFragments(w), w.segment, |w.tracks|)]
  }

  /** The closed file is within the limits of the format. */
  ghost predicate Closable(w: FWriter)
    reads w, w.tracks
  {
    && AllLimited(ClosedFragments(w)) && ShortIndexes(ClosedIndexes(w))
    && |FileOf(ClosedFragments(w)) + Mfras(ClosedIndexes(w))| < 0x8000_0000_0000_0000
  }

  /** Destroying a writer at the end of any run, then reading the file. Everything comes back exactly when
      there is one moov, it announces every track there is, and no segment was closed before it with a
      track. Of what was sent nothing is left in the queues (unless all of that is empty samples), and
      the reader has the place of every fragment of the last segment. */
  method DestroyAndRead(w: FWriter) returns (r: int, reader: MovReader.Reader)
    requires w.Valid() && Closable(w)
    modifies w`mdatSize, w`hasMoov, w`fragmentId, w`done, w`trailing, w`segment, w.io, w.tracks
    ensures w.logs == old(w.logs) && w.done == old(ClosedFragments(w)) && w.trailing == old(ClosedIndexes(w))
    ensures w.tracks == old(w.tracks) && |w.logs| == |w.tracks|
    ensures (r == 0 && forall i: nat :: SamplesOf(MovReader.Views(reader.tracks), i) == ReadOf(w.done, i))
        <==> OneMoov(w.done) && AllAnnounced(w.done, |w.tracks|)
    ensures old(w.mdatSize) > 0 ==> forall i :: 0 <= i < |w.tracks| ==> Flushed(w.done, i) == w.logs[i]
    ensures r == 0 ==> forall i :: 0 <= i < |w.tracks| ==>
      i < |reader.tracks| && MovReader.Views(reader.tracks)[i].frags == MarksOf(w.done, old(w.segment), i)
    ensures forall i :: 0 <= i < |w.tracks| && Regular(w.logs[i]) && AllFit(w.done, i) ==>
        AllSame(w.io.data, ReadOf(w.done, i), Flushed(w.done, i), w.logs[i][0].dts)
  {
    hide FWriter.Valid, AllLimited, ShortIndexes, SamplesOf, MovReader.Views, ReadOf, OneMoov, NoLateTrack, IndexesKnown,
         AllAnnounced, Flushed, MarksOf, Regular, AllFit, AllSame, ReadRun, FileOf, Mfras, FWriter.Pending, ReadSince;
    assert w.done + [] == w.done;
    w.Destroy();
    DataIs(w);
    ClosedFile(w);
    forall i | 0 <= i < |w.tracks|
      ensures w.tracks[i].samples == [] ==> Flushed(w.done, i) == w.logs[i]
    {
      FlushedFront(w, i);
    }
    LogsFor(w);
    r, reader := ReadFragments(w);
  }

  lemma DataIs(w: FWriter)
    requires w.Valid()
    ensures w.io.data == FileOf(w.done) + Mfras(w.trailing)
  {
  }

  lemma LogsFor(w: FWriter)
    requires w.Valid()
    ensures |w.logs| == |w.tracks|
  {
  }

  lemma {:induction false} FileFront(done: seq<Fragment>, k: nat)
    requires k <= |done|
    ensures FileOf(done[..k]) <= FileOf(done)
    decreases |done|
  {
    hide FragmentBytes;
    if k < |done| {
      FileFront(done[..|done| - 1], k);
      assert done[..|done| - 1][..k] == done[..k];
    } else {
      assert done[..k] == done;
    }
  }

  lemma FragmentAt(d: seq<byte>, done: seq<Fragment>, k: nat)
    requires k < |done| && At(d, 0, FileOf(done))
    ensures At(d, |FileOf(done[..k])|, FragmentBytes(done[k]))
  {
    hide FileOf, FragmentBytes, At;
    FileFront(done, k + 1);
    var rest := FileOf(done)[|FileOf(done[..k + 1])|..];
    assert FileOf(done) == FileOf(done[..k + 1]) + rest;
    AtConcat(d, 0, FileOf(done[..k + 1]), rest);
    assert done[..k + 1] == done[..k] + [done[k]];
    FileOfSnoc(done[..k], done[k]);
    AtConcat(d, 0, FileOf(done[..k]), FragmentBytes(done[k]));
  }

  lemma MoofInFragment(d: seq<byte>, p: nat, f: Fragment)
    requires At(d, p, FragmentBytes(f))
    ensures At(d, p + |HeadBytes(f)|, MoofBox(f.vs, f.id, DataStart(f))) && p + |HeadBytes(f)| <= |d|
  {
    hide At, MoofBox, HeadBytes, MdatHeader, JoinAll, DataStart;
    var moof := MoofBox(f.vs, f.id, DataStart(f));
    AtConcat(d, p, HeadBytes(f) + moof + MdatHeader(Bulk(f.vs)), JoinAll(f.data));
    AtConcat(d, p, HeadBytes(f) + moof, MdatHeader(Bulk(f.vs)));
    AtConcat(d, p, HeadBytes(f), moof);
    AtBound(d, p + |HeadBytes(f)|, moof);
  }

  /** Where an index says that a fragment of a track stands, its moof does. */
  lemma MarkPoints(d: seq<byte>, done: seq<Fragment>, k: nat, i: nat)
    requires k < |done| && HasSamples(done[k], i) && At(d, 0, FileOf(done)) && |d| < 0x1_0000_0000_0000_0000
    ensures MarkOf(done, k, i).offset == MoofAt(done, k)
    ensures MarkOf(done, k, i).time == U64(done[k].vs[i].ms[0].dts)
    ensures At(d, MarkOf(done, k, i).offset, MoofBox(done[k].vs, done[k].id, DataStart(done[k])))
  {
    hide FileOf, MoofBox, HeadBytes, FragmentBytes, DataStart;
    FragmentAt(d, done, k);
    MoofInFragment(d, |FileOf(done[..k])|, done[k]);
  }

  /** Over a whole run the fragments are numbered from 1, across segments too. */
  lemma FragmentNumbers(w: FWriter, k: nat)
    requires w.Valid() && k < |w.done|
    ensures w.done[k].id == k + 1 && w.fragmentId == |w.done|
  {
    hide FWriter.OnFile, FWriter.InQueues, AllFrom, Widening;
  }

  /** An index lists the fragments that have samples of a track, all of them, in their order. */
  lemma {:induction false} MarksAre(done: seq<Fragment>, from: nat, i: nat, k: nat)
    requires from <= k < |done|
    ensures |MarksOf(done[..k], from, i)| <= |MarksOf(done, from, i)|
    ensures HasSamples(done[k], i) ==>
      |MarksOf(done[..k], from, i)| < |MarksOf(done, from, i)|
      && MarksOf(done, from, i)[|MarksOf(done[..k], from, i)|] == MarkOf(done, k, i)
    decreases |done|
  {
    hide MarkOf, HasSamples;
    var n := |done| - 1;
    if k < n {
      assert done[..n][..k] == done[..k];
      MarksAre(done[..n], from, i, k);
      if HasSamples(done[k], i) {
        SameMark(done, k, n, i);
      }
    }
  }

  lemma SameMark(done: seq<Fragment>, k: nat, n: nat, i: nat)
    requires k < n <= |done| && HasSamples(done[k], i)
    ensures HasSamples(done[..n][k], i) && MarkOf(done[..n], k, i) == MarkOf(done, k, i)
  {
    hide FileOf, HeadBytes;
    assert done[..n][..k] == done[..k];
  }

  // ---- From fragment to fragment ----

  /** Wherever a fragment holds samples of track `i`, the next one (or the queue) goes on at the very
      time where its durations end. */
  ghost predicate Seamless(done: seq<Fragment>, i: nat, queue: seq<Packet>, start: int) {
    forall k :: 0 <= k < |done| && HasSamples(done[k], i) ==> Joined(done, i, queue, start, k)
  }

  ghost predicate Joined(done: seq<Fragment>, i: nat, queue: seq<Packet>, start: int, k: nat)
    requires k < |done| && HasSamples(done[k], i)
  {
    if k + 1 < |done| then HasSamples(done[k + 1], i) && EndTime(done[k].vs[i]) == BeginTime(done[k + 1].vs[i])
    else queue != [] && EndTime(done[k].vs[i]) == queue[0].m.dts - start
  }

  /** More samples in the queue. */
  lemma SeamlessGrow(done: seq<Fragment>, i: nat, queue: seq<Packet>, queue': seq<Packet>, start: int, start': int)
    requires Seamless(done, i, queue, start) && queue <= queue' && (queue != [] ==> start' == start)
    ensures Seamless(done, i, queue', start')
  {
    hide EndTime, BeginTime, HasSamples;
    forall k | 0 <= k < |done| && HasSamples(done[k], i)
      ensures Joined(done, i, queue', start', k)
    {
      assert Joined(done, i, queue, start, k);
    }
  }

  /** A flush right before a sample that goes on where the last duration ends. */
  lemma SeamlessFlush(done: seq<Fragment>, i: nat, queue: seq<Packet>, start: int, f: Fragment, p: Packet)
    requires Seamless(done, i, queue, start) && (HasSamples(f, i) <==> queue != [])
    requires queue != [] ==> BeginTime(f.vs[i]) == queue[0].m.dts - start && EndTime(f.vs[i]) == p.m.dts - start
    ensures Seamless(done + [f], i, [p], start)
  {
    hide EndTime, BeginTime;
    var all := done + [f];
    forall k | 0 <= k < |all| && HasSamples(all[k], i)
      ensures Joined(all, i, [p], start, k)
    {
      if k < |done| {
        assert Joined(done, i, queue, start, k);
        assert all[k] == done[k];
        assert all[k + 1] == if k + 1 < |done| then done[k + 1] else f;
      }
    }
  }

  function First(log: seq<Sent>): int { if log == [] then INT64_MIN else log[0].dts }

  /** The fragment that is flushed when a video track starts a new one. */
  lemma TurnedTimes(w: FWriter, i: nat, dts: int)
    requires w.Valid() && i < |w.tracks| && w.tracks[i].samples != []
    requires Steady(w.logs[i]) && 0 <= dts - w.logs[i][|w.logs[i]| - 1].dts <= UINT32_MAX
    ensures var f, ps := w.Turned(i, dts), w.tracks[i].samples;
      HasSamples(f, i) && BeginTime(f.vs[i]) == ps[0].m.dts - First(w.logs[i]) && EndTime(f.vs[i]) == dts - First(w.logs[i])
  {
    hide FileOf, LaidAll, Bulk, Laid, Views, AllFrom, AllSound, Steady, Elapsed, Sum, Sizes, DtsOrdered, FWriter.InIndex,
         FWriter.OnFile, Widening, FWriter.Announcement;
    var t, log := w.tracks[i], w.logs[i];
    var vs := Views(w.tracks);
    ViewsAt(w.tracks);
    var us := vs[i := vs[i].(last := w.StepTo(t.lastDts, dts))];
    LaidAllAt(us, i);
    assert w.AllKept(w.logs);
    assert Kept(t.samples, t.startDts, t.lastDts, log, Flushed(w.done, i));
    var ms, ds := MediasOf(t.samples), DataOf(t.samples);
    var queue := SentOf(ms, ds);
    assert log == Flushed(w.done, i) + queue;
    SteadyRear(Flushed(w.done, i), queue);
    var n := |ms| - 1;
    assert log[|log| - 1] == queue[n] && queue[n].dts == ms[n].dts;
    SentLaid(ms, Bulk(us[..i]), ds);
    SentOrdered(Laid(ms, Bulk(us[..i])), ds);
    var v := w.Turned(i, dts).vs[i];
    assert v.ms == Laid(ms, Bulk(us[..i])) && v.last == w.StepTo(t.lastDts, dts) == dts - ms[n].dts;
    LaidAt(ms, Bulk(us[..i]), 0);
    LaidAt(ms, Bulk(us[..i]), n);
    EndTimeIs(v);
  }

  lemma SteadyRear(a: seq<Sent>, b: seq<Sent>)
    requires Steady(a + b)
    ensures Steady(b)
  {
    var c := a + b;
    forall x | 0 <= x < |b| - 1
      ensures 0 <= b[x + 1].dts - b[x].dts <= UINT32_MAX
    {
      assert c[|a| + x] == b[x] && c[|a| + x + 1] == b[x + 1];
    }
  }

  lemma TurnedEmpty(w: FWriter, i: nat, dts: int)
    requires w.Valid() && i < |w.tracks| && w.tracks[i].samples == []
    ensures !HasSamples(w.Turned(i, dts), i)
  {
    hide FileOf, LaidAll, Bulk, Views, AllFrom, AllSound;
    ViewsAt(w.tracks);
    var vs := Views(w.tracks);
    LaidAllAt(vs[i := vs[i].(last := w.StepTo(w.tracks[i].lastDts, dts))], i);
  }

  lemma LogFacts(w: FWriter, i: nat)
    requires w.Valid() && i < |w.tracks|
    ensures |w.logs| == |w.tracks| && (w.tracks[i].samples != [] ==> w.logs[i] != [])
  {
    hide FileOf, Bulk, AllFrom, AllSound;
    assert w.AllKept(w.logs);
    assert Kept(w.tracks[i].samples, w.tracks[i].startDts, w.tracks[i].lastDts, w.logs[i], Flushed(w.done, i));
  }

  lemma LogMore(log: seq<Sent>, s: Sent)
    requires Steady(log) && (log != [] ==> 0 <= s.dts - log[|log| - 1].dts <= UINT32_MAX)
    ensures Steady(log + [s]) && (log != [] ==> First(log + [s]) == First(log))
  {
  }

  /** With one video track, and so no flush but at its own key frames, every sample that is written
      leaves its fragments without a gap or an overlap. */
  method WriteSeamless(w: FWriter, i: nat, idx: nat, data: seq<byte>, pts: int, dts: int, flags: int)
    requires w.Valid() && i < |w.tracks| && idx < |w.tracks| && |data| <= UINT32_MAX && dts > INT64_MIN
    requires forall k :: 0 <= k < |w.tracks| && w.tracks[k].header.handler == Video ==> k == i
    requires Seamless(w.done, i, w.tracks[i].samples, First(w.logs[i])) && Steady(w.logs[i])
    requires idx == i && w.logs[i] != [] ==> 0 <= dts - w.logs[i][|w.logs[i]| - 1].dts <= UINT32_MAX
    modifies w`mdatSize, w`hasMoov, w`fragmentId, w`done, w`trailing, w`logs, w.io, w.tracks
    ensures w.Valid() && w.logs == old(w.logs)[idx := old(w.logs)[idx] + [Sent(flags, pts, dts, data)]]
    ensures Seamless(w.done, i, w.tracks[i].samples, First(w.logs[i])) && Steady(w.logs[i])
  {
    hide Seamless, FWriter.Valid, FWriter.Turned, EndTime, BeginTime, HasSamples, First, Steady;
    LogFacts(w, i);
    ghost var done, queue, log, flushes := w.done, w.tracks[i].samples, w.logs[i], w.Flushes(idx, flags);
    ghost var f := w.Turned(idx, dts);
    if flushes && queue != [] {
      TurnedTimes(w, i, dts);
    } else if flushes {
      TurnedEmpty(w, i, dts);
    }
    var r := w.Write(idx, data, pts, dts, flags);
    if idx == i {
      LogMore(log, Sent(flags, pts, dts, data));
    }
    assert !flushes ==> w.done == done;
    SeamlessGrow(done, i, queue, if flushes then queue else w.tracks[i].samples, First(log), First(w.logs[i]));
    if flushes {
      assert w.done == done + [f];
      assert w.tracks[i].samples == [w.tracks[i].samples[0]];
      SeamlessFlush(done, i, queue, First(w.logs[i]), f, w.tracks[i].samples[0]);
    }
  }
}
