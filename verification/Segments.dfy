/** A run of two segments in one file, and what a reader is left with. */
module Segments {
  import opened Bytes
  import opened Options
  import opened SampleTables
  import opened TrackBoxes
  import opened ReadBack
  import opened IoUtil
  import opened FragmentBoxes
  import opened FragmentIntro
  import opened IndexBoxes
  import opened IndexRead
  import opened FragmentRead
  import opened FragmentWriters
  import opened Fmp4Writer
  import opened FragmentFile
  import opened FragmentEnd
  import opened IntroRead
  import MovReader

  /** The indexes in front of fragment `k` name only tracks that the moov before them announces. */
  predicate Reached(done: seq<Fragment>, k: nat)
    requires k < |done|
  {
    AllWithin(done[k].before, if k == 0 then 0 else |done[k - 1].vs|)
  }

  /** When every fragment has a moov in front of it, and no index names a track that the moov before it
      does not, reading succeeds. */
  lemma {:induction false} AllHeaded(done: seq<Fragment>, logs: seq<seq<Sent>>)
    requires AllFrom(done, logs) && Widening(done) && forall k :: 0 <= k < |done| ==> done[k].head.Some?
    requires forall k :: 0 <= k < |done| ==> Reached(done, k)
    ensures ReadAll(done).Some? && |ReadAll(done).value| == if done == [] then 0 else |done[|done| - 1].vs|
  {
    hide AllFrom, Widening, From, Numbered, MoofAt, DataStart, Front, AbsorbAll, ReadAll, AllWithin;
    if done == [] {
      NothingRead();
    } else {
      var n := |done| - 1;
      RunSplit(done, logs);
      ReadAllSplit(done);
      forall k | 0 <= k < n
        ensures Reached(done[..n], k)
      {
        assert Reached(done, k);
      }
      AllHeaded(done[..n], logs);
      assert Reached(done, n);
      ReadAllOf(done[..n], logs);
      Widens(done, logs);
      FrontIs(ReadAll(done[..n]).value, done[n], logs);
    }
  }

  /** A fragment of one sample in the only track, behind a moov. */
  ghost predicate Single(f: Fragment, h: Header) {
    && f.head == Some(Intro(0, 2, [], [h]))
    && |f.vs| == 1 && |f.vs[0].ms| == 1
  }

  /** An index of at most one fragment of the only track. */
  predicate Brief(m: Index) { |m| == 1 && |m[0]| <= 1 }

  predicate AllBrief(ms: seq<Index>) {
    |ms| <= 1 && forall k :: 0 <= k < |ms| ==> Brief(ms[k])
  }

  lemma BriefShort(ms: seq<Index>)
    requires AllBrief(ms)
    ensures ShortIndexes(ms) && |Mfras(ms)| <= 100 && AllWithin(ms, 1)
  {
    hide TfraBox, MfroBox;
    if ms != [] {
      assert ms[0][..0] == [] && ms[..0] == [];
      assert |Tfras(ms[0])| == |TfraBox(1, ms[0][0])|;
    }
  }

  lemma SingleLimited(f: Fragment, h: Header)
    requires Single(f, h) && AllBrief(f.before) && Sound(f) && IsStsd(h.stsd) && |h.stsd| <= 0x1_0000
    ensures Limited(f)
  {
    hide MoofBox, Sound, TrakBox, TrexBox, MvhdBox, IsStsd, FtypBox, AllBrief, ShortIndexes;
    BriefShort(f.before);
    MoofBound(f);
    assert f.vs[..0] == [] && Weight(f.vs) == Weight([]) + 84 + 12;
    TrakBound(h);
    OneTrak(h);
    assert |FtypBox()| == 36 by { FtypSize(); }
  }

  lemma FtypSize()
    ensures |FtypBox()| == 36
  {
  }

  lemma OneTrak(h: Header)
    ensures |EmptyTraks([h])| == |TrakBox(Unfilled(h))| && |Trexes([h])| == 32
  {
    hide TrakBox;
    assert [h][..0] == [];
  }

  lemma TrakBound(h: Header)
    ensures |TrakBox(Unfilled(h))| <= 600 + |h.stsd|
  {
    hide StblBody;
    StblBound(h);
  }

  lemma StblBound(h: Header)
    ensures |StblBody(Unfilled(h))| <= 84 + |h.stsd|
  {
    hide BE32;
  }

  /** What is pending when the only track has one sample. */
  lemma OneQueued(w: FWriter, p: Packet)
    requires w.Valid() && |w.tracks| == 1 && w.tracks[0].samples == [p] && !w.hasMoov && w.created == 0 && w.udta == []
    ensures Single(w.Pending(), w.tracks[0].header) && w.Pending().before == w.trailing && w.mdatSize == p.m.bytes
  {
    hide Datas, FWriter.AllKept, Flushed, Kept, AllFrom, Widening, Laid, FWriter.InIndex, FWriter.OnFile;
    var vs := Views(w.tracks);
    ViewsAt(w.tracks);
    assert vs[..0] == [] && LaidAll(vs[..0]) == [] && Bulk(vs[..0]) == 0;
    assert Sizes(vs[0].ms) == [p.m.bytes];
    SumOne(p.m.bytes);
    assert HeadersOf(w.tracks) == [w.tracks[0].header];
  }

  /** Two fragments of one sample, each behind a moov. */
  lemma SecondOnly(done: seq<Fragment>, h: Header)
    requires |done| == 2 && Single(done[0], h) && Single(done[1], h)
    ensures |ReadSince(done, 0)| == 1
  {
    hide MoofAt, DataStart;
  }

  /** The index of a segment of at most one fragment. */
  lemma SegmentBrief(done: seq<Fragment>, from: nat)
    requires |done| <= from + 1
    ensures Brief(SegmentIndex(done, from, 1))
  {
    hide MarkOf;
    if |done| > from {
      assert MarksOf(done[..|done| - 1], from, 0) == [];
    }
  }

  /** A key frame in the empty queue of the only track. */
  method QueueOne(w: FWriter, data: byte, dts: int)
    requires w.Valid() && |w.tracks| == 1 && w.tracks[0].samples == [] && w.mdatSize == 0 && dts > INT64_MIN
    modifies w`mdatSize, w`hasMoov, w`fragmentId, w`done, w`trailing, w`logs, w.io, w.tracks
    ensures w.Valid() && |w.tracks[0].samples| == 1 && w.tracks[0].samples[0].m.bytes == 1
    ensures |w.logs| == 1 && w.logs[0] == old(w.logs[0]) + [Sent(KEYFRAME, dts, dts, [data])]
    ensures w.done == old(w.done) && w.trailing == old(w.trailing) && w.hasMoov == old(w.hasMoov)
  {
    hide FWriter.Valid, FWriter.Turned;
    LogWidth(w);
    var s := w.Write(0, [data], dts, dts, KEYFRAME);
  }

  /** A segment of one key frame. */
  method WriteSegment(w: FWriter, data: byte, dts: int)
    requires w.Valid() && |w.tracks| == 1 && w.tracks[0].samples == [] && !w.hasMoov && w.created == 0 && w.udta == []
    requires w.mdatSize == 0 && dts > INT64_MIN && w.segment == |w.done|
    modifies w`mdatSize, w`hasMoov, w`fragmentId, w`done, w`trailing, w`segment, w`logs, w.io, w.tracks
    ensures w.Valid() && w.tracks[0].samples == [] && !w.hasMoov && w.mdatSize == 0 && w.segment == |w.done|
    ensures |w.logs| == 1 && w.logs[0] == old(w.logs[0]) + [Sent(KEYFRAME, dts, dts, [data])]
    ensures |w.done| == |old(w.done)| + 1 && w.done[..|old(w.done)|] == old(w.done)
    ensures Single(w.done[|old(w.done)|], w.tracks[0].header) && w.done[|old(w.done)|].before == old(w.trailing)
    ensures |w.trailing| == 1 && Brief(w.trailing[0])
  {
    hide FWriter.Valid, FWriter.Pending, Single, SegmentIndex, Brief;
    QueueOne(w, data, dts);
    OneQueued(w, w.tracks[0].samples[0]);
    w.SaveSegment();
    SegmentBrief(w.done, |old(w.done)|);
  }

  lemma LogWidth(w: FWriter)
    requires w.Valid()
    ensures |w.logs| == |w.tracks|
  {
  }

  method OneVideo(io: Io, header: Header) returns (w: FWriter)
    requires io.error == 0 && io.data == [] && io.pos == 0
    ensures w.Valid() && fresh(w) && w.io == io && |w.tracks| == 1 && fresh(w.tracks[0]) && w.tracks[0].samples == []
    ensures w.tracks[0].header == header.(id := 1) && w.logs == [[]] && w.done == [] && w.trailing == []
    ensures !w.hasMoov && w.created == 0 && w.udta == [] && w.mdatSize == 0 && w.segment == 0 && w.nextId == 2
  {
    hide FWriter.Valid;
    w := new FWriter(io, 0);
    var i := w.AddTrack(header);
  }

  /** Two key frames, a segment each. */
  method WriteSegments(io: Io, header: Header) returns (w: FWriter)
    requires io.error == 0 && io.data == [] && io.pos == 0
    modifies io
    ensures w.Valid() && w.io == io && |w.tracks| == 1 && w.tracks[0].samples == []
    ensures |w.logs| == 1 && w.logs[0] == [Sent(KEYFRAME, 0, 0, [7]), Sent(KEYFRAME, 40, 40, [8])]
    ensures w.tracks[0].header == header.(id := 1) && |w.done| == 2
    ensures Single(w.done[0], w.tracks[0].header) && Single(w.done[1], w.tracks[0].header)
    ensures w.done[0].before == [] && AllBrief(w.done[1].before) && AllBrief(w.trailing)
  {
    hide FWriter.Valid, Single, Brief;
    w := OneVideo(io, header);
    WriteSegment(w, 7, 0);
    assert w.logs[0] == [Sent(KEYFRAME, 0, 0, [7])];
    WriteSegment(w, 8, 40);
    assert w.done[0] == w.done[..1][0];
  }

  /** A reader of both succeeds and has only the second. */
  method TwoSegments(io: Io, header: Header) returns (w: FWriter, r: int, reader: MovReader.Reader)
    requires io.error == 0 && io.data == [] && io.pos == 0
    requires IsStsd(header.stsd) && |header.stsd| <= 0x1_0000
    modifies io
    ensures |w.logs| == 1 && w.logs[0] == [Sent(KEYFRAME, 0, 0, [7]), Sent(KEYFRAME, 40, 40, [8])]
    ensures |w.tracks| == 1 && w.tracks[0].samples == []
    ensures r == 0 && |SamplesOf(MovReader.Views(reader.tracks), 0)| == 1
  {
    hide FWriter.Valid, ReadRun, OneMoov, NoLateTrack, IndexesKnown, ReadOf, ReadSince, SamplesOf, MovReader.Views, IsStsd,
         Single, AllLimited, ShortIndexes, AllBrief;
    w := WriteSegments(io, header);
    Headed(w, w.tracks[0].header);
    SecondOnly(w.done, w.tracks[0].header);
    r, reader := ReadFragments(w);
  }

  lemma Headed(w: FWriter, h: Header)
    requires w.Valid() && |w.done| == 2 && Single(w.done[0], h) && Single(w.done[1], h)
    requires w.done[0].before == [] && AllBrief(w.done[1].before) && AllBrief(w.trailing)
    requires IsStsd(h.stsd) && |h.stsd| <= 0x1_0000
    ensures AllLimited(w.done) && ShortIndexes(w.trailing) && ReadRun(w.done, w.trailing).Some?
    ensures |w.io.data| < 0x8000_0000_0000_0000
  {
    hide ReadAll, AllFrom, Widening, Limited, Sound, IsStsd, FragmentBytes, FWriter.InQueues, FWriter.InIndex, Numbered,
         ShortIndexes, AllWithin, Mfras, WithIndexes;
    NoneWithin(0);
    BriefShort(w.done[1].before);
    BriefShort(w.trailing);
    SingleLimited(w.done[0], h);
    SingleLimited(w.done[1], h);
    AllHeaded(w.done, w.logs);
    ReadAllOf(w.done, w.logs);
    IndexesKeep(ReadAll(w.done).value, w.trailing);
    SingleShort(w.done[0], h);
    SingleShort(w.done[1], h);
    assert w.done[..1] == [w.done[0]] && w.done[..1][..0] == [];
    assert |FileOf(w.done[..1])| == |FragmentBytes(w.done[0])|;
  }

  lemma SingleShort(f: Fragment, h: Header)
    requires Single(f, h) && AllBrief(f.before) && Limited(f) && Sound(f)
    ensures |FragmentBytes(f)| < 0x10_0000_0000
  {
    hide MoofBox, LaidAll, Mfras, IntroOf, JoinAll, IsStsd, AllBrief;
    BriefShort(f.before);
    SoundData(f);
    MoofSize(f.vs, f.id, 0, DataStart(f));
    assert f.vs[..0] == [] && Bulk(f.vs) == Bulk([]) + Sum(Sizes(f.vs[0].ms));
    assert f.vs[0].ms == [f.vs[0].ms[0]] && Sizes(f.vs[0].ms) == [f.vs[0].ms[0].bytes];
    SumOne(f.vs[0].ms[0].bytes);
  }

  // ---- Closed files that cannot be read ----

  /** What the second key frame of the only track flushes. */
  lemma OneTurned(w: FWriter, p: Packet, dts: int)
    requires w.Valid() && |w.tracks| == 1 && w.tracks[0].samples == [p] && !w.hasMoov && w.created == 0 && w.udta == []
    ensures Single(w.Turned(0, dts), w.tracks[0].header) && w.Turned(0, dts).before == w.trailing
    ensures w.mdatSize == p.m.bytes
  {
    hide Datas, FWriter.AllKept, Flushed, Kept, AllFrom, Widening, Laid, Single, FWriter.InIndex;
    OneQueued(w, p);
    var vs := Views(w.tracks);
    ViewsAt(w.tracks);
    LaidAllAt(vs, 0);
    LaidAllAt(vs[0 := vs[0].(last := w.StepTo(w.tracks[0].lastDts, dts))], 0);
    TurnedSingle(w.Pending(), w.Turned(0, dts), w.tracks[0].header);
  }

  lemma TurnedSingle(f: Fragment, g: Fragment, h: Header)
    requires Single(f, h) && g.head == f.head && |g.vs| == |f.vs| && |g.vs[0].ms| == |f.vs[0].ms|
    ensures Single(g, h)
  {
  }

  /** A fragment without a moov: one sample in the first of two tracks. */
  ghost predicate Second(f: Fragment) {
    f.before == [] && f.head == None && |f.vs| == 2 && |f.vs[0].ms| == 1 && f.vs[1].ms == []
  }

  /** What is pending when the second of two tracks has no sample. */
  lemma OnePending(w: FWriter)
    requires w.Valid() && |w.tracks| == 2 && |w.tracks[0].samples| == 1 && w.tracks[1].samples == [] && w.hasMoov
    ensures Second(w.Pending())
  {
    hide Datas, FWriter.AllKept, Flushed, Kept, AllFrom, Widening, Laid, FWriter.InIndex, FWriter.OnFile;
    var vs := Views(w.tracks);
    ViewsAt(w.tracks);
    LaidAllAt(vs, 0);
    LaidAllAt(vs, 1);
  }

  lemma SecondLimited(f: Fragment)
    requires Second(f) && Sound(f)
    ensures Limited(f) && |FragmentBytes(f)| < 0x10_0000_0000
  {
    hide MoofBox, LaidAll, JoinAll, Laid;
    MoofBound(f);
    SoundData(f);
    MoofSize(f.vs, f.id, 0, DataStart(f));
    assert f.vs == [f.vs[0], f.vs[1]];
    TwoTracks(f.vs[0], f.vs[1]);
    assert f.vs[0].ms == [f.vs[0].ms[0]] && Sizes(f.vs[0].ms) == [f.vs[0].ms[0].bytes];
    SumOne(f.vs[0].ms[0].bytes);
    assert Sizes(f.vs[1].ms) == [];
    assert Mfras([]) == [];
  }

  lemma {:induction false} FewMarks(done: seq<Fragment>, i: nat)
    ensures |MarksOf(done, 0, i)| <= |done|
  {
    hide MarkOf;
    if done != [] {
      FewMarks(done[..|done| - 1], i);
    }
  }

  lemma IndexShort(done: seq<Fragment>)
    requires |done| == 2
    ensures var m := SegmentIndex(done, 0, 2);
      ShortIndexes([m]) && |Mfras([m])| <= 200 && !AllWithin([m], 1)
  {
    hide TfraBox, MfroBox, MarksOf;
    var m := SegmentIndex(done, 0, 2);
    FewMarks(done, 0);
    FewMarks(done, 1);
    var none: Index := [];
    assert m[..1] == [m[0]] && [m[0]][..0] == none && Mfras([m][..0]) == [];
    assert |Tfras([m[0]])| == |TfraBox(1, m[0])| && |Tfras(m)| == |Tfras(m[..1])| + |TfraBox(2, m[1])|;
    assert [m][0] == m;
  }

  /** Two key frames of the only track: the second flushes the first. */
  method TwoKeys(io: Io, video: Header) returns (w: FWriter)
    requires io.error == 0 && io.data == [] && io.pos == 0 && video.handler == Video
    modifies io
    ensures w.Valid() && fresh(w) && w.io == io && |w.tracks| == 1 && fresh(w.tracks[0]) && w.nextId == 2
    ensures |w.logs| == 1 && w.logs[0] == [Sent(KEYFRAME, 0, 0, [7]), Sent(KEYFRAME, 40, 40, [8])]
    ensures |w.tracks[0].samples| == 1 && w.tracks[0].samples[0].m.bytes == 1
    ensures |w.done| == 1 && Single(w.done[0], video.(id := 1)) && w.done[0].before == []
    ensures w.hasMoov && w.trailing == [] && w.segment == 0
  {
    hide FWriter.Valid, FWriter.Turned, Single;
    w := OneVideo(io, video);
    var s := w.Write(0, [7], 0, 0, KEYFRAME);
    assert w.logs[0] == [Sent(KEYFRAME, 0, 0, [7])];
    OneTurned(w, w.tracks[0].samples[0], 40);
    s := w.Write(0, [8], 40, 40, KEYFRAME);
  }

  /** A second track is added after the first flush and gets no sample at all. */
  method WriteLateTrack(io: Io, video: Header, audio: Header) returns (w: FWriter)
    requires io.error == 0 && io.data == [] && io.pos == 0 && video.handler == Video
    modifies io
    ensures w.Valid() && w.io == io && |w.tracks| == 2
    ensures w.logs == [[Sent(KEYFRAME, 0, 0, [7]), Sent(KEYFRAME, 40, 40, [8])], []]
    ensures |w.done| == 2 && Single(w.done[0], video.(id := 1)) && w.done[0].before == [] && Second(w.done[1])
    ensures w.trailing == [SegmentIndex(w.done, 0, 2)]
  {
    hide FWriter.Valid, FWriter.Pending, Single, Second, SegmentIndex;
    w := TwoKeys(io, video);
    assert w.logs == [w.logs[0]];
    var i := w.AddTrack(audio);
    assert w.tracks[0] == w.tracks[..1][0];
    Queued(w);
    OnePending(w);
    w.Destroy();
  }

  lemma Queued(w: FWriter)
    requires w.Valid() && |w.tracks| == 2 && w.tracks[1].samples == []
    requires |w.tracks[0].samples| == 1 && w.tracks[0].samples[0].m.bytes > 0
    ensures w.mdatSize > 0
  {
    hide FWriter.AllKept, FWriter.InIndex, FWriter.OnFile, AllFrom, Widening;
    var vs := Views(w.tracks);
    ViewsAt(w.tracks);
    assert vs == [vs[0], vs[1]];
    TwoTracks(vs[0], vs[1]);
    assert vs[0].ms == [vs[0].ms[0]] && Sizes(vs[0].ms) == [vs[0].ms[0].bytes];
    SumOne(vs[0].ms[0].bytes);
  }

  /** The closed file, whose index names the late track, cannot be read, although no sample of it has been
      flushed. */
  method LateTrackClosed(io: Io, video: Header, audio: Header) returns (w: FWriter, r: int, reader: MovReader.Reader)
    requires io.error == 0 && io.data == [] && io.pos == 0 && video.handler == Video
    requires IsStsd(video.stsd) && |video.stsd| <= 0x1_0000
    modifies io
    ensures w.logs == [[Sent(KEYFRAME, 0, 0, [7]), Sent(KEYFRAME, 40, 40, [8])], []]
    ensures OneMoov(w.done) && NoLateTrack(w.done) && r != 0
  {
    hide FWriter.Valid, ReadRun, ReadOf, ReadSince, SamplesOf, MovReader.Views, IsStsd, SegmentIndex,
         Single, AllLimited, ShortIndexes, AllWithin;
    w := WriteLateTrack(io, video, audio);
    LateFacts(w, video.(id := 1));
    r, reader := ReadFragments(w);
  }

  lemma LateFacts(w: FWriter, h: Header)
    requires w.Valid() && |w.done| == 2 && Single(w.done[0], h) && w.done[0].before == [] && Second(w.done[1])
    requires IsStsd(h.stsd) && |h.stsd| <= 0x1_0000 && w.trailing == [SegmentIndex(w.done, 0, 2)]
    ensures AllLimited(w.done) && ShortIndexes(w.trailing) && |w.io.data| < 0x8000_0000_0000_0000
    ensures OneMoov(w.done) && NoLateTrack(w.done) && !IndexesKnown(w.done, w.trailing)
  {
    hide AllFrom, Widening, Limited, Sound, IsStsd, FragmentBytes, FWriter.InQueues, FWriter.InIndex,
         ShortIndexes, AllWithin, Mfras, SegmentIndex, AllBrief;
    NoneBrief();
    SingleLimited(w.done[0], h);
    SingleShort(w.done[0], h);
    SecondLimited(w.done[1]);
    IndexShort(w.done);
    assert w.done[..1] == [w.done[0]] && w.done[..1][..0] == [];
    assert |FileOf(w.done[..1])| == |FragmentBytes(w.done[0])|;
  }

  lemma NoneBrief()
    ensures AllBrief([])
  {
  }

  /** A segment is closed before anything is queued, with a track that no moov has announced yet. */
  method WriteEarlySegment(io: Io, header: Header) returns (w: FWriter)
    requires io.error == 0 && io.data == [] && io.pos == 0
    modifies io
    ensures w.Valid() && w.io == io && w.logs == [[Sent(KEYFRAME, 0, 0, [7])]]
    ensures |w.done| == 1 && Single(w.done[0], header.(id := 1)) && AllBrief(w.trailing)
    ensures |w.done[0].before| == 1 && Brief(w.done[0].before[0])
  {
    hide FWriter.Valid, Single, Brief, SegmentIndex;
    w := OneVideo(io, header);
    w.SaveSegment();
    SegmentBrief([], 0);
    Unqueued(w);
    assert w.logs == [[]] && w.logs[0] == [];
    WriteSegment(w, 7, 0);
    assert w.logs[0] == [Sent(KEYFRAME, 0, 0, [7])];
    assert w.logs == [w.logs[0]] == [[Sent(KEYFRAME, 0, 0, [7])]];
  }

  lemma Unqueued(w: FWriter)
    requires w.Valid() && |w.tracks| == 1 && w.mdatSize == 0
    ensures |w.logs| == 1
  {
  }

  /** The file, which starts with an index, cannot be read, although there is one moov and one track. */
  method EarlySegment(io: Io, header: Header) returns (w: FWriter, r: int, reader: MovReader.Reader)
    requires io.error == 0 && io.data == [] && io.pos == 0
    requires IsStsd(header.stsd) && |header.stsd| <= 0x1_0000
    modifies io
    ensures w.logs == [[Sent(KEYFRAME, 0, 0, [7])]]
    ensures OneMoov(w.done) && NoLateTrack(w.done) && r != 0
  {
    hide FWriter.Valid, ReadRun, ReadOf, ReadSince, SamplesOf, MovReader.Views, IsStsd,
         Single, AllLimited, ShortIndexes, AllWithin;
    w := WriteEarlySegment(io, header);
    EarlyFacts(w, header.(id := 1));
    r, reader := ReadFragments(w);
  }

  lemma EarlyFacts(w: FWriter, h: Header)
    requires w.Valid() && |w.done| == 1 && Single(w.done[0], h) && AllBrief(w.trailing)
    requires |w.done[0].before| == 1 && Brief(w.done[0].before[0]) && IsStsd(h.stsd) && |h.stsd| <= 0x1_0000
    ensures AllLimited(w.done) && ShortIndexes(w.trailing) && |w.io.data| < 0x8000_0000_0000_0000
    ensures OneMoov(w.done) && NoLateTrack(w.done) && !IndexesKnown(w.done, w.trailing)
  {
    hide AllFrom, Widening, Limited, Sound, IsStsd, FragmentBytes, FWriter.InQueues, FWriter.InIndex, ShortIndexes, Mfras;
    BriefShort(w.trailing);
    SingleLimited(w.done[0], h);
    SingleShort(w.done[0], h);
    assert w.done[..0] == [] && FileOf(w.done[..0]) == [];
    assert |FileOf(w.done)| == |FragmentBytes(w.done[0])|;
  }
}
