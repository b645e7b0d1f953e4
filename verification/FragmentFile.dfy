/** Reading a file of fragments: a reader starts with nothing, learns of tracks from each moov, loses at
    each moov what it had of them, and gives up at a fragment or an index of a track it does not know. */
module FragmentFile {
  import opened Bytes
  import opened Options
  import opened SampleTables
  import opened TrackBoxes
  import opened BoxParser
  import opened ReadTables
  import opened FragmentBoxes
  import opened FragmentRead
  import opened FragmentWriters
  import opened IndexBoxes
  import opened IndexRead
  import opened IntroRead
  import opened Fmp4Writer
  import FragmentIntro
  import MovWriter
  import EndToEnd

  // ---- One fragment ----

  /** moof, moov and mfra fit their size fields, no track has more samples than a run can count, and sample
      descriptions are boxes. */
  ghost predicate Limited(f: Fragment) {
    && |MoofBox(f.vs, f.id, 0)| <= UINT32_MAX
    && (forall i :: 0 <= i < |f.vs| ==> |f.vs[i].ms| <= UINT32_MAX)
    && (f.head.Some? ==> |IntroOf(f)| <= UINT32_MAX && Described(f.head.value.headers))
    && ShortIndexes(f.before)
  }

  /** The tracks of a reader behind the moov of a fragment, if it has one. */
  function Behind(ts: seq<Tables>, f: Fragment): seq<Tables> {
    match f.head case None => ts case Some(m) => Announced(ts, m.headers)
  }

  /** Those behind everything in front of its moof; None when the reader gives up there. */
  function Front(ts: seq<Tables>, f: Fragment): Option<seq<Tables>> {
    match WithIndexes(ts, f.before)
    case None => None
    case Some(us) => Some(Behind(us, f))
  }

  lemma MdatIs(payload: seq<byte>)
    ensures MdatHeader(|payload|) + payload == MovWriter.RearOf(payload)
    ensures |payload| + 8 <= UINT32_MAX ==> MdatHeader(|payload|) + payload == Box("mdat", payload)
    ensures |MdatHeader(|payload|)| == if |payload| + 8 <= UINT32_MAX then 8 else 16
  {
    hide BE32, BE64, Tag;
  }

  lemma MdatRead(d: seq<byte>, p: nat, end: nat, st: Reading, payload: seq<byte>)
    requires At(d, p, MdatHeader(|payload|) + payload) && payload != []
    requires end == EndToEnd.INFINITE && p + 16 + |payload| < end
    ensures ParseBoxes(d, p, end, Root, st)
         == ParseBoxes(d, p + |MdatHeader(|payload|) + payload|, end, Root, st)
  {
    hide ParseBoxes, At, MdatHeader, MovWriter.RearOf;
    MdatIs(payload);
    EndToEnd.MdatStep(d, p, st, payload);
  }

  lemma SoundRuns(f: Fragment, moof: nat)
    requires Sound(f) && forall i :: 0 <= i < |f.vs| ==> |f.vs[i].ms| <= UINT32_MAX
    ensures SingleRuns(f.vs, moof)
  {
    hide Truns, TrunBox, Laid, LaidAll, Bulk;
    forall i | 0 <= i < |f.vs| && f.vs[i].ms != []
      ensures Truns(f.vs[i], moof) == TrunBox(f.vs[i], 0, |f.vs[i].ms|, moof)
    {
      LaidAllAt(f.vs, i);
      OneTrun(f.vs[i], Bulk(f.vs[..i]), moof);
    }
  }

  lemma LimitedRuns(f: Fragment)
    requires Sound(f) && Limited(f)
    ensures SingleRuns(f.vs, DataStart(f)) && |MoofBox(f.vs, f.id, DataStart(f))| == |MoofBox(f.vs, f.id, 0)| <= UINT32_MAX
  {
    hide MoofBox, Sound, SingleRuns, HeadBytes;
    MoofSize(f.vs, f.id, 0, DataStart(f));
    SoundRuns(f, DataStart(f));
  }

  /** How long the boxes of a moof can be: at most 84 bytes a track and 12 a sample. */
  function Weight(vs: seq<TrackF>): nat {
    if vs == [] then 0 else Weight(vs[..|vs| - 1]) + 84 + 12 * |vs[|vs| - 1].ms|
  }

  lemma TrafBound(v: TrackF, moof: nat)
    requires v.ms != [] && Truns(v, moof) == TrunBox(v, 0, |v.ms|, moof)
    ensures |TrafBox(v, moof)| <= 84 + 12 * |v.ms|
  {
    hide Truns, ChoiceOf, TfhdBox, TfdtBox, TrunEntries, BE32, BE24, Duration;
    var c, n := ChoiceOf(v, 0, |v.ms|), |v.ms|;
    TrunEntriesLength(v, 0, n, c);
    assert n * c.EntrySize() <= n * 12;
  }

  lemma {:induction false} TrafsBound(vs: seq<TrackF>, moof: nat)
    requires SingleRuns(vs, moof)
    ensures |Trafs(vs, moof)| <= Weight(vs)
  {
    hide Truns, TrunBox, TrafBox;
    if vs != [] {
      var n := |vs| - 1;
      TrafsBound(vs[..n], moof);
      if vs[n].ms != [] {
        TrafBound(vs[n], moof);
      }
    }
  }

  lemma MoofBound(f: Fragment)
    requires Sound(f) && forall i :: 0 <= i < |f.vs| ==> |f.vs[i].ms| <= UINT32_MAX
    ensures |MoofBox(f.vs, f.id, 0)| <= 24 + Weight(f.vs)
  {
    hide Sound, Trafs, Weight, SingleRuns;
    SoundRuns(f, 0);
    TrafsBound(f.vs, 0);
  }

  lemma {:induction false} JoinLength(ms: seq<Media>, ds: seq<seq<byte>>)
    requires SizesMatch(ms, ds)
    ensures |Join(ds)| == Sum(Sizes(ms))
  {
    if ms != [] {
      var n := |ms| - 1;
      JoinLength(ms[..n], ds[..n]);
      assert Sizes(ms)[..n] == Sizes(ms[..n]);
    }
  }

  lemma {:induction false} JoinAllLength(vs: seq<TrackF>, dss: seq<seq<seq<byte>>>)
    requires |vs| == |dss| && forall i :: 0 <= i < |vs| ==> SizesMatch(vs[i].ms, dss[i])
    ensures |JoinAll(dss)| == Bulk(vs)
  {
    hide SizesMatch, Join, Sum, Sizes;
    if vs != [] {
      var n := |vs| - 1;
      JoinAllLength(vs[..n], dss[..n]);
      JoinLength(vs[n].ms, dss[n]);
    }
  }

  lemma MdatHeaderSize(payload: seq<byte>)
    ensures 8 <= |MdatHeader(|payload|)| <= 16
  {
  }

  lemma SoundData(f: Fragment)
    requires Sound(f)
    ensures |JoinAll(f.data)| == Bulk(f.vs)
  {
    hide LaidAll, JoinAll, Bulk;
    JoinAllLength(f.vs, f.data);
  }

  /** The ids of a fragment, and of the moov in front of it. */
  lemma FromIs(f: Fragment, logs: seq<seq<Sent>>)
    requires From(f, logs)
    ensures FirstTracks(f.vs) && Bulk(f.vs) > 0 && f.vs != []
    ensures f.head.Some? ==> NumberedFor(f.head.value.headers, |f.vs|) && f.head.value.headers != []
  {
  }

  lemma IntroFits(d: seq<byte>, p: nat, st: Reading, f: Fragment, logs: seq<seq<Sent>>) returns (cur: int)
    requires From(f, logs) && Limited(f) && Numbered(st.tracks)
    requires At(d, p, IntroOf(f)) && p + |IntroOf(f)| < EndToEnd.INFINITE
    ensures ParseBoxes(d, p, EndToEnd.INFINITE, Root, st)
         == ParseBoxes(d, p + |IntroOf(f)|, EndToEnd.INFINITE, Root, st.(tracks := Behind(st.tracks, f), cur := cur))
    ensures Numbered(Behind(st.tracks, f))
  {
    hide ParseBoxes, At, FragmentIntro.IntroBytes, MoofBox, Announced, Numbered, Described, Bulk, ShortIndexes;
    FromIs(f, logs);
    match f.head
    case None => cur := st.cur;
    case Some(m) =>
      AnnouncedIs(st.tracks, m.headers);
      cur := IntroIsRead(d, p, st, m);
  }

  lemma HeadRead(d: seq<byte>, p: nat, st: Reading, f: Fragment, logs: seq<seq<Sent>>) returns (cur: int)
    requires From(f, logs) && Limited(f) && Numbered(st.tracks)
    requires At(d, p, HeadBytes(f)) && p + |HeadBytes(f)| < EndToEnd.INFINITE
    ensures ParseBoxes(d, p, EndToEnd.INFINITE, Root, st)
         == match Front(st.tracks, f)
            case None => Refused
            case Some(ts) => ParseBoxes(d, p + |HeadBytes(f)|, EndToEnd.INFINITE, Root, st.(tracks := ts, cur := cur))
    ensures Front(st.tracks, f).Some? ==> Numbered(Front(st.tracks, f).value)
  {
    hide ParseBoxes, At, IntroOf, MoofBox, Numbered, Described, Bulk, Mfras, WithIndexes, Behind, From;
    cur := st.cur;
    AtConcat(d, p, Mfras(f.before), IntroOf(f));
    MfrasRead(d, p, st, f.before);
    IndexesKeep(st.tracks, f.before);
    match WithIndexes(st.tracks, f.before)
    case None =>
    case Some(us) => cur := IntroFits(d, p + |Mfras(f.before)|, st.(tracks := us), f, logs);
  }

  /** Reading one fragment gives every track the samples that were queued for it, behind what its moov
      leaves of the track; it fails if one of these tracks, or one that an index in front names, has not
      been announced. */
  lemma OneFragment(d: seq<byte>, p: nat, st: Reading, f: Fragment, logs: seq<seq<Sent>>)
    returns (cur: int, implicit: uint64)
    requires Sound(f) && Limited(f) && From(f, logs) && Numbered(st.tracks)
    requires At(d, p, FragmentBytes(f)) && p + |FragmentBytes(f)| + 16 < EndToEnd.INFINITE
    ensures var base, o := p + |HeadBytes(f)|, Front(st.tracks, f);
      ParseBoxes(d, p, EndToEnd.INFINITE, Root, st)
      == if o.Some? && Knows(o.value, f.vs)
         then ParseBoxes(d, p + |FragmentBytes(f)|, EndToEnd.INFINITE, Root,
                         Reading(AbsorbAll(o.value, f.vs, base, DataStart(f)), cur, U64(base), implicit))
         else Refused
    ensures Front(st.tracks, f).Some? ==> Numbered(Front(st.tracks, f).value)
  {
    hide ParseBoxes, At, MoofBox, MdatHeader, JoinAll, AbsorbAll, Sound, Limited, Knows, SingleRuns, Bulk, DataStart,
         HeadBytes, Front, Numbered, From, FirstTracks;
    SoundData(f);
    LimitedRuns(f);
    FromIs(f, logs);
    var moof, payload := MoofBox(f.vs, f.id, DataStart(f)), JoinAll(f.data);
    var mdat := MdatHeader(|payload|) + payload;
    assert FragmentBytes(f) == HeadBytes(f) + moof + mdat;
    AtConcat(d, p, HeadBytes(f) + moof, mdat);
    AtConcat(d, p, HeadBytes(f), moof);
    var cur0 := HeadRead(d, p, st, f, logs);
    cur, implicit := cur0, 0;
    if Front(st.tracks, f).Some? {
      var ts := Front(st.tracks, f).value;
      var base := p + |HeadBytes(f)|;
      cur, implicit := MoofRead(d, base, EndToEnd.INFINITE, st.(tracks := ts, cur := cur0), f.vs, f.id, DataStart(f));
      if Knows(ts, f.vs) {
        MdatHeaderSize(payload);
        MdatRead(d, base + |moof|, EndToEnd.INFINITE,
                 Reading(AbsorbAll(ts, f.vs, base, DataStart(f)), cur, U64(base), implicit), payload);
      }
    }
  }

  // ---- The whole file ----

  /** The tracks of a reader behind all the fragments; None when it gives up on the way. */
  function ReadAll(done: seq<Fragment>): Option<seq<Tables>> {
    if done == [] then Some([]) else
      var n := |done| - 1;
      match ReadAll(done[..n])
      case None => None
      case Some(ts) => ReadNext(ts, done[n], MoofAt(done, n))
  }

  function ReadNext(ts: seq<Tables>, f: Fragment, base: nat): Option<seq<Tables>> {
    match Front(ts, f)
    case None => None
    case Some(us) => if Knows(us, f.vs) then Some(AbsorbAll(us, f.vs, base, DataStart(f))) else None
  }

  /** Those behind the indexes at the end as well. */
  function ReadRun(done: seq<Fragment>, trailing: seq<Index>): Option<seq<Tables>> {
    match ReadAll(done)
    case None => None
    case Some(ts) => WithIndexes(ts, trailing)
  }

  ghost predicate AllLimited(done: seq<Fragment>) {
    forall k :: 0 <= k < |done| ==> Limited(done[k])
  }

  lemma AllSplit(done: seq<Fragment>, logs: seq<seq<Sent>>)
    requires done != [] && AllSound(done) && AllLimited(done) && AllFrom(done, logs)
    ensures var n := |done| - 1;
      && AllSound(done[..n]) && AllLimited(done[..n]) && AllFrom(done[..n], logs)
      && Sound(done[n]) && Limited(done[n]) && From(done[n], logs)
      && FileOf(done) == FileOf(done[..n]) + FragmentBytes(done[n])
      && MoofAt(done, n) == |FileOf(done[..n])| + |HeadBytes(done[n])|
  {
    hide Sound, Limited, From, FragmentBytes, HeadBytes;
  }

  lemma ReadAllSplit(done: seq<Fragment>)
    requires done != []
    ensures var n := |done| - 1;
      ReadAll(done) == match ReadAll(done[..n]) case None => None case Some(ts) => ReadNext(ts, done[n], MoofAt(done, n))
  {
    hide ReadNext, MoofAt;
  }

  lemma NothingRead()
    ensures FileOf([]) == [] && ReadAll([]) == Some([]) && Numbered([])
  {
  }

  /** The fragments one after the other. */
  lemma {:induction false} FileRead(d: seq<byte>, done: seq<Fragment>, logs: seq<seq<Sent>>) returns (st: Reading)
    requires AllSound(done) && AllLimited(done) && AllFrom(done, logs)
    requires At(d, 0, FileOf(done)) && |d| + 16 < EndToEnd.INFINITE
    ensures ReadAll(done) == None ==> ParseBoxes(d, 0, EndToEnd.INFINITE, Root, START) == Refused
    ensures ReadAll(done).Some? ==>
      && ParseBoxes(d, 0, EndToEnd.INFINITE, Root, START) == ParseBoxes(d, |FileOf(done)|, EndToEnd.INFINITE, Root, st)
      && st.tracks == ReadAll(done).value && Numbered(st.tracks)
  {
    hide ParseBoxes, At, FileOf, FragmentBytes, AbsorbAll, Sound, Limited, From, AllSound, AllLimited, AllFrom,
         ReadAll, DataStart, MoofAt, Knows, Front, Numbered, HeadBytes;
    st := START;
    if done == [] {
      NothingRead();
    } else {
      var n := |done| - 1;
      var f := done[n];
      AllSplit(done, logs);
      AtConcat(d, 0, FileOf(done[..n]), FragmentBytes(f));
      AtBound(d, |FileOf(done[..n])|, FragmentBytes(f));
      ReadAllSplit(done);
      st := FileRead(d, done[..n], logs);
      if ReadAll(done[..n]).Some? {
        var o := Front(st.tracks, f);
        var cur, implicit := OneFragment(d, |FileOf(done[..n])|, st, f, logs);
        if o.Some? {
          AbsorbKeeps(o.value, f.vs, MoofAt(done, n), DataStart(f));
          st := Reading(AbsorbAll(o.value, f.vs, MoofAt(done, n), DataStart(f)), cur, U64(MoofAt(done, n)), implicit);
        }
      }
    }
  }

  lemma AtBound(d: seq<byte>, p: nat, b: seq<byte>)
    requires At(d, p, b)
    ensures p + |b| <= |d|
  {
  }

  /** Reading a file of fragments and indexes. */
  lemma WholeFile(done: seq<Fragment>, trailing: seq<Index>, logs: seq<seq<Sent>>)
    requires AllSound(done) && AllLimited(done) && AllFrom(done, logs) && ShortIndexes(trailing)
    requires |FileOf(done) + Mfras(trailing)| + 16 < EndToEnd.INFINITE
    ensures ReadRun(done, trailing) == None ==> ReadingOf(FileOf(done) + Mfras(trailing)) == Refused
    ensures ReadRun(done, trailing) == ParseFile(FileOf(done) + Mfras(trailing))
  {
    hide ParseBoxes, FileOf, AllSound, AllLimited, AllFrom, ReadAll, Mfras, WithIndexes, ShortIndexes, Numbered;
    var d := FileOf(done) + Mfras(trailing);
    EndToEnd.AtWhole(d);
    AtConcat(d, 0, FileOf(done), Mfras(trailing));
    var st := FileRead(d, done, logs);
    if ReadAll(done).Some? {
      MfrasRead(d, |FileOf(done)|, st, trailing);
      match WithIndexes(st.tracks, trailing)
      case None =>
      case Some(ts) => EndToEnd.AtEof(d, st.(tracks := ts));
    }
  }

  // ---- What comes back ----

  /** The samples that a fragment adds to track `i`. */
  function Added(done: seq<Fragment>, k: nat, i: nat): seq<Media>
    requires k < |done|
  {
    if HasSamples(done[k], i) then ReadSamples(done[k].vs[i], MoofAt(done, k), DataStart(done[k]), |done[k].vs[i].ms|) else []
  }

  /** The samples of track `i`, fragment after fragment. */
  function ReadOf(done: seq<Fragment>, i: nat): seq<Media> {
    if done == [] then [] else ReadOf(done[..|done| - 1], i) + Added(done, |done| - 1, i)
  }

  /** Those since the last moov. */
  function ReadSince(done: seq<Fragment>, i: nat): seq<Media> {
    if done == [] then [] else
      var n := |done| - 1;
      (if done[n].head.Some? then [] else ReadSince(done[..n], i)) + Added(done, n, i)
  }

  function SamplesOf(ts: seq<Tables>, i: nat): seq<Media> { if i < |ts| then ts[i].samples else [] }

  /** No moov but the first: nothing has been flushed after the end of a segment. */
  predicate OneMoov(done: seq<Fragment>) {
    forall k :: 0 < k < |done| ==> done[k].head == None
  }

  /** Every track that an index names had been announced by the first moov, when the index was written. */
  predicate IndexesKnown(done: seq<Fragment>, trailing: seq<Index>) {
    if done == [] then AllWithin(trailing, 0)
    else AllWithin(done[0].before, 0) && AllWithin(trailing, |done[0].vs|)
  }

  /** No sample of a track that was added after the first flush. */
  predicate NoLateTrack(done: seq<Fragment>) {
    forall k, i :: 0 <= k < |done| && |done[0].vs| <= i < |done[k].vs| ==> done[k].vs[i].ms == []
  }

  lemma RunSplit(done: seq<Fragment>, logs: seq<seq<Sent>>)
    requires done != [] && AllFrom(done, logs) && Widening(done)
    ensures var n := |done| - 1;
      AllFrom(done[..n], logs) && Widening(done[..n]) && From(done[n], logs)
  {
    hide From;
  }

  /** A reader has no more tracks than the last fragment, and of each the samples since the last moov. */
  lemma {:induction false} ReadAllOf(done: seq<Fragment>, logs: seq<seq<Sent>>)
    requires AllFrom(done, logs) && Widening(done) && ReadAll(done).Some?
    ensures Numbered(ReadAll(done).value)
    ensures |ReadAll(done).value| <= if done == [] then 0 else |done[|done| - 1].vs|
    ensures forall i: nat :: SamplesOf(ReadAll(done).value, i) == ReadSince(done, i)
  {
    hide AllFrom, Widening, From, Numbered, MoofAt, DataStart, Front, AbsorbAll, ReadSamples, ReadAll;
    if done == [] {
      NothingRead();
    } else {
      var n := |done| - 1;
      var f := done[n];
      RunSplit(done, logs);
      ReadAllSplit(done);
      ReadAllOf(done[..n], logs);
      var ts := ReadAll(done[..n]).value;
      Widens(done, logs);
      FrontIs(ts, f, logs);
      var us := Front(ts, f).value;
      AbsorbKeeps(us, f.vs, MoofAt(done, n), DataStart(f));
      forall i: nat
        ensures SamplesOf(ReadAll(done).value, i) == ReadSince(done, i)
      {
        AbsorbedIs(us, f, MoofAt(done, n), DataStart(f), i);
        assert SamplesOf(ts, i) == ReadSince(done[..n], i);
      }
    }
  }

  lemma Widens(done: seq<Fragment>, logs: seq<seq<Sent>>)
    requires done != [] && AllFrom(done, logs) && Widening(done)
    ensures var n := |done| - 1;
      && (n > 0 ==> |done[n - 1].vs| <= |done[n].vs| && |done[0].vs| <= |done[n].vs|)
      && (n == 0 ==> done[0].head.Some?) && (done[n].before != [] ==> done[n].head.Some?)
  {
  }

  /** A moov announces all tracks so far. */
  lemma BehindIs(ts: seq<Tables>, f: Fragment, logs: seq<seq<Sent>>)
    requires From(f, logs) && Numbered(ts) && |ts| <= |f.vs|
    ensures Numbered(Behind(ts, f))
    ensures |Behind(ts, f)| == if f.head.Some? then |f.vs| else |ts|
    ensures forall i: nat :: SamplesOf(Behind(ts, f), i) == if f.head.Some? then [] else SamplesOf(ts, i)
  {
    hide Numbered, Announced, Bulk;
    match f.head
    case None =>
    case Some(m) => AnnouncedIs(ts, m.headers);
  }

  /** Indexes in front of a fragment are accepted exactly when they name known tracks. */
  lemma FrontIs(ts: seq<Tables>, f: Fragment, logs: seq<seq<Sent>>)
    requires From(f, logs) && Numbered(ts) && |ts| <= |f.vs|
    ensures Front(ts, f).Some? <==> AllWithin(f.before, |ts|)
    ensures Front(ts, f).Some? ==>
      var us := Front(ts, f).value;
      && Numbered(us) && |us| == (if f.head.Some? then |f.vs| else |ts|)
      && forall i: nat :: SamplesOf(us, i) == if f.head.Some? then [] else SamplesOf(ts, i)
  {
    hide Numbered, Behind, WithIndexes, From, AllWithin;
    IndexesKeep(ts, f.before);
    match WithIndexes(ts, f.before)
    case None =>
    case Some(us) => BehindIs(us, f, logs);
  }

  lemma AbsorbedIs(ts: seq<Tables>, f: Fragment, base: nat, moof: nat, i: nat)
    requires Knows(ts, f.vs)
    ensures SamplesOf(AbsorbAll(ts, f.vs, base, moof), i)
         == SamplesOf(ts, i) + (if HasSamples(f, i) then ReadSamples(f.vs[i], base, moof, |f.vs[i].ms|) else [])
  {
    hide ReadSamples, DefaultsOf, Elapsed, BaseDecodeTime;
  }

  /** Without a moov in between nothing is lost. */
  lemma {:induction false} NothingLost(done: seq<Fragment>, i: nat)
    requires OneMoov(done)
    ensures ReadSince(done, i) == ReadOf(done, i)
  {
    hide Added;
    if |done| > 1 {
      NothingLost(done[..|done| - 1], i);
    } else if |done| == 1 {
      assert done[..0] == [];
      assert ReadOf(done[..0], i) == [];
    }
  }

  /** Behind a moov there is nothing of what came before it. */
  lemma {:induction false} LostBefore(done: seq<Fragment>, k: nat, i: nat)
    requires k < |done| && done[k].head.Some?
    ensures |ReadSince(done, i)| + |ReadOf(done[..k], i)| <= |ReadOf(done, i)|
    decreases |done|
  {
    hide Added;
    var n := |done| - 1;
    if k < n {
      assert done[..n][..k] == done[..k];
      LostBefore(done[..n], k, i);
    } else {
      assert ReadOf(done, i) == ReadOf(done[..n], i) + Added(done, n, i);
    }
  }

  /** Every fragment holds a sample of some track. */
  lemma {:induction false} SomeHeld(vs: seq<TrackF>) returns (i: nat)
    requires Bulk(vs) > 0
    ensures i < |vs| && vs[i].ms != []
  {
    var n := |vs| - 1;
    if vs[n].ms != [] {
      i := n;
    } else {
      i := SomeHeld(vs[..n]);
    }
  }

  lemma {:induction false} HeldRead(done: seq<Fragment>, i: nat)
    requires done != [] && HasSamples(done[0], i)
    ensures |ReadOf(done, i)| > 0
  {
    hide DataStart, MoofAt;
    if |done| > 1 {
      HeldRead(done[..|done| - 1], i);
    }
  }

  /** With one moov, a reader gets through the fragments exactly when no flushed sample is of a late track
      and no index in front of the first names a track. */
  lemma {:induction false} AllKnown(done: seq<Fragment>, logs: seq<seq<Sent>>)
    requires AllFrom(done, logs) && Widening(done) && OneMoov(done)
    ensures ReadAll(done).Some? <==> NoLateTrack(done) && (done != [] ==> AllWithin(done[0].before, 0))
    ensures ReadAll(done).Some? && done != [] ==> |ReadAll(done).value| == |done[0].vs|
  {
    hide AllFrom, Widening, From, Numbered, MoofAt, DataStart, Front, AbsorbAll, ReadAll, AllWithin;
    if done == [] {
      NothingRead();
    } else {
      var n := |done| - 1;
      var f := done[n];
      RunSplit(done, logs);
      ReadAllSplit(done);
      AllKnown(done[..n], logs);
      Widens(done, logs);
      LateSplit(done);
      NoneWithin(|done[0].vs|);
      if n == 0 {
        NothingRead();
        assert done[..n] == [];
        FrontIs([], f, logs);
      } else if ReadAll(done[..n]).Some? {
        assert f.before == [];
        ReadAllOf(done[..n], logs);
        FrontIs(ReadAll(done[..n]).value, f, logs);
      }
    }
  }

  lemma LateSplit(done: seq<Fragment>)
    requires done != []
    ensures var n := |done| - 1;
      NoLateTrack(done) <==>
        NoLateTrack(done[..n]) && forall i :: |done[0].vs| <= i < |done[n].vs| ==> done[n].vs[i].ms == []
  {
    var n := |done| - 1;
    if NoLateTrack(done[..n]) && forall i :: |done[0].vs| <= i < |done[n].vs| ==> done[n].vs[i].ms == [] {
      forall k, i | 0 <= k < |done| && |done[0].vs| <= i < |done[k].vs|
        ensures done[k].vs[i].ms == []
      {
        assert k < n ==> done[..n][k] == done[k] && done[..n][0] == done[0];
      }
    }
    if NoLateTrack(done) {
      forall k, i | 0 <= k < n && |done[..n][0].vs| <= i < |done[..n][k].vs|
        ensures done[..n][k].vs[i].ms == []
      {
        assert done[..n][k] == done[k];
      }
    }
  }

  /** The indexes at the end change no sample. */
  lemma ReadRunOf(done: seq<Fragment>, trailing: seq<Index>, logs: seq<seq<Sent>>)
    requires AllFrom(done, logs) && Widening(done) && ReadRun(done, trailing).Some?
    ensures forall i: nat :: SamplesOf(ReadRun(done, trailing).value, i) == ReadSince(done, i)
  {
    hide AllFrom, Widening, Numbered, ReadAll, ReadSince, WithIndexes, AllWithin;
    ReadAllOf(done, logs);
    IndexesKeep(ReadAll(done).value, trailing);
  }

  /** With one moov, a reader gets to the end exactly when it knows every track with a flushed sample and
      every track of an index. */
  lemma RunKnown(done: seq<Fragment>, trailing: seq<Index>, logs: seq<seq<Sent>>)
    requires AllFrom(done, logs) && Widening(done) && OneMoov(done)
    ensures ReadRun(done, trailing).Some? <==> NoLateTrack(done) && IndexesKnown(done, trailing)
  {
    hide AllFrom, Widening, Numbered, ReadAll, WithIndexes, AllWithin, NoLateTrack, OneMoov;
    AllKnown(done, logs);
    NothingRead();
    NothingLate();
    if ReadAll(done).Some? {
      ReadAllOf(done, logs);
      IndexesKeep(ReadAll(done).value, trailing);
    }
  }

  lemma NothingLate()
    ensures NoLateTrack([])
  {
  }

  /** Everything that was flushed comes back exactly when there is one moov only, no sample of a track that
      it does not announce, and no such track in an index. */
  lemma AllComesBack(done: seq<Fragment>, trailing: seq<Index>, logs: seq<seq<Sent>>)
    requires AllFrom(done, logs) && Widening(done)
    ensures (ReadRun(done, trailing).Some? && forall i: nat :: SamplesOf(ReadRun(done, trailing).value, i) == ReadOf(done, i))
        <==> OneMoov(done) && NoLateTrack(done) && IndexesKnown(done, trailing)
  {
    hide AllFrom, From, ReadRun, ReadOf, ReadSince, SamplesOf, NoLateTrack, IndexesKnown;
    if ReadRun(done, trailing).Some? {
      ReadRunOf(done, trailing, logs);
    }
    if OneMoov(done) {
      RunKnown(done, trailing, logs);
      forall i: nat
        ensures ReadSince(done, i) == ReadOf(done, i)
      {
        NothingLost(done, i);
      }
    } else {
      var k :| 0 < k < |done| && done[k].head != None;
      var i := Lost(done, k, logs);
    }
  }

  /** A later moov costs some track its earlier samples. */
  lemma Lost(done: seq<Fragment>, k: nat, logs: seq<seq<Sent>>) returns (i: nat)
    requires AllFrom(done, logs) && 0 < k < |done| && done[k].head.Some?
    ensures i < |done[0].vs| && |ReadSince(done, i)| < |ReadOf(done, i)|
  {
    hide ReadOf, ReadSince, Bulk;
    assert From(done[0], logs);
    i := SomeHeld(done[0].vs);
    assert done[..k][0] == done[0];
    HeldRead(done[..k], i);
    LostBefore(done, k, i);
  }
}
