/** The fragmented writer: samples queue per track and are flushed as one fragment. */
module Fmp4Writer {
  import opened Bytes
  import opened IoUtil
  import opened SampleTables
  import opened TrackBoxes
  import opened FragmentBoxes
  import opened IndexBoxes
  import IndexWriters
  import opened FragmentWriters
  import opened NestWriters
  import opened Options
  import FragmentIntro

  // ---- Queues as values ----

  function DataOf(ps: seq<Packet>): (ds: seq<seq<byte>>)
    ensures |ds| == |ps|
  {
    seq(|ps|, i requires 0 <= i < |ps| => ps[i].data)
  }

  function Join(ds: seq<seq<byte>>): seq<byte> {
    if ds == [] then [] else Join(ds[..|ds| - 1]) + ds[|ds| - 1]
  }

  function JoinAll(dss: seq<seq<seq<byte>>>): seq<byte> {
    if dss == [] then [] else JoinAll(dss[..|dss| - 1]) + Join(dss[|dss| - 1])
  }

  ghost predicate Sized(ps: seq<Packet>) {
    forall i :: 0 <= i < |ps| ==> |ps[i].data| == ps[i].m.bytes
  }

  ghost function Views(ts: seq<FTrack>): (vs: seq<TrackF>)
    reads ts`samples, ts`startDts, ts`turnLast
    ensures |vs| == |ts|
  {
    if ts == [] then [] else Views(ts[..|ts| - 1]) + [ts[|ts| - 1].V()]
  }

  ghost function Datas(ts: seq<FTrack>): (dss: seq<seq<seq<byte>>>)
    reads ts`samples
    ensures |dss| == |ts|
  {
    if ts == [] then [] else Datas(ts[..|ts| - 1]) + [DataOf(ts[|ts| - 1].samples)]
  }

  lemma {:induction false} ViewsAt(ts: seq<FTrack>)
    ensures forall i :: 0 <= i < |ts| ==> Views(ts)[i] == ts[i].V() && Datas(ts)[i] == DataOf(ts[i].samples)
  {
    if ts != [] {
      ViewsAt(ts[..|ts| - 1]);
    }
  }

  ghost predicate Distinct(ts: seq<FTrack>) {
    forall i, j :: 0 <= i < j < |ts| ==> ts[i] != ts[j]
  }

  function MdatHeader(bulk: nat): seq<byte> {
    if bulk + 8 <= UINT32_MAX then BE32(bulk + 8) + Tag("mdat") else BE32(1) + Tag("mdat") + BE64(U64(bulk + 16))
  }

  /** Gives the samples of a track their place, from `n` on. */
  method LayTrack(t: FTrack, n0: nat) returns (n: nat)
    modifies t`samples
    ensures t.V() == old(t.V()).(ms := Laid(old(t.V().ms), n0))
    ensures DataOf(t.samples) == old(DataOf(t.samples))
    ensures n == n0 + Sum(Sizes(old(t.V().ms)))
  {
    ghost var ms := MediasOf(t.samples);
    ghost var was := t.samples;
    n := n0;
    var j: nat := 0;
    while j < |t.samples|
      invariant j <= |t.samples| == |ms| && DataOf(t.samples) == DataOf(was)
      invariant n == n0 + Sum(Sizes(ms[..j]))
      invariant forall k :: 0 <= k < |ms| ==> t.samples[k].m == if k < j then Laid(ms, n0)[k] else ms[k]
    {
      LaidAt(ms, n0, j);
      assert Sizes(ms[..j + 1]) == Sizes(ms[..j]) + [ms[j].bytes];
      assert DataOf(t.samples)[j] == t.samples[j].data;
      t.samples := t.samples[j := t.samples[j].(m := t.samples[j].m.(offset := n))];
      n := n + t.samples[j].m.bytes;
      j := j + 1;
    }
    assert ms[..j] == ms;
    assert MediasOf(t.samples) == Laid(ms, n0);
  }

  lemma PrefixSnoc<T>(s: seq<T>, i: nat)
    requires i < |s|
    ensures s[..i + 1] == s[..i] + [s[i]] && s[..i + 1][..i] == s[..i]
  {
  }

  lemma BulkPrefix(vs: seq<TrackF>, i: nat)
    requires i < |vs|
    ensures Bulk(vs[..i + 1]) == Bulk(vs[..i]) + Sum(Sizes(vs[i].ms))
  {
    hide Sum, Sizes;
    PrefixSnoc(vs, i);
  }

  lemma TrafsSnoc(vs: seq<TrackF>, v: TrackF, moof: nat)
    ensures Trafs(vs + [v], moof) == Trafs(vs, moof) + (if v.ms == [] then [] else TrafBox(v, moof))
  {
    assert (vs + [v])[..|vs|] == vs;
  }

  /** One track of a moof: its samples are laid out, then its traf is written if it has any. */
  method WriteTrack(io: Io, t: FTrack, n0: nat, moof: nat) returns (n: nat, size: nat)
    requires io.Tracking()
    modifies io`data, io`pos, io`error, io`base, io`start, io`out
    modifies t`samples, t`tfhdFlags, t`defaultDuration, t`defaultSize, t`defaultFlags
    ensures io.Tracking() && io.base == old(io.base) && io.start == old(io.start)
    ensures t.V() == old(t.V()).(ms := Laid(old(t.V().ms), n0)) && DataOf(t.samples) == old(DataOf(t.samples))
    ensures n == n0 + Sum(Sizes(old(t.V().ms)))
    ensures var traf := if t.V().ms == [] then [] else TrafBox(t.V(), moof);
      io.out == old(io.out) + traf && size == |traf|
  {
    hide Io.Tracking, TrafBox, Laid, Sum, Sizes;
    n := LayTrack(t, n0);
    size := 0;
    if |t.samples| > 0 {
      size := WriteTraf(io, t, moof);
    }
  }

  ghost predicate Resting(ts: seq<FTrack>)
    reads ts`cursor
  {
    forall k :: 0 <= k < |ts| ==> ts[k].cursor == 0
  }

  ghost predicate Holds(t: FTrack, v: TrackF, ds: seq<seq<byte>>)
    reads t`samples, t`startDts, t`turnLast
  {
    t.V() == v && DataOf(t.samples) == ds
  }

  /** Track `k` of those that have been gone over has its place; nothing else has changed. */
  ghost predicate LaidTo(ts: seq<FTrack>, vs: seq<TrackF>, dss: seq<seq<seq<byte>>>, i: nat)
    requires |vs| == |dss| == |ts|
    reads ts`samples, ts`startDts, ts`turnLast
  {
    forall k :: 0 <= k < |ts| ==> Holds(ts[k], if k < i then LaidAll(vs)[k] else vs[k], dss[k])
  }

  lemma LaidToNone(ts: seq<FTrack>)
    ensures LaidTo(ts, Views(ts), Datas(ts), 0)
  {
    hide FTrack.V, DataOf, Views, Datas, LaidAll;
    ViewsAt(ts);
  }

  lemma LaidToAll(ts: seq<FTrack>, vs: seq<TrackF>, dss: seq<seq<seq<byte>>>)
    requires |vs| == |dss| == |ts| && LaidTo(ts, vs, dss, |ts|)
    ensures Views(ts) == LaidAll(vs) && Datas(ts) == dss
  {
    hide FTrack.V, DataOf, Views, Datas, LaidAll;
    ViewsAt(ts);
  }

  lemma ViewOf(ts: seq<FTrack>, vs: seq<TrackF>, dss: seq<seq<seq<byte>>>, i: nat)
    requires |vs| == |dss| == |ts| && i < |ts| && LaidTo(ts, vs, dss, i)
    ensures ts[i].V() == vs[i] && DataOf(ts[i].samples) == dss[i]
  {
  }

  lemma TrafStep(vs: seq<TrackF>, i: nat, moof: nat)
    requires i < |vs|
    ensures var w := LaidAll(vs)[i];
      Trafs(LaidAll(vs)[..i + 1], moof)
      == Trafs(LaidAll(vs)[..i], moof) + (if w.ms == [] then [] else TrafBox(w, moof))
  {
    hide LaidAll, Trafs, TrafBox;
    PrefixSnoc(LaidAll(vs), i);
    TrafsSnoc(LaidAll(vs)[..i], LaidAll(vs)[i], moof);
  }

  /** The turn of track `i`. */
  method WriteNth(io: Io, ts: seq<FTrack>, i: nat, n0: nat, moof: nat, ghost vs: seq<TrackF>,
                  ghost dss: seq<seq<seq<byte>>>)
    returns (n: nat, size: nat)
    requires io.Tracking() && Distinct(ts) && i < |ts|
    requires |vs| == |dss| == |ts| && LaidTo(ts, vs, dss, i) && n0 == Bulk(vs[..i])
    modifies io`data, io`pos, io`error, io`base, io`start, io`out
    modifies ts`samples, ts`tfhdFlags, ts`defaultDuration, ts`defaultSize, ts`defaultFlags
    ensures io.Tracking() && io.base == old(io.base) && io.start == old(io.start)
    ensures LaidTo(ts, vs, dss, i + 1) && n == Bulk(vs[..i]) + Sum(Sizes(vs[i].ms))
    ensures var w := LaidAll(vs)[i];
      var traf := if w.ms == [] then [] else TrafBox(w, moof);
      io.out == old(io.out) + traf && size == |traf|
  {
    hide Io.Tracking, LaidAll, TrafBox, Bulk, Laid, DataOf, FTrack.V, Sum, Sizes;
    ViewOf(ts, vs, dss, i);
    LaidAllAt(vs, i);
    n, size := WriteTrack(io, ts[i], n0, moof);
    forall k | 0 <= k < |ts|
      ensures Holds(ts[k], if k < i + 1 then LaidAll(vs)[k] else vs[k], dss[k])
    {
      if k != i {
        assert old(Holds(ts[k], if k < i then LaidAll(vs)[k] else vs[k], dss[k]));
      }
    }
  }

  method WriteTracks(io: Io, ts: seq<FTrack>, moof: nat) returns (size: nat)
    requires io.Tracking() && Distinct(ts)
    modifies io`data, io`pos, io`error, io`base, io`start, io`out
    modifies ts`samples, ts`tfhdFlags, ts`defaultDuration, ts`defaultSize, ts`defaultFlags
    ensures io.Tracking() && io.base == old(io.base) && io.start == old(io.start)
    ensures Views(ts) == LaidAll(old(Views(ts))) && Datas(ts) == old(Datas(ts))
    ensures io.out == old(io.out) + Trafs(Views(ts), moof) && size == |Trafs(Views(ts), moof)|
  {
    hide Io.Tracking, Trafs, LaidAll, TrafBox, Bulk, Laid, DataOf, FTrack.V, Sum, Sizes, Views, Datas, LaidTo;
    ghost var vs, dss, head := Views(ts), Datas(ts), io.out;
    ghost var ws := LaidAll(vs);
    var n: nat, i: nat := 0, 0;
    size := 0;
    NoTrafs(moof);
    LaidToNone(ts);
    while i < |ts|
      invariant i <= |ts| && io.Tracking() && io.base == old(io.base) && io.start == old(io.start)
      invariant n == Bulk(vs[..i]) && LaidTo(ts, vs, dss, i)
      invariant io.out == head + Trafs(ws[..i], moof) && size == |Trafs(ws[..i], moof)|
    {
      BulkPrefix(vs, i);
      TrafStep(vs, i, moof);
      var s: nat;
      n, s := WriteNth(io, ts, i, n, moof, vs, dss);
      size := size + s;
      i := i + 1;
    }
    assert ws[..i] == ws;
    LaidToAll(ts, vs, dss);
  }

  method WriteMoof(io: Io, ts: seq<FTrack>, fragment: nat, moof: nat) returns (size: nat)
    requires io.Tracking() && Distinct(ts)
    modifies io`data, io`pos, io`error, io`base, io`start, io`out
    modifies ts`samples, ts`tfhdFlags, ts`defaultDuration, ts`defaultSize, ts`defaultFlags
    ensures io.Tracking() && io.base == old(io.base) && io.start == old(io.start)
    ensures Views(ts) == LaidAll(old(Views(ts))) && Datas(ts) == old(Datas(ts))
    ensures io.out == old(io.out) + MoofBox(Views(ts), fragment, moof)
    ensures size == |MoofBox(Views(ts), fragment, moof)|
  {
    hide BE32, BE24, Tag, Io.Tracking, Trafs, LaidAll, Box, DataOf, FTrack.V, Views, Datas, Distinct, MfhdBox;
    ghost var head := io.out;
    size := 8;
    var offset := OpenBox(io, "moof");
    WriteMfhd(io, fragment);
    size := size + 16;
    var n := WriteTracks(io, ts, moof);
    size := size + n;
    ghost var body := MfhdBox(fragment) + Trafs(Views(ts), moof);
    assert io.out == head + BE32(0) + Tag("moof") + body;
    WriteSize(io, offset, size, head, "moof", body);
  }

  lemma NoTrafs(moof: nat)
    ensures Trafs([], moof) == [] && Bulk([]) == 0
  {
  }

  method WriteMfhd(io: Io, fragment: nat)
    requires io.Tracking()
    modifies io`data, io`pos, io`out
    ensures io.Tracking() && io.out == old(io.out) + MfhdBox(fragment)
  {
    hide BE32, BE24, Tag, Io.Tracking;
    io.W32(16);
    io.Put(Tag("mfhd"));
    io.W32(0);
    io.W32(U32(fragment));
    FullZero();
    assert io.out == old(io.out) + (BE32(16) + Tag("mfhd") + ([0] + BE24(0) + BE32(U32(fragment))));
  }

  lemma FullZero()
    ensures BE32(0) == [0] + BE24(0)
  {
  }

  // ---- The media data ----

  lemma JoinPrefix(ds: seq<seq<byte>>, i: nat)
    requires i < |ds|
    ensures Join(ds[..i + 1]) == Join(ds[..i]) + ds[i]
  {
    PrefixSnoc(ds, i);
  }

  lemma JoinAllPrefix(dss: seq<seq<seq<byte>>>, i: nat)
    requires i < |dss|
    ensures JoinAll(dss[..i + 1]) == JoinAll(dss[..i]) + Join(dss[i])
  {
    hide Join;
    PrefixSnoc(dss, i);
  }

  lemma SizesPrefix(ms: seq<Media>, i: nat)
    requires i < |ms|
    ensures Sum(Sizes(ms[..i + 1])) == Sum(Sizes(ms[..i])) + ms[i].bytes
  {
    assert Sizes(ms[..i + 1]) == Sizes(ms[..i]) + [ms[i].bytes];
    PrefixSnoc(Sizes(ms[..i + 1]), i);
  }

  /** Sample `j` of a track that was laid out from `n` on. */
  ghost predicate LaidFrom(t: FTrack, n: nat)
    reads t`samples
  {
    forall j :: 0 <= j < |t.samples| ==> t.samples[j].m.offset == n + Sum(Sizes(MediasOf(t.samples)[..j]))
  }

  /** Writes samples of a track as long as the next byte of the data is theirs. */
  method WriteTrackData(io: Io, t: FTrack, n0: nat) returns (n: nat)
    requires io.Tracking() && t.cursor == 0 && LaidFrom(t, n0)
    modifies io`data, io`pos, io`out, t`cursor
    ensures io.Tracking() && t.cursor == |t.samples|
    ensures n == n0 + Sum(Sizes(t.V().ms))
    ensures io.out == old(io.out) + Join(DataOf(t.samples))
  {
    hide Io.Tracking, Join, Sum, Sizes;
    ghost var ms, ds := MediasOf(t.samples), DataOf(t.samples);
    n := n0;
    JoinNone();
    while t.cursor < |t.samples| && n == t.samples[t.cursor].m.offset
      invariant t.cursor <= |t.samples| && io.Tracking()
      invariant n == n0 + Sum(Sizes(ms[..t.cursor]))
      invariant io.out == old(io.out) + Join(ds[..t.cursor])
    {
      JoinPrefix(ds, t.cursor);
      SizesPrefix(ms, t.cursor);
      io.Put(t.samples[t.cursor].data);
      n := n + t.samples[t.cursor].m.bytes;
      t.cursor := t.cursor + 1;
    }
    assert t.cursor == |t.samples|;
    assert ms[..t.cursor] == ms && ds[..t.cursor] == ds;
  }

  lemma JoinNone()
    ensures Join([]) == [] && JoinAll([]) == [] && Sum(Sizes([])) == 0
  {
  }

  ghost predicate AllLaid(ts: seq<FTrack>)
    reads ts`samples, ts`startDts, ts`turnLast
  {
    forall k :: 0 <= k < |ts| ==> LaidFrom(ts[k], Bulk(Views(ts)[..k]))
  }

  ghost predicate Written(ts: seq<FTrack>)
    reads ts`samples, ts`cursor
  {
    forall k :: 0 <= k < |ts| ==> ts[k].cursor == |ts[k].samples|
  }

  /** Once round the tracks. */
  method WriteRound(io: Io, ts: seq<FTrack>) returns (n: nat)
    requires io.Tracking() && Distinct(ts) && Resting(ts) && AllLaid(ts)
    modifies io`data, io`pos, io`out, ts`cursor
    ensures io.Tracking() && Written(ts) && n == Bulk(Views(ts))
    ensures io.out == old(io.out) + JoinAll(Datas(ts))
  {
    hide Io.Tracking, Join, JoinAll, DataOf, Bulk, LaidFrom, FTrack.V, Sum, Sizes, Views, Datas;
    ghost var vs, dss := Views(ts), Datas(ts);
    n := 0;
    var i: nat := 0;
    JoinNone();
    NoTrafs(0);
    ViewsAt(ts);
    while i < |ts|
      invariant i <= |ts| && io.Tracking() && Views(ts) == vs && n == Bulk(vs[..i])
      invariant forall k :: 0 <= k < |ts| ==> ts[k].cursor == if k < i then |ts[k].samples| else 0
      invariant io.out == old(io.out) + JoinAll(dss[..i])
    {
      BulkPrefix(vs, i);
      JoinAllPrefix(dss, i);
      ViewsAt(ts);
      assert LaidFrom(ts[i], n);
      n := WriteTrackData(io, ts[i], n);
      i := i + 1;
    }
    assert vs[..i] == vs && dss[..i] == dss;
  }

  /** The interleave loop: one round writes everything. */
  method WriteData(io: Io, ts: seq<FTrack>, mdatSize: nat)
    requires io.Tracking() && Distinct(ts) && Resting(ts) && AllLaid(ts) && mdatSize == Bulk(Views(ts)) > 0
    modifies io`data, io`pos, io`out, ts`cursor
    ensures io.Tracking() && io.out == old(io.out) + JoinAll(Datas(ts))
  {
    hide Io.Tracking, JoinAll, AllLaid, Bulk, Views, Datas;
    var n := 0;
    while n < mdatSize
      invariant io.Tracking() && AllLaid(ts) && mdatSize == Bulk(Views(ts)) && (n == 0 || n == mdatSize)
      invariant n == 0 ==> Resting(ts) && io.out == old(io.out)
      invariant n == mdatSize ==> io.out == old(io.out) + JoinAll(Datas(ts))
    {
      n := WriteRound(io, ts);
    }
  }

  // ---- Fragments on file ----

  /** A fragment as it was flushed: the indexes that closed segments in front of it, the moov in front of
      it if there is one, its number, its tracks, their data. */
  datatype Fragment = Fragment(before: seq<Index>, head: Option<FragmentIntro.Intro>, id: nat, vs: seq<TrackF>,
                               data: seq<seq<seq<byte>>>)

  function IntroOf(f: Fragment): seq<byte> {
    match f.head case None => [] case Some(m) => FragmentIntro.IntroBytes(m)
  }

  /** Everything in front of its moof. */
  function HeadBytes(f: Fragment): seq<byte> {
    Mfras(f.before) + IntroOf(f)
  }

  /** The parameter of the second pass: where the data starts behind the start of moof. */
  function DataStart(f: Fragment): nat {
    |MoofBox(f.vs, f.id, 0)| + 8
  }

  function FragmentBytes(f: Fragment): seq<byte> {
    HeadBytes(f) + MoofBox(f.vs, f.id, DataStart(f)) + MdatHeader(Bulk(f.vs)) + JoinAll(f.data)
  }

  function FileOf(done: seq<Fragment>): seq<byte> {
    if done == [] then [] else FileOf(done[..|done| - 1]) + FragmentBytes(done[|done| - 1])
  }

  /** Where the moof of fragment `k` stands. */
  function MoofAt(done: seq<Fragment>, k: nat): nat
    requires k < |done|
  {
    |FileOf(done[..k])| + |HeadBytes(done[k])|
  }

  predicate HasSamples(f: Fragment, i: nat) { i < |f.vs| && f.vs[i].ms != [] }

  /** What an index has to say of track `i` and the fragments from number `from` on. */
  function MarksOf(done: seq<Fragment>, from: nat, i: nat): seq<Mark> {
    if |done| <= from then [] else
      var n := |done| - 1;
      MarksOf(done[..n], from, i) + (if HasSamples(done[n], i) then [MarkOf(done, n, i)] else [])
  }

  /** Fragments are numbered from 1. */
  predicate Consecutive(done: seq<Fragment>) {
    forall k :: 0 <= k < |done| ==> done[k].id == k + 1
  }

  function MarkOf(done: seq<Fragment>, k: nat, i: nat): Mark
    requires k < |done| && HasSamples(done[k], i)
  {
    Mark(U64(done[k].vs[i].ms[0].dts), U64(MoofAt(done, k)))
  }

  /** Tracks and data fit together, and the samples lie one behind the other. */
  ghost predicate Sound(f: Fragment) {
    && |f.vs| == |f.data| && f.vs == LaidAll(f.vs)
    && forall i :: 0 <= i < |f.vs| ==> SizesMatch(f.vs[i].ms, f.data[i])
  }

  ghost predicate SizesMatch(ms: seq<Media>, ds: seq<seq<byte>>) {
    |ms| == |ds| && forall j :: 0 <= j < |ms| ==> |ds[j]| == ms[j].bytes
  }

  // ---- Two passes over moof ----

  lemma AppendIs(base: seq<byte>, b: seq<byte>)
    ensures Splice(base, |base|, b) == base + b
  {
  }

  lemma OverwriteTail(base: seq<byte>, a: seq<byte>, b: seq<byte>, c: seq<byte>)
    requires |a| == |b|
    ensures Splice(base + a, |base|, b + c) == base + b + c
  {
    if c == [] {
      assert (base + a)[..|base|] == base;
      assert (base + a)[|base| + |b|..] == [];
    } else {
      assert (base + a)[..|base|] == base;
    }
  }

  /** moof with placeholder offsets, then again over it with the real ones. Writing goes on behind it. */
  method WriteMoofs(io: Io, ts: seq<FTrack>, fragment: nat) returns (size: nat)
    requires io.error == 0 && io.pos == |io.data| && Distinct(ts)
    modifies io, ts`samples, ts`tfhdFlags, ts`defaultDuration, ts`defaultSize, ts`defaultFlags
    ensures Views(ts) == LaidAll(old(Views(ts))) && Datas(ts) == old(Datas(ts))
    ensures size == |MoofBox(Views(ts), fragment, 0)|
    ensures io.Tracking() && io.start == |old(io.data)| && |io.base| == io.start + size
    ensures io.base[..io.start] == old(io.data) && io.out == MoofBox(Views(ts), fragment, size + 8)
  {
    hide MoofBox, LaidAll, Views, Datas, Io.Tracking, Distinct, Splice;
    ghost var before := io.data;
    var moofOffset := io.Tell();
    io.Begin();
    size := WriteMoof(io, ts, fragment, 0);
    TrackingIs(io);
    AppendIs(before, io.out);
    io.Seek(moofOffset);
    io.Begin();
    LaidAllAgain(old(Views(ts)));
    MoofSize(Views(ts), fragment, 0, size + 8);
    var n := WriteMoof(io, ts, fragment, size + 8);
  }

  method WriteMdatHeader(io: Io, mdatSize: nat)
    requires io.Tracking()
    modifies io`data, io`pos, io`out
    ensures io.Tracking() && io.out == old(io.out) + MdatHeader(mdatSize)
  {
    hide BE32, BE64, Tag, Io.Tracking;
    ghost var head := io.out;
    if mdatSize + 8 <= UINT32_MAX {
      io.W32(mdatSize + 8);
      io.Put(Tag("mdat"));
    } else {
      io.W32(1);
      io.Put(Tag("mdat"));
      io.W64(U64(mdatSize + 16));
    }
    assert io.out == head + MdatHeader(mdatSize);
  }

  /** moof and mdat of everything that is queued, behind what is in the file. */
  method WriteBoxes(io: Io, ts: seq<FTrack>, fragment: nat, mdatSize: nat)
    requires io.error == 0 && io.pos == |io.data| && Distinct(ts) && Resting(ts)
    requires mdatSize == Bulk(Views(ts)) > 0
    modifies io, ts`samples, ts`tfhdFlags, ts`defaultDuration, ts`defaultSize, ts`defaultFlags, ts`cursor
    ensures io.error == 0 && io.pos == |io.data|
    ensures Views(ts) == LaidAll(old(Views(ts))) && Datas(ts) == old(Datas(ts))
    ensures io.data == old(io.data) + FragmentBytes(Fragment([], None, fragment, LaidAll(old(Views(ts))), old(Datas(ts))))
  {
    hide MoofBox, LaidAll, Views, Datas, Bulk, Io.Tracking, MdatHeader, AllLaid, JoinAll, FragmentBytes;
    ghost var before, f := io.data, Fragment([], None, fragment, LaidAll(Views(ts)), Datas(ts));
    LaidBulk(Views(ts));
    var size := WriteMoofs(io, ts, fragment);
    ghost var base, start := io.base, io.start;
    LaidViews(ts, old(Views(ts)));
    WriteMdatHeader(io, mdatSize);
    WriteData(io, ts, mdatSize);
    MoofSize(f.vs, fragment, 0, size + 8);
    ghost var moof, rest := MoofBox(f.vs, fragment, size + 8), MdatHeader(Bulk(f.vs)) + JoinAll(f.data);
    assert io.out == moof + rest && base == before + base[start..];
    OverwriteTail(before, base[start..], moof, rest);
    TrackingIs(io);
    BareFragment(f);
  }

  /** A fragment without anything in front of its moof. */
  lemma BareFragment(f: Fragment)
    requires f.before == [] && f.head == None
    ensures FragmentBytes(f) == MoofBox(f.vs, f.id, DataStart(f)) + (MdatHeader(Bulk(f.vs)) + JoinAll(f.data))
  {
    hide MoofBox, MdatHeader, Bulk, JoinAll, DataStart;
    assert Mfras([]) == [];
  }

  lemma TrackingIs(io: Io)
    requires io.Tracking()
    ensures io.error == 0 && io.start <= |io.base| && io.data == Splice(io.base, io.start, io.out)
    ensures io.pos == io.start + |io.out|
  {
  }

  /** Tracks whose views have been laid out. */
  lemma LaidViews(ts: seq<FTrack>, vs: seq<TrackF>)
    requires Views(ts) == LaidAll(vs)
    ensures AllLaid(ts)
  {
    hide Sum, Sizes, Bulk, LaidAll, Laid, Views;
    ViewsAt(ts);
    forall k | 0 <= k < |ts|
      ensures LaidFrom(ts[k], Bulk(Views(ts)[..k]))
    {
      LaidAllAgain(vs);
      LaidAllAt(Views(ts), k);
      LaidIsLaidFrom(ts[k], Bulk(Views(ts)[..k]));
    }
  }

  lemma LaidIsLaidFrom(t: FTrack, n: nat)
    requires t.V().ms == Laid(t.V().ms, n)
    ensures LaidFrom(t, n)
  {
    hide Sum, Sizes, Laid;
    var ms := t.V().ms;
    forall j | 0 <= j < |t.samples|
      ensures t.samples[j].m.offset == n + Sum(Sizes(ms[..j]))
    {
      LaidAt(ms, n, j);
      assert ms[j] == t.samples[j].m;
    }
  }

  // ---- The writer ----

  /** A sample as the caller handed it over. */
  datatype Sent = Sent(flags: int, pts: int, dts: int, data: seq<byte>)

  function SentOf(ms: seq<Media>, ds: seq<seq<byte>>): (r: seq<Sent>)
    ensures |r| == |ms|
  {
    seq(|ms|, j requires 0 <= j < |ms| =>
      Sent(ms[j].flags, ms[j].pts, ms[j].dts, if j < |ds| then ds[j] else []))
  }

  /** What the fragments hold of track `i`, in file order. */
  function Flushed(done: seq<Fragment>, i: nat): seq<Sent> {
    if done == [] then [] else
      var f := done[|done| - 1];
      Flushed(done[..|done| - 1], i) + (if i < |f.vs| == |f.data| then FlushedIn(f, i) else [])
  }

  function FlushedIn(f: Fragment, i: nat): (r: seq<Sent>)
    requires i < |f.vs| == |f.data|
  {
    SentOf(f.vs[i].ms, f.data[i])
  }

  ghost predicate AllSound(done: seq<Fragment>) {
    forall k :: 0 <= k < |done| ==> Sound(done[k])
  }

  lemma FileOfSnoc(done: seq<Fragment>, f: Fragment)
    ensures FileOf(done + [f]) == FileOf(done) + FragmentBytes(f)
  {
    hide FragmentBytes;
    assert (done + [f])[..|done|] == done;
  }

  lemma HeadIs(f: Fragment)
    ensures FragmentBytes(f) == HeadBytes(f) + FragmentBytes(f.(before := [], head := None))
    ensures FragmentBytes(f) == Mfras(f.before) + (IntroOf(f) + FragmentBytes(f.(before := [], head := None)))
  {
    hide MoofBox, MdatHeader, Bulk, JoinAll, FragmentIntro.IntroBytes, MfraBox;
    var a, b, c := MoofBox(f.vs, f.id, DataStart(f)), MdatHeader(Bulk(f.vs)), JoinAll(f.data);
    assert Mfras([]) == [] && HeadBytes(f.(before := [], head := None)) == [];
    assert HeadBytes(f) + a + b + c == HeadBytes(f) + ([] + a + b + c);
  }

  lemma {:induction false} NoMarksYet(done: seq<Fragment>, from: nat, i: nat)
    requires forall k :: from <= k < |done| ==> |done[k].vs| <= i
    ensures MarksOf(done, from, i) == []
  {
    hide MarkOf;
    if |done| > from {
      NoMarksYet(done[..|done| - 1], from, i);
    }
  }

  /** One fragment more. */
  lemma OneMoreMark(done: seq<Fragment>, f: Fragment, from: nat, i: nat)
    requires from <= |done|
    ensures var all := done + [f];
      && MoofAt(all, |done|) == |FileOf(done)| + |HeadBytes(f)|
      && MarksOf(all, from, i) == MarksOf(done, from, i)
         + (if HasSamples(f, i) then [Mark(U64(f.vs[i].ms[0].dts), U64(|FileOf(done)| + |HeadBytes(f)|))] else [])
  {
    hide FileOf, HeadBytes;
    assert (done + [f])[..|done|] == done;
  }

  lemma FlushedSnoc(done: seq<Fragment>, f: Fragment, i: nat)
    requires i < |f.vs| == |f.data|
    ensures Flushed(done + [f], i) == Flushed(done, i) + FlushedIn(f, i)
  {
    hide FlushedIn;
    assert (done + [f])[..|done|] == done;
  }

  lemma {:induction false} NoBulk(vs: seq<TrackF>)
    requires forall i :: 0 <= i < |vs| ==> vs[i].ms == []
    ensures Bulk(vs) == 0
  {
    if vs != [] {
      NoBulk(vs[..|vs| - 1]);
    }
  }

  /** Only the queues count. */
  lemma {:induction false} BulkSame(vs: seq<TrackF>, ws: seq<TrackF>)
    requires |vs| == |ws| && forall i :: 0 <= i < |vs| ==> vs[i].ms == ws[i].ms
    ensures Bulk(vs) == Bulk(ws)
  {
    hide Sum, Sizes;
    if vs != [] {
      BulkSame(vs[..|vs| - 1], ws[..|ws| - 1]);
    }
  }

  /** One more sample in one queue. */
  lemma {:induction false} BulkAdd(vs: seq<TrackF>, ws: seq<TrackF>, i: nat, m: Media)
    requires |vs| == |ws| && i < |vs| && ws[i].ms == vs[i].ms + [m]
    requires forall k :: 0 <= k < |vs| && k != i ==> vs[k].ms == ws[k].ms
    ensures Bulk(ws) == Bulk(vs) + m.bytes
  {
    hide Sum, Sizes;
    var n := |vs| - 1;
    if i < n {
      BulkAdd(vs[..n], ws[..n], i, m);
    } else {
      BulkSame(vs[..n], ws[..n]);
      assert ws[i].ms[..|vs[i].ms|] == vs[i].ms && ws[i].ms[..|ws[i].ms|] == ws[i].ms;
      SizesPrefix(ws[i].ms, |vs[i].ms|);
    }
  }

  lemma {:induction false} FlushedNone(done: seq<Fragment>, i: nat)
    requires forall k :: 0 <= k < |done| ==> |done[k].vs| <= i
    ensures Flushed(done, i) == []
  {
    if done != [] {
      FlushedNone(done[..|done| - 1], i);
    }
  }

  /** Where samples lie is no part of what was sent. */
  lemma SentLaid(ms: seq<Media>, n: nat, ds: seq<seq<byte>>)
    ensures SentOf(Laid(ms, n), ds) == SentOf(ms, ds)
  {
    hide Sum, Sizes, Laid;
    forall j | 0 <= j < |ms|
      ensures SentOf(Laid(ms, n), ds)[j] == SentOf(ms, ds)[j]
    {
      LaidAt(ms, n, j);
    }
  }

  lemma FragmentSound(f: Fragment, vs: seq<TrackF>)
    requires f.vs == LaidAll(vs) && |f.data| == |vs|
    requires forall i :: 0 <= i < |vs| ==> SizesMatch(vs[i].ms, f.data[i])
    ensures Sound(f)
    ensures forall i :: 0 <= i < |vs| ==> FlushedIn(f, i) == SentOf(vs[i].ms, f.data[i])
  {
    hide LaidAll, Laid, Sum, Sizes, SizesMatch, SentOf, Bulk;
    LaidAllAgain(vs);
    forall i | 0 <= i < |vs|
      ensures SizesMatch(f.vs[i].ms, f.data[i])
    {
      LaidAllAt(vs, i);
      LaidMatch(vs[i].ms, Bulk(vs[..i]), f.data[i]);
    }
    forall i | 0 <= i < |vs|
      ensures FlushedIn(f, i) == SentOf(vs[i].ms, f.data[i])
    {
      LaidAllAt(vs, i);
      SentLaid(vs[i].ms, Bulk(vs[..i]), f.data[i]);
    }
  }

  lemma LaidMatch(ms: seq<Media>, n: nat, ds: seq<seq<byte>>)
    requires SizesMatch(ms, ds)
    ensures SizesMatch(Laid(ms, n), ds)
  {
    hide Laid, Sum, Sizes;
    forall j | 0 <= j < |ms|
      ensures |ds[j]| == Laid(ms, n)[j].bytes
    {
      LaidAt(ms, n, j);
    }
  }

  /** After a flush: what was queued has moved to the last fragment. */
  lemma KeptFlushed(log: seq<Sent>, done: seq<Fragment>, f: Fragment, i: nat, queue: seq<Sent>)
    requires i < |f.vs| == |f.data|
    requires log == Flushed(done, i) + queue && FlushedIn(f, i) == queue
    ensures log == Flushed(done + [f], i)
  {
    hide FlushedIn, Flushed;
    FlushedSnoc(done, f, i);
  }

  /** Nothing lost, repeated or reordered; the first and last times are those of the samples. */
  ghost predicate Kept(ps: seq<Packet>, start: int, last: int, log: seq<Sent>, flushed: seq<Sent>) {
    && Sized(ps)
    && log == flushed + SentOf(MediasOf(ps), DataOf(ps))
    && Timed(start, last, log)
  }

  ghost predicate Timed(start: int, last: int, log: seq<Sent>) {
    && (forall j :: 0 <= j < |log| ==> log[j].dts > INT64_MIN)
    && start == (if log == [] then INT64_MIN else log[0].dts)
    && last == (if log == [] then INT64_MIN else log[|log| - 1].dts)
  }

  lemma KeptEmpty(start: int, last: int, log: seq<Sent>)
    requires Timed(start, last, log)
    ensures Kept([], start, last, log, log)
  {
    hide Timed;
  }

  lemma WasTimed(ps: seq<Packet>, start: int, last: int, log: seq<Sent>, flushed: seq<Sent>)
    requires Kept(ps, start, last, log, flushed)
    ensures Timed(start, last, log)
  {
  }

  lemma KeptAdd(ps: seq<Packet>, p: Packet, start: int, last: int, log: seq<Sent>, flushed: seq<Sent>)
    requires Kept(ps, start, last, log, flushed) && |p.data| == p.m.bytes && p.m.dts > INT64_MIN
    ensures Kept(ps + [p], if start == INT64_MIN then p.m.dts else start, p.m.dts,
                 log + [Sent(p.m.flags, p.m.pts, p.m.dts, p.data)], flushed)
  {
    var s := Sent(p.m.flags, p.m.pts, p.m.dts, p.data);
    assert SentOf(MediasOf(ps + [p]), DataOf(ps + [p])) == SentOf(MediasOf(ps), DataOf(ps)) + [s];
    assert log + [s] == flushed + (SentOf(MediasOf(ps), DataOf(ps)) + [s]);
  }

  /** Where a fragment comes from: its tracks are the first ones of the writer, its times count from
      the very first sample of each; a moov in front of it announces exactly its tracks. */
  ghost predicate From(f: Fragment, logs: seq<seq<Sent>>) {
    && Bulk(f.vs) > 0 && |f.vs| <= |logs|
    && (forall i :: 0 <= i < |f.vs| ==>
          f.vs[i].id == i + 1 && (f.vs[i].ms != [] ==> logs[i] != [] && f.vs[i].start == logs[i][0].dts))
    && (f.head.Some? ==> NumberedFor(f.head.value.headers, |f.vs|))
  }

  predicate NumberedFor(hs: seq<Header>, n: nat) {
    |hs| == n && forall i :: 0 <= i < n ==> hs[i].id == i + 1
  }

  ghost predicate AllFrom(done: seq<Fragment>, logs: seq<seq<Sent>>) {
    forall k :: 0 <= k < |done| ==> From(done[k], logs)
  }

  /** The first fragment has a moov in front of it, and so has the first one behind an index; tracks are
      only ever added. */
  ghost predicate Widening(done: seq<Fragment>) {
    && (done != [] ==> done[0].head.Some?)
    && (forall k :: 0 <= k < |done| && done[k].before != [] ==> done[k].head.Some?)
    && forall j, k :: 0 <= j < k < |done| ==> |done[j].vs| <= |done[k].vs|
  }

  lemma WideningMore(done: seq<Fragment>, f: Fragment)
    requires Widening(done) && (done == [] || f.before != [] ==> f.head.Some?)
    requires forall k :: 0 <= k < |done| ==> |done[k].vs| <= |f.vs|
    ensures Widening(done + [f])
  {
  }

  /** Longer logs start with the same samples. */
  ghost predicate Grown(logs: seq<seq<Sent>>, logs': seq<seq<Sent>>) {
    && |logs| <= |logs'|
    && forall i :: 0 <= i < |logs| && logs[i] != [] ==> logs'[i] != [] && logs'[i][0] == logs[i][0]
  }

  lemma StillFrom(done: seq<Fragment>, logs: seq<seq<Sent>>, logs': seq<seq<Sent>>)
    requires AllFrom(done, logs) && Grown(logs, logs')
    ensures AllFrom(done, logs')
  {
    hide Bulk;
    forall k | 0 <= k < |done|
      ensures From(done[k], logs')
    {
      assert From(done[k], logs);
    }
  }

  lemma LoggedFrom(done: seq<Fragment>, logs: seq<seq<Sent>>, i: nat, s: Sent)
    requires AllFrom(done, logs) && i < |logs|
    ensures AllFrom(done, logs[i := logs[i] + [s]])
  {
    hide AllFrom;
    StillFrom(done, logs, logs[i := logs[i] + [s]]);
  }

  lemma OneMoreFrom(done: seq<Fragment>, f: Fragment, logs: seq<seq<Sent>>)
    requires AllFrom(done, logs) && From(f, logs)
    ensures AllFrom(done + [f], logs)
  {
    hide From;
  }

  lemma NotWider(done: seq<Fragment>, logs: seq<seq<Sent>>)
    requires AllFrom(done, logs)
    ensures forall k :: 0 <= k < |done| ==> |done[k].vs| <= |logs|
  {
    forall k | 0 <= k < |done|
      ensures |done[k].vs| <= |logs|
    {
      assert From(done[k], logs);
    }
  }

  /** The index of a track once a fragment has been noted, if the track has samples in it. */
  function Entered(was: seq<Mark>, ps: seq<Packet>, moofOffset: nat): seq<Mark> {
    was + (if ps == [] then [] else [Mark(U64(ps[0].m.dts), U64(moofOffset))])
  }

  /** The headers of some tracks. */
  function HeadersOf(ts: seq<FTrack>): (hs: seq<Header>)
    ensures |hs| == |ts| && forall i :: 0 <= i < |ts| ==> hs[i] == ts[i].header
  {
    seq(|ts|, i requires 0 <= i < |ts| => ts[i].header)
  }

  class FWriter {
    const io: Io
    const created: uint32
    var udta: seq<byte>
    var tracks: seq<FTrack>
    var nextId: uint32
    var mdatSize: nat
    var hasMoov: bool
    var fragmentId: nat

    ghost var done: seq<Fragment>
    ghost var trailing: seq<Index>  // the indexes behind the last fragment
    ghost var segment: nat          // the number of fragments up to the last index
    ghost var logs: seq<seq<Sent>>

    /** The file is the fragments and indexes, and every sample sits in a fragment or in its queue. */
    ghost predicate Valid()
      reads this, io, tracks
    {
      && OnFile() && InQueues() && InIndex() && |logs| == |tracks| && nextId == |tracks| + 1
      && AllFrom(done, logs) && Widening(done) && (done == [] || trailing != [] ==> !hasMoov)
    }

    ghost predicate OnFile()
      reads this`done, this`trailing, io
    {
      io.error == 0 && io.pos == |io.data| && io.data == FileOf(done) + Mfras(trailing) && AllSound(done)
    }

    /** Each track knows its fragments of the segment; an index names tracks that are there; fragments are
        numbered over all segments. */
    ghost predicate InIndex()
      reads this`tracks, this`done, this`trailing, this`segment, this`fragmentId, tracks`frags
    {
      && segment <= |done| && fragmentId == |done| && Consecutive(done) && AllWithin(trailing, |tracks|)
      && forall i :: 0 <= i < |tracks| ==> tracks[i].frags == MarksOf(done, segment, i)
    }

    ghost predicate InQueues()
      reads this`tracks, this`mdatSize, this`logs, this`done, tracks
    {
      && Distinct(tracks) && Resting(tracks) && mdatSize == Bulk(Views(tracks))
      && (forall i :: 0 <= i < |tracks| ==> tracks[i].header.id == i + 1)
      && |logs| == |tracks| && AllKept(logs)
    }

    constructor (io: Io, created: uint32)
      requires io.error == 0 && io.data == [] && io.pos == 0
      ensures Valid() && this.io == io && this.created == created
      ensures udta == [] && tracks == [] && done == [] && trailing == [] && logs == [] && !hasMoov && mdatSize == 0
      ensures nextId == 1 && segment == 0
    {
      this.io, this.created := io, created;
      udta, tracks, nextId, mdatSize, hasMoov, fragmentId := [], [], 1, 0, false, 0;
      done, trailing, segment, logs := [], [], 0, [];
      new;
      hide *;
      NothingYet();
    }

    lemma NothingYet()
      requires io.error == 0 && io.data == [] && io.pos == 0
      requires tracks == [] && nextId == 1 && mdatSize == 0 && !hasMoov && fragmentId == 0
      requires done == [] && trailing == [] && segment == 0 && logs == []
      ensures Valid()
    {
      hide OnFile, InQueues, InIndex, AllFrom, Widening;
      NoFile();
      NoQueues();
      NoIndex();
      NoFragments();
    }

    lemma NoFile()
      requires io.error == 0 && io.data == [] && io.pos == 0 && done == [] && trailing == []
      ensures OnFile()
    {
    }

    lemma NoQueues()
      requires tracks == [] && mdatSize == 0 && logs == []
      ensures InQueues()
    {
    }

    lemma NoIndex()
      requires tracks == [] && done == [] && trailing == [] && segment == 0 && fragmentId == 0
      ensures InIndex()
    {
    }

    lemma NoFragments()
      ensures AllFrom([], []) && Widening([])
    {
    }

    method Clear()
      requires Distinct(tracks)
      modifies tracks`samples, tracks`cursor
      ensures Resting(tracks) && Bulk(Views(tracks)) == 0
      ensures forall i :: 0 <= i < |tracks| ==>
        tracks[i].samples == [] && tracks[i].V() == old(tracks[i].V()).(ms := [])
    {
      hide Bulk, Views;
      var i: nat := 0;
      while i < |tracks|
        invariant i <= |tracks|
        invariant forall k :: 0 <= k < i ==> tracks[k].samples == [] && tracks[k].cursor == 0
      {
        tracks[i].samples := [];
        tracks[i].cursor := 0;
        i := i + 1;
      }
      ViewsAt(tracks);
      NoBulk(Views(tracks));
    }

    /** What a moov says now. */
    ghost function Announcement(): FragmentIntro.Intro
      reads this`nextId, this`udta, this`tracks
    {
      FragmentIntro.Intro(created, nextId, udta, HeadersOf(tracks))
    }

    /** The fragment that a flush makes of the queues. */
    ghost function Pending(): Fragment
      reads this`hasMoov, this`fragmentId, this`tracks, this`nextId, this`udta, this`trailing, tracks
    {
      Fragment(trailing, if hasMoov then None else Some(Announcement()), fragmentId + 1, LaidAll(Views(tracks)),
               Datas(tracks))
    }

    method WriteHead()
      requires io.error == 0 && io.pos == |io.data|
      modifies this`hasMoov, io
      ensures io.error == 0 && io.pos == |io.data| && hasMoov
      ensures io.data == old(io.data) + IntroOf(old(Pending()))
    {
      hide FragmentIntro.IntroBytes, Io.Tracking, Views, Datas, LaidAll, HeadersOf;
      if !hasMoov {
        ghost var before := io.data;
        io.Begin();
        FragmentIntro.WriteIntro(io, FragmentIntro.Intro(created, nextId, udta, HeadersOf(tracks)));
        TrackingIs(io);
        AppendIs(before, io.out);
        hasMoov := true;
      }
    }

    /** fmp4_add_fragment_entry for each track with samples. */
    method AddEntries(moofOffset: nat)
      requires Distinct(tracks)
      modifies tracks`frags
      ensures forall i :: 0 <= i < |tracks| ==>
        tracks[i].frags == Entered(old(tracks[i].frags), tracks[i].samples, moofOffset)
    {
      var i: nat := 0;
      while i < |tracks|
        invariant i <= |tracks|
        invariant forall k :: i <= k < |tracks| ==> tracks[k].frags == old(tracks[k].frags)
        invariant forall k :: 0 <= k < i ==>
          tracks[k].frags == Entered(old(tracks[k].frags), tracks[k].samples, moofOffset)
      {
        if |tracks[i].samples| > 0 {
          tracks[i].frags := tracks[i].frags + [Mark(U64(tracks[i].samples[0].m.dts), U64(moofOffset))];
        }
        i := i + 1;
      }
    }

    /** moof and mdat of what is queued, which is queued no longer. */
    method FlushBoxes()
      requires io.error == 0 && io.pos == |io.data| && Distinct(tracks) && Resting(tracks)
      requires mdatSize == Bulk(Views(tracks)) > 0
      modifies this`mdatSize, this`fragmentId, io
      modifies tracks`samples, tracks`tfhdFlags, tracks`defaultDuration, tracks`defaultSize, tracks`defaultFlags
      modifies tracks`cursor
      ensures io.error == 0 && io.pos == |io.data| && fragmentId == old(fragmentId) + 1
      ensures io.data == old(io.data)
        + FragmentBytes(Fragment([], None, fragmentId, LaidAll(old(Views(tracks))), old(Datas(tracks))))
      ensures Resting(tracks) && mdatSize == Bulk(Views(tracks)) == 0
      ensures forall i :: 0 <= i < |tracks| ==> tracks[i].samples == []
    {
      hide FragmentBytes, FTrack.V, Views, Datas, Bulk, LaidAll, DataOf, Distinct;
      fragmentId := fragmentId + 1;
      WriteBoxes(io, tracks, fragmentId, mdatSize);
      Clear();
      mdatSize := 0;
    }

    /** The fragment is appended to the file, its place is noted, and the queues are emptied. */
    method Flush()
      requires io.error == 0 && io.pos == |io.data| && Distinct(tracks) && Resting(tracks)
      requires mdatSize == Bulk(Views(tracks)) > 0
      modifies this`mdatSize, this`hasMoov, this`fragmentId, io
      modifies tracks`samples, tracks`tfhdFlags, tracks`defaultDuration, tracks`defaultSize, tracks`defaultFlags
      modifies tracks`cursor, tracks`frags
      ensures io.error == 0 && io.pos == |io.data|
      ensures var f := old(Pending());
        io.data == old(io.data) + (IntroOf(f) + FragmentBytes(f.(before := [], head := None)))
      ensures Resting(tracks) && mdatSize == Bulk(Views(tracks)) == 0 && hasMoov && fragmentId == old(fragmentId) + 1
      ensures forall i :: 0 <= i < |tracks| ==> tracks[i].samples == []
      ensures forall i :: 0 <= i < |tracks| ==>
        tracks[i].frags == Entered(old(tracks[i].frags), old(tracks[i].samples), |old(io.data)| + |IntroOf(old(Pending()))|)
    {
      hide FragmentBytes, FTrack.V, Views, Datas, Bulk, LaidAll, DataOf, IntroOf, Distinct, Resting,
           HeadersOf, Entered, Announcement;
      ghost var f := Pending();
      WriteHead();
      var moofOffset := io.Tell();
      AddEntries(moofOffset);
      FlushBoxes();
    }

    /** A flush, and what it means for the file and the index. */
    method FlushFile()
      requires OnFile() && InIndex() && Distinct(tracks) && Resting(tracks) && Sound(Pending())
      requires mdatSize == Bulk(Views(tracks)) > 0
      modifies this`mdatSize, this`hasMoov, this`fragmentId, this`done, this`trailing, io
      modifies tracks`samples, tracks`tfhdFlags, tracks`defaultDuration, tracks`defaultSize, tracks`defaultFlags
      modifies tracks`cursor, tracks`frags
      ensures OnFile() && InIndex() && done == old(done) + [old(Pending())] && trailing == []
      ensures Resting(tracks) && mdatSize == Bulk(Views(tracks)) == 0 && hasMoov
      ensures forall i :: 0 <= i < |tracks| ==> tracks[i].samples == []
    {
      hide FileOf, FragmentBytes, Sound, FTrack.V, Views, Datas, Bulk, LaidAll, Mfras, IntroOf, DataOf, Distinct, MarksOf,
           AllWithin, Resting, Entered, HeadersOf, Pending, HasSamples, HeadBytes;
      ghost var f := Pending();
      PendingHas();
      Flush();
      FlushedFile(f);
      FlushedIndex(f);
      NoneWithin(|tracks|);
      done, trailing := done + [f], [];
    }

    /** The bookkeeping of a flush. */
    method FlushQueues()
      requires Valid() && mdatSize > 0
      modifies this`mdatSize, this`hasMoov, this`fragmentId, this`done, this`trailing, io
      modifies tracks`samples, tracks`tfhdFlags, tracks`defaultDuration, tracks`defaultSize, tracks`defaultFlags
      modifies tracks`cursor, tracks`frags
      ensures Valid() && done == old(done) + [old(Pending())] && trailing == [] && mdatSize == 0 && hasMoov
      ensures forall i :: 0 <= i < |tracks| ==> tracks[i].samples == []
    {
      hide OnFile, InIndex, Sound, Flushed, FTrack.V, Views, Datas, Bulk, LaidAll, SentOf, FlushedIn,
           SizesMatch, MediasOf, DataOf, Distinct, Kept, Timed, From, AllFrom, Widening, HeadersOf;
      ghost var f := Pending();
      FlushSound();
      forall i | 0 <= i < |tracks|
        ensures Timed(tracks[i].startDts, tracks[i].lastDts, logs[i])
      {
        WasTimed(tracks[i].samples, tracks[i].startDts, tracks[i].lastDts, logs[i], Flushed(done, i));
      }
      PendingFrom();
      OneMoreFrom(done, f, logs);
      NotWider(done, logs);
      WideningMore(done, f);
      FlushFile();
      forall i | 0 <= i < |tracks|
        ensures Kept(tracks[i].samples, tracks[i].startDts, tracks[i].lastDts, logs[i], Flushed(done, i))
      {
        KeptEmpty(tracks[i].startDts, tracks[i].lastDts, logs[i]);
      }
    }

    lemma FlushedFile(f: Fragment)
      requires f.before == trailing
      ensures FileOf(done) + Mfras(trailing) + (IntroOf(f) + FragmentBytes(f.(before := [], head := None)))
           == FileOf(done + [f]) + Mfras([])
      ensures |FileOf(done) + Mfras(trailing)| + |IntroOf(f)| == |FileOf(done)| + |HeadBytes(f)|
    {
      hide FileOf, FragmentBytes, IntroOf, MfraBox;
      FileOfSnoc(done, f);
      HeadIs(f);
      assert Mfras([]) == [];
    }

    twostate lemma FlushedIndex(f: Fragment)
      requires old(InIndex()) && tracks == old(tracks) && done == old(done) && trailing == old(trailing) && segment == old(segment)
      requires forall i :: 0 <= i < |tracks| ==>
        (HasSamples(f, i) <==> old(tracks[i].samples) != [])
        && (HasSamples(f, i) ==> f.vs[i].ms[0].dts == old(tracks[i].samples)[0].m.dts)
      requires forall i :: 0 <= i < |tracks| ==>
        tracks[i].frags == Entered(old(tracks[i].frags), old(tracks[i].samples), |FileOf(done)| + |HeadBytes(f)|)
      ensures forall i :: 0 <= i < |tracks| ==> tracks[i].frags == MarksOf(done + [f], segment, i)
    {
      hide MarksOf, FileOf, HeadBytes;
      forall i | 0 <= i < |tracks|
        ensures tracks[i].frags == MarksOf(done + [f], segment, i)
      {
        OneMoreMark(done, f, segment, i);
      }
    }

    /** The first samples of the pending fragment. */
    lemma PendingHas()
      requires Distinct(tracks)
      ensures |Pending().vs| == |tracks| && Pending().before == trailing
      ensures forall i :: 0 <= i < |tracks| ==>
        (HasSamples(Pending(), i) <==> tracks[i].samples != [])
        && (HasSamples(Pending(), i) ==> Pending().vs[i].ms[0].dts == tracks[i].samples[0].m.dts)
      ensures Pending().id == fragmentId + 1
    {
      hide Views, Datas, Bulk, LaidAll, Laid;
      var vs := Views(tracks);
      ViewsAt(tracks);
      forall i | 0 <= i < |vs|
        ensures |LaidAll(vs)[i].ms| == |vs[i].ms| && (vs[i].ms != [] ==> LaidAll(vs)[i].ms[0].dts == vs[i].ms[0].dts)
      {
        LaidAllAt(vs, i);
        if vs[i].ms != [] {
          LaidAt(vs[i].ms, Bulk(vs[..i]), 0);
        }
      }
    }

    /** Everything queued becomes one fragment behind what is in the file. */
    method WriteFragment()
      requires Valid()
      modifies this`mdatSize, this`hasMoov, this`fragmentId, this`done, this`trailing, io
      modifies tracks`samples, tracks`tfhdFlags, tracks`defaultDuration, tracks`defaultSize, tracks`defaultFlags
      modifies tracks`cursor, tracks`frags
      ensures Valid() && trailing == (if old(mdatSize) > 0 then [] else old(trailing))
      ensures hasMoov == (old(hasMoov) || old(mdatSize) > 0)
      ensures old(mdatSize) == 0 ==> done == old(done) && io.data == old(io.data) && mdatSize == 0
      ensures old(mdatSize) == 0 ==> forall i :: 0 <= i < |tracks| ==> tracks[i].samples == old(tracks[i].samples)
      ensures old(mdatSize) > 0 ==> done == old(done) + [old(Pending())]
      ensures old(mdatSize) > 0 ==> mdatSize == 0 && forall i :: 0 <= i < |tracks| ==> tracks[i].samples == []
    {
      hide Valid, Pending, Views;
      if mdatSize < 1 {
        return;
      }
      FlushQueues();
    }

    /** The pending fragment holds exactly the queues. */
    lemma FlushSound()
      requires Valid()
      ensures Sound(Pending())
      ensures forall i :: 0 <= i < |tracks| ==> logs[i] == Flushed(done + [Pending()], i)
    {
      hide FileOf, Flushed, FTrack.V, Views, Datas, Bulk, LaidAll, SentOf, FlushedIn, SizesMatch, MediasOf, DataOf, Sound;
      var f, vs := Pending(), Views(tracks);
      ViewsAt(tracks);
      forall i | 0 <= i < |vs|
        ensures SizesMatch(vs[i].ms, f.data[i])
      {
        assert Kept(tracks[i].samples, tracks[i].startDts, tracks[i].lastDts, logs[i], Flushed(done, i));
        QueueMatches(tracks[i]);
      }
      FragmentSound(f, vs);
      forall i | 0 <= i < |tracks|
        ensures logs[i] == Flushed(done + [f], i)
      {
        assert Kept(tracks[i].samples, tracks[i].startDts, tracks[i].lastDts, logs[i], Flushed(done, i));
        QueueMatches(tracks[i]);
        KeptFlushed(logs[i], done, f, i, SentOf(vs[i].ms, f.data[i]));
      }
    }

    lemma PendingFrom()
      requires Valid() && mdatSize > 0
      ensures From(Pending(), logs) && |Pending().vs| == |logs|
    {
      hide FileOf, Flushed, Views, Datas, Bulk, LaidAll, AllFrom, Sound, Distinct, SentOf, Laid;
      var f, vs := Pending(), Views(tracks);
      ViewsAt(tracks);
      LaidBulk(vs);
      forall i | 0 <= i < |vs|
        ensures f.vs[i].id == i + 1 && (f.vs[i].ms != [] ==> logs[i] != [] && f.vs[i].start == logs[i][0].dts)
      {
        LaidAllAt(vs, i);
        assert Kept(tracks[i].samples, tracks[i].startDts, tracks[i].lastDts, logs[i], Flushed(done, i));
      }
    }

    lemma QueueMatches(t: FTrack)
      requires Sized(t.samples)
      ensures SizesMatch(t.V().ms, DataOf(t.samples)) && t.V().ms == MediasOf(t.samples)
    {
    }

    /** User data for the next `moov`, in the place of any given before. */
    method AddUdta(data: seq<byte>)
      requires Valid()
      modifies this`udta
      ensures Valid() && udta == data
    {
      hide OnFile, InIndex, InQueues, AllFrom, Widening;
      udta := data;
    }

    /** The track gets the next id. */
    method AddTrack(header: Header) returns (idx: nat)
      requires Valid() && nextId < UINT32_MAX
      modifies this`tracks, this`logs, this`nextId
      ensures Valid() && idx == |old(tracks)| && |tracks| == idx + 1 && tracks[..idx] == old(tracks)
      ensures fresh(tracks[idx]) && tracks[idx].header == header.(id := idx + 1) && tracks[idx].samples == []
      ensures logs == old(logs) + [[]] && nextId == old(nextId) + 1
    {
      hide OnFile, InIndex, InQueues, AllFrom, Widening;
      NotWider(done, logs);
      LogWidth();
      StillFrom(done, logs, logs + [[]]);
      var t := new FTrack(header.(id := nextId));
      idx := |tracks|;
      tracks := tracks + [t];
      nextId := nextId + 1;
      logs := logs + [[]];
      assert tracks[..idx] == old(tracks);
      QueuesWider(t);
      IndexWider(t);
    }

    lemma LogWidth()
      requires InQueues()
      ensures |logs| == |tracks|
    {
    }

    twostate lemma QueuesWider(new t: FTrack)
      requires old(InQueues()) && tracks == old(tracks) + [t] && t !in old(tracks) && t.header.id == |tracks|
      requires t.samples == [] && t.cursor == 0 && t.startDts == t.lastDts == INT64_MIN
      requires done == old(done) && mdatSize == old(mdatSize) && logs == old(logs) + [[]]
      requires forall k :: 0 <= k < |done| ==> |done[k].vs| <= |old(tracks)|
      requires forall i :: 0 <= i < |old(tracks)| ==> unchanged(old(tracks)[i])
      ensures InQueues()
    {
      hide Flushed, Bulk, Views, FTrack.V, Kept;
      FlushedNone(done, |old(tracks)|);
      BulkSnoc(old(tracks), t);
      KeptEmpty(INT64_MIN, INT64_MIN, []);
      assert Bulk(Views(old(tracks))) == old(Bulk(Views(tracks)));
      forall i | 0 <= i < |old(tracks)|
        ensures Kept(tracks[i].samples, tracks[i].startDts, tracks[i].lastDts, logs[i], Flushed(done, i))
      {
        assert old(Kept(tracks[i].samples, tracks[i].startDts, tracks[i].lastDts, logs[i], Flushed(done, i)));
      }
    }

    twostate lemma IndexWider(new t: FTrack)
      requires old(InIndex()) && tracks == old(tracks) + [t] && t.frags == []
      requires done == old(done) && trailing == old(trailing) && segment == old(segment) && fragmentId == old(fragmentId)
      requires forall k :: 0 <= k < |done| ==> |done[k].vs| <= |old(tracks)|
      requires forall i :: 0 <= i < |old(tracks)| ==> tracks[i].frags == old(tracks[i].frags)
      ensures InIndex()
    {
      hide MarksOf, AllWithin;
      WithinMore(trailing, |old(tracks)|, |tracks|);
      NoMarksYet(done, segment, |old(tracks)|);
    }

    lemma BulkSnoc(ts: seq<FTrack>, t: FTrack)
      requires t.samples == []
      ensures Bulk(Views(ts + [t])) == Bulk(Views(ts))
    {
      assert (ts + [t])[..|ts|] == ts;
      assert Views(ts + [t])[..|ts|] == Views(ts);
    }

    /** The time since the sample before, which stands in for the duration of the last one. */
    method Turn(ghost i: nat, t: FTrack, dts: int)
      requires Valid() && i < |tracks| && tracks[i] == t
      modifies t`turnLast
      ensures Valid() && t.turnLast == StepTo(t.lastDts, dts)
      ensures Views(tracks) == old(Views(tracks))[i := old(Views(tracks))[i].(last := StepTo(t.lastDts, dts))]
    {
      hide OnFile, InIndex, Flushed, Bulk, Views, Kept, AllFrom, Widening;
      ghost var vs := Views(tracks);
      ViewsAt(tracks);
      var duration := if dts > t.lastDts && INT64_MIN != t.lastDts then dts - t.lastDts else 0;
      t.turnLast := duration;
      ViewsAt(tracks);
      BulkSame(vs, Views(tracks));
    }

    function StepTo(last: int, dts: int): nat {
      if dts > last && last != INT64_MIN then dts - last else 0
    }

    ghost predicate AllKept(logs: seq<seq<Sent>>)
      requires |logs| == |tracks|
      reads this`tracks, this`done, tracks
    {
      forall i :: 0 <= i < |tracks| ==>
        Kept(tracks[i].samples, tracks[i].startDts, tracks[i].lastDts, logs[i], Flushed(done, i))
    }

    method Enqueue(ghost i: nat, t: FTrack, data: seq<byte>, pts: int, dts: int, flags: int)
      requires Valid() && i < |tracks| && tracks[i] == t && |data| <= UINT32_MAX && dts > INT64_MIN
      modifies this`mdatSize, this`logs, t`samples, t`startDts, t`lastDts
      ensures Valid() && logs == old(logs)[i := old(logs)[i] + [Sent(flags, pts, dts, data)]]
      ensures t.samples == old(t.samples) + [Packet(Media(flags, pts, dts, old(mdatSize), |data|, 1), data)]
    {
      hide OnFile, InIndex, Bulk, Views, FTrack.V, AllFrom, Resting, AllKept, Widening;
      ghost var vs := Views(tracks);
      ViewsAt(tracks);
      var m := PushKept(i, t, data, pts, dts, flags);
      BulkPushed(vs, i, m);
      LoggedFrom(done, logs, i, Sent(flags, pts, dts, data));
      mdatSize := mdatSize + |data|;
      logs := logs[i := logs[i] + [Sent(flags, pts, dts, data)]];
    }

    /** Push, with what it means for the samples that are accounted for. */
    method PushKept(ghost i: nat, t: FTrack, data: seq<byte>, pts: int, dts: int, flags: int) returns (m: Media)
      requires Distinct(tracks) && |logs| == |tracks| && AllKept(logs)
      requires i < |tracks| && tracks[i] == t && |data| <= UINT32_MAX && dts > INT64_MIN
      modifies t`samples, t`startDts, t`lastDts
      ensures m == Media(flags, pts, dts, mdatSize, |data|, 1)
      ensures t.samples == old(t.samples) + [Packet(m, data)] && t.V().ms == old(t.V().ms) + [m]
      ensures AllKept(logs[i := logs[i] + [Sent(flags, pts, dts, data)]])
    {
      hide Kept, Flushed, FTrack.V;
      m := Push(t, data, pts, dts, flags);
      KeptAdd(old(t.samples), Packet(m, data), old(t.startDts), old(t.lastDts), logs[i], Flushed(done, i));
    }

    method Push(t: FTrack, data: seq<byte>, pts: int, dts: int, flags: int) returns (m: Media)
      requires |data| <= UINT32_MAX
      modifies t`samples, t`startDts, t`lastDts
      ensures m == Media(flags, pts, dts, mdatSize, |data|, 1)
      ensures t.samples == old(t.samples) + [Packet(m, data)]
      ensures t.V().ms == old(t.V().ms) + [m]
      ensures t.startDts == (if old(t.startDts) == INT64_MIN then dts else old(t.startDts)) && t.lastDts == dts
    {
      m := Media(flags, pts * TIMESCALE / 1000, dts * TIMESCALE / 1000, mdatSize, |data|, 1);
      t.samples := t.samples + [Packet(m, data)];
      if t.startDts == INT64_MIN {
        t.startDts := m.dts;
      }
      t.lastDts := m.dts;
    }

    lemma BulkPushed(vs: seq<TrackF>, i: nat, m: Media)
      requires i < |tracks| == |vs| && tracks[i].V().ms == vs[i].ms + [m]
      requires forall k :: 0 <= k < |tracks| && k != i ==> tracks[k].V() == vs[k]
      ensures Bulk(Views(tracks)) == Bulk(vs) + m.bytes
    {
      hide FTrack.V, Views, Bulk;
      ViewsAt(tracks);
      BulkAdd(vs, Views(tracks), i, m);
    }

    /** The fragment that is flushed when track `i` starts a new one at `dts`. */
    ghost function Turned(i: nat, dts: int): Fragment
      requires i < |tracks|
      reads this`hasMoov, this`fragmentId, this`tracks, this`nextId, this`udta, this`trailing, tracks
    {
      var vs := Views(tracks);
      Pending().(vs := LaidAll(vs[i := vs[i].(last := StepTo(tracks[i].lastDts, dts))]))
    }

    lemma DistinctTracks()
      requires Valid()
      ensures Distinct(tracks)
    {
    }

    /** A key frame of a video track flushes what was queued before it. */
    method Write(idx: int, data: seq<byte>, pts: int, dts: int, flags: int) returns (r: int)
      requires Valid() && |data| <= UINT32_MAX && dts > INT64_MIN
      modifies this`mdatSize, this`hasMoov, this`fragmentId, this`done, this`trailing, this`logs, io, tracks
      ensures Valid()
      ensures !(0 <= idx < |tracks|) ==>
        && r == -2 && logs == old(logs) && done == old(done) && io.data == old(io.data) && trailing == old(trailing)
        && hasMoov == old(hasMoov) && forall k :: 0 <= k < |tracks| ==> tracks[k].samples == old(tracks[k].samples)
      ensures 0 <= idx < |tracks| ==>
        r == 0 && logs == old(logs)[idx := old(logs)[idx] + [Sent(flags, pts, dts, data)]]
      ensures 0 <= idx < |tracks| ==>
        && done == old(done) + (if old(Flushes(idx, flags)) then [old(Turned(idx, dts))] else [])
        && hasMoov == (old(hasMoov) || old(Flushes(idx, flags)))
        && trailing == (if old(Flushes(idx, flags)) then [] else old(trailing))
      ensures 0 <= idx < |tracks| ==> forall k :: 0 <= k < |tracks| ==>
        var queue := if old(Flushes(idx, flags)) then [] else old(tracks[k].samples);
        var m := Media(flags, pts, dts, if old(Flushes(idx, flags)) then 0 else old(mdatSize), |data|, 1);
        tracks[k].samples == if k == idx then queue + [Packet(m, data)] else queue
    {
      hide Valid, Kept, Views, Flushed, FileOf, Datas, LaidAll;
      if idx < 0 || idx >= |tracks| {
        return -2;
      }
      DistinctTracks();
      var t := tracks[idx];
      Turn(idx, t, dts);
      if t.header.handler == Video && flags % 2 == KEYFRAME {
        WriteFragment();
      }
      Enqueue(idx, t, data, pts, dts, flags);
      r := 0;
    }

    ghost predicate Flushes(idx: nat, flags: int)
      requires idx < |tracks|
      reads this`tracks, this`mdatSize
    {
      tracks[idx].header.handler == Video && flags % 2 == KEYFRAME && mdatSize > 0
    }

    method WriteMfra()
      requires io.error == 0 && io.pos == |io.data| && |tracks| < UINT32_MAX
      requires forall i :: 0 <= i < |tracks| ==> tracks[i].header.id == i + 1
      modifies io
      ensures io.error == 0 && io.pos == |io.data| && io.data == old(io.data) + MfraBox(IndexWriters.IndexOf(tracks))
    {
      hide MfraBox, Io.Tracking;
      ghost var before := io.data;
      io.Begin();
      IndexWriters.WriteMfra(io, tracks);
      TrackingIs(io);
      AppendIs(before, io.out);
    }

    method AppendFile()
      requires OnFile() && InIndex() && |tracks| < UINT32_MAX
      requires forall i :: 0 <= i < |tracks| ==> tracks[i].header.id == i + 1
      modifies this`trailing, io
      ensures OnFile() && InIndex() && trailing == old(trailing) + [SegmentIndex(done, segment, |tracks|)]
    {
      hide FileOf, Mfras, MfraBox, AllSound, MarksOf, AllWithin, SegmentIndex;
      ghost var m := SegmentIndex(done, segment, |tracks|);
      IndexIs();
      WriteMfra();
      IndexBehind(FileOf(done), trailing, m);
      WithinSnoc(trailing, m, |tracks|);
      trailing := trailing + [m];
    }

    /** The index of the segment, behind what is in the file. */
    method AppendIndex()
      requires Valid() && !hasMoov
      modifies this`trailing, io
      ensures Valid() && trailing == old(trailing) + [SegmentIndex(done, segment, |tracks|)]
    {
      hide OnFile, InIndex, InQueues, AllFrom, Widening, SegmentIndex;
      QueuesApart();
      AppendFile();
    }

    /** The next segment starts with nothing in its index. */
    method StartSegment()
      requires Valid()
      modifies this`segment, tracks`frags
      ensures Valid() && segment == |done|
    {
      hide OnFile, InQueues, AllFrom, Widening, MarksOf, AllWithin, Bulk, Views, Distinct;
      QueuesApart();
      ClearMarks();
      forall i | 0 <= i < |tracks|
        ensures MarksOf(done, |done|, i) == []
      {
        NoMarksYet(done, |done|, i);
      }
      segment := |done|;
      QueuesKept();
    }

    /** The queues do not depend on the index. */
    twostate lemma QueuesKept()
      requires old(InQueues()) && tracks == old(tracks) && mdatSize == old(mdatSize) && logs == old(logs) && done == old(done)
      requires forall i :: 0 <= i < |tracks| ==>
        && tracks[i].samples == old(tracks[i].samples) && tracks[i].cursor == old(tracks[i].cursor)
        && tracks[i].startDts == old(tracks[i].startDts) && tracks[i].lastDts == old(tracks[i].lastDts)
      requires Bulk(Views(tracks)) == old(Bulk(Views(tracks)))
      ensures InQueues()
    {
      hide Flushed, Kept, Bulk, Views;
      forall i | 0 <= i < |tracks|
        ensures Kept(tracks[i].samples, tracks[i].startDts, tracks[i].lastDts, logs[i], Flushed(done, i))
      {
        assert old(Kept(tracks[i].samples, tracks[i].startDts, tracks[i].lastDts, logs[i], Flushed(done, i)));
      }
    }

    lemma IndexIs()
      requires InIndex()
      ensures IndexWriters.IndexOf(tracks) == SegmentIndex(done, segment, |tracks|)
    {
      hide MarksOf;
      IndexWriters.IndexAt(tracks);
    }

    lemma QueuesApart()
      requires InQueues()
      ensures Distinct(tracks) && forall i :: 0 <= i < |tracks| ==> tracks[i].header.id == i + 1
    {
    }

    method ClearMarks()
      requires Distinct(tracks)
      modifies tracks`frags
      ensures forall i :: 0 <= i < |tracks| ==> tracks[i].frags == []
    {
      var i: nat := 0;
      while i < |tracks|
        invariant i <= |tracks| && forall k :: 0 <= k < i ==> tracks[k].frags == []
      {
        tracks[i].frags := [];
        i := i + 1;
      }
    }

    /** Closes the segment: whatever is queued is flushed, and an index of the segment is written. */
    method SaveSegment()
      requires Valid()
      modifies this`mdatSize, this`hasMoov, this`fragmentId, this`done, this`trailing, this`segment, io, tracks
      ensures Valid() && !hasMoov && logs == old(logs) && mdatSize == 0
      ensures done == old(done) + (if old(mdatSize) > 0 then [old(Pending())] else [])
      ensures trailing == (if old(mdatSize) > 0 then [] else old(trailing)) + [SegmentIndex(done, old(segment), |tracks|)]
      ensures segment == |done|
      ensures forall i :: 0 <= i < |tracks| ==> tracks[i].samples == if old(mdatSize) > 0 then [] else old(tracks[i].samples)
    {
      hide OnFile, InQueues, InIndex, Pending, AllFrom, Widening, SegmentIndex;
      WriteFragment();
      hasMoov := false;
      AppendIndex();
      StartSegment();
    }

    /** fmp4_writer_destroy: the file ends with a closed segment. */
    method Destroy()
      requires Valid()
      modifies this`mdatSize, this`hasMoov, this`fragmentId, this`done, this`trailing, this`segment, io, tracks
      ensures Valid() && !hasMoov && logs == old(logs) && mdatSize == 0
      ensures done == old(done) + (if old(mdatSize) > 0 then [old(Pending())] else [])
      ensures trailing == (if old(mdatSize) > 0 then [] else old(trailing)) + [SegmentIndex(done, old(segment), |tracks|)]
      ensures segment == |done|
      ensures forall i :: 0 <= i < |tracks| ==> tracks[i].samples == if old(mdatSize) > 0 then [] else old(tracks[i].samples)
    {
      SaveSegment();
    }
  }

  lemma IndexBehind(file: seq<byte>, ms: seq<Index>, m: Index)
    ensures file + Mfras(ms) + MfraBox(m) == file + Mfras(ms + [m])
  {
    hide Mfras, MfraBox;
    MfrasSnoc(ms, m);
  }

  /** What the index of a segment says of the first `n` tracks. */
  function SegmentIndex(done: seq<Fragment>, from: nat, n: nat): (m: Index)
    ensures |m| == n
  {
    seq(n, i requires 0 <= i < n => MarksOf(done, from, i))
  }
}
