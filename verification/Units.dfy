/** From the fragments of a unit on the wire to the unit that the client gets. */
module Units {
  import opened Bytes
  import opened Options
  import opened RtpPacket
  import opened Depacketizer
  import opened FrameCache
  import opened HandOver
  import opened RtspStream
  import opened Dispatch

  // ---- What reaches the cache ----

  /** A frame that is filed in the cache: a video packet of an announced type that holds a fragment. */
  predicate Filed(c: Config, f: Wire) {
    && f.channel == VIDEO_RTP && HeadLength(f.payload).Some?
    && CodecOf(c, PayloadType(f.payload[1])).Some?
    && IsFragment(CodecOf(c, PayloadType(f.payload[1])).value, f.payload, HeadLength(f.payload).value)
  }

  lemma FiledSize(c: Config, f: Wire)
    requires Filed(c, f)
    ensures |f.payload| >= FIXED
  {
  }

  /** Frame `n` finds a free buffer, and room in the cache if it is filed there. */
  ghost predicate ServedAt(c: Config, w: World, fs: seq<Wire>, n: nat)
    requires Sound(c, w) && n < |fs|
  {
    var before := HandleAll(c, w, fs[..n]);
    before.pool != [] &&
      (Filed(c, fs[n]) ==> Timestamp(fs[n].payload) in before.frames || |before.frames| < c.max)
  }

  ghost predicate Served(c: Config, w: World, fs: seq<Wire>)
    requires Sound(c, w)
  {
    forall n :: 0 <= n < |fs| ==> ServedAt(c, w, fs, n)
  }

  /** The packets that arrive at the cache, each in the buffer that was taken for it. */
  ghost function Arrivals(c: Config, w: World, fs: seq<Wire>): seq<Arrival>
    requires Sound(c, w)
  {
    if fs == [] then [] else
      var front := fs[..|fs| - 1];
      var f := fs[|fs| - 1];
      var before := HandleAll(c, w, front);
      if Filed(c, f) && before.pool != [] then
        Arrivals(c, w, front) + [Arrival(PackOf(f.payload, before.pool[0]), PayloadType(f.payload[1]))]
      else Arrivals(c, w, front)
  }

  /** The filed packets of one timestamp, as they came over the wire. */
  function Own(c: Config, fs: seq<Wire>, t: uint32): seq<seq<byte>> {
    if fs == [] then [] else
      var f := fs[|fs| - 1];
      if Filed(c, f) && Timestamp(f.payload) == t then Own(c, fs[..|fs| - 1], t) + [f.payload]
      else Own(c, fs[..|fs| - 1], t)
  }

  lemma HandleSnoc(c: Config, w: World, fs: seq<Wire>, f: Wire)
    requires Sound(c, w)
    ensures Sound(c, HandleAll(c, w, fs))
    ensures HandleAll(c, w, fs + [f]) == HandleFrame(c, HandleAll(c, w, fs), f)
  {
    hide HandleFrame, Sound;
    HandleAllConcat(c, w, fs, [f]);
    AllOfOne(c, HandleAll(c, w, fs), f);
  }

  /** A filed frame goes through the cache, and what that hands over is put together for the client. */
  lemma FrameFiled(c: Config, w: World, f: Wire)
    requires Sound(c, w) && w.pool != [] && Filed(c, f)
    ensures var s := Arrive(w.frames, c.max, PackOf(f.payload, w.pool[0]), PayloadType(f.payload[1]));
      var r := HandleFrame(c, w, f);
      r.frames == s.frames && r.out == Handed(c, w.out, s.finished)
  {
    hide Arrive, HeadLength, IsFragment, Inside, Handed, Good, Apart;
    HeadSize(f.payload);
  }

  lemma FramePassed(c: Config, w: World, f: Wire)
    requires Sound(c, w) && !Filed(c, f)
    ensures HandleFrame(c, w, f).frames == w.frames
  {
    hide Arrive, HeadLength, IsFragment, Inside, Good, Apart;
  }

  lemma ServedFront(c: Config, w: World, fs: seq<Wire>, f: Wire)
    requires Sound(c, w) && Served(c, w, fs + [f])
    ensures Served(c, w, fs)
    ensures var before := HandleAll(c, w, fs);
      before.pool != [] && (Filed(c, f) ==> Timestamp(f.payload) in before.frames || |before.frames| < c.max)
  {
    hide Filed, Sound, HandleAll;
    var all := fs + [f];
    forall n | 0 <= n < |fs|
      ensures ServedAt(c, w, fs, n)
    {
      assert ServedAt(c, w, all, n) && all[..n] == fs[..n];
    }
    assert ServedAt(c, w, all, |fs|) && all[..|fs|] == fs;
  }

  lemma NeverFullSnoc(fs: Frames, max: nat, xs: seq<Arrival>, x: Arrival)
    requires Within(fs, max) && NeverFull(fs, max, xs)
    requires x.p.ts in RunFrames(fs, max, xs) || |RunFrames(fs, max, xs)| < max
    ensures NeverFull(fs, max, xs + [x])
  {
    hide RunFrames;
    var all := xs + [x];
    forall n | 0 <= n < |all|
      ensures HasRoom(fs, max, all, n)
    {
      if n < |xs| {
        assert HasRoom(fs, max, xs, n) && all[..n] == xs[..n];
      } else {
        assert all[..n] == xs;
      }
    }
  }

  lemma RunSnoc(fs: Frames, max: nat, xs: seq<Arrival>, x: Arrival)
    requires Within(fs, max)
    ensures RunFrames(fs, max, xs + [x]) == Arrive(RunFrames(fs, max, xs), max, x.p, x.payloadType).frames
  {
    hide Arrive;
    assert (xs + [x])[..|xs|] == xs;
  }

  lemma ArrivalsSnoc(c: Config, w: World, fs: seq<Wire>, f: Wire)
    requires Sound(c, w)
    ensures Arrivals(c, w, fs + [f]) ==
      if Filed(c, f) && HandleAll(c, w, fs).pool != [] then
        Arrivals(c, w, fs) + [Arrival(PackOf(f.payload, HandleAll(c, w, fs).pool[0]), PayloadType(f.payload[1]))]
      else Arrivals(c, w, fs)
    ensures forall t ::
      Own(c, fs + [f], t) == (if Filed(c, f) && Timestamp(f.payload) == t then Own(c, fs, t) + [f.payload] else Own(c, fs, t))
  {
    hide HeadLength, IsFragment, HandleAll, Sound;
    assert (fs + [f])[..|fs|] == fs;
  }

  lemma SoundWithin(c: Config, w: World)
    requires Sound(c, w)
    ensures Within(w.frames, c.max) && Good(w.frames)
  {
  }

  /** The cache of a connection does what its arrivals say, whatever other frames come between. */
  lemma {:induction false} RunIs(c: Config, w: World, fs: seq<Wire>)
    requires Sound(c, w) && Served(c, w, fs)
    ensures Within(w.frames, c.max)
    ensures HandleAll(c, w, fs).frames == RunFrames(w.frames, c.max, Arrivals(c, w, fs))
    ensures NeverFull(w.frames, c.max, Arrivals(c, w, fs))
    decreases fs
  {
    hide HandleFrame, Sound, Served, Filed, Arrive, NeverFull;
    SoundWithin(c, w);
    if fs == [] {
      NoneYet(c, w);
    } else {
      var front, f := fs[..|fs| - 1], fs[|fs| - 1];
      assert fs == front + [f];
      ServedFront(c, w, front, f);
      RunIs(c, w, front);
      HandleSnoc(c, w, front, f);
      ArrivalsSnoc(c, w, front, f);
      var before := HandleAll(c, w, front);
      if Filed(c, f) {
        FiledSize(c, f);
        FrameFiled(c, before, f);
        var x := Arrival(PackOf(f.payload, before.pool[0]), PayloadType(f.payload[1]));
        RunSnoc(w.frames, c.max, Arrivals(c, w, front), x);
        NeverFullSnoc(w.frames, c.max, Arrivals(c, w, front), x);
      } else {
        FramePassed(c, before, f);
      }
    }
  }

  lemma NoneYet(c: Config, w: World)
    requires Sound(c, w)
    ensures Arrivals(c, w, []) == [] && Within(w.frames, c.max) && NeverFull(w.frames, c.max, [])
  {
  }

  // ---- Packets and the bytes they came in ----

  function Each<A, B>(f: A -> B, s: seq<A>): (r: seq<B>)
    ensures |r| == |s| && forall i :: 0 <= i < |s| ==> r[i] == f(s[i])
  {
    seq(|s|, i requires 0 <= i < |s| => f(s[i]))
  }

  lemma Without<A>(s: seq<A>, j: nat)
    requires j < |s|
    ensures multiset(s) == multiset(s[..j] + s[j + 1..]) + multiset{s[j]}
  {
    assert s == s[..j] + ([s[j]] + s[j + 1..]);
  }

  lemma EachWithout<A, B>(f: A -> B, s: seq<A>, j: nat)
    requires j < |s|
    ensures multiset(Each(f, s)) == multiset(Each(f, s[..j] + s[j + 1..])) + multiset{f(s[j])}
  {
    var r := Each(f, s);
    Without(r, j);
    assert Each(f, s[..j] + s[j + 1..]) == r[..j] + r[j + 1..];
  }

  lemma SameRest<A>(m: multiset<A>, n: multiset<A>, x: A)
    requires m + multiset{x} == n + multiset{x}
    ensures m == n
  {
    assert m == (m + multiset{x}) - multiset{x};
  }

  /** The same things in another order stay the same things in another order. */
  lemma {:induction false} EachCount<A, B>(f: A -> B, a: seq<A>, b: seq<A>)
    requires multiset(a) == multiset(b)
    ensures multiset(Each(f, a)) == multiset(Each(f, b))
    decreases |a|
  {
    hide Each;
    assert |multiset(a)| == |a| && |multiset(b)| == |b|;
    if a != [] {
      assert a[0] in multiset(a);
      assert a[0] in multiset(b);
      var j :| 0 <= j < |b| && b[j] == a[0];
      Without(a, 0);
      Without(b, j);
      EachWithout(f, a, 0);
      EachWithout(f, b, j);
      SameRest(multiset(a[..0] + a[1..]), multiset(b[..j] + b[j + 1..]), a[0]);
      EachCount(f, a[..0] + a[1..], b[..j] + b[j + 1..]);
    }
  }

  function DataOf(x: Pack): seq<byte> { x.data }

  function Datas(q: seq<Pack>): (ds: seq<seq<byte>>)
    ensures |ds| == |q| && forall i :: 0 <= i < |q| ==> ds[i] == q[i].data
  {
    Each(DataOf, q)
  }

  /** The packet in buffer 0. */
  function Bare(d: seq<byte>): (p: Pack)
    ensures p.data == d
  {
    if |d| >= FIXED then PackOf(d, 0) else Pack(0, 0, false, 0, d)
  }

  function Bares(ds: seq<seq<byte>>): (ps: seq<Pack>)
    ensures |ps| == |ds| && forall i :: 0 <= i < |ds| ==> ps[i] == Bare(ds[i])
  {
    Each(Bare, ds)
  }

  /** A packet is what its bytes say. */
  predicate Read(x: Pack) {
    |x.data| >= FIXED && x == PackOf(x.data, x.buf)
  }

  ghost predicate InSequence(ds: seq<seq<byte>>) {
    forall i :: 0 <= i < |ds| ==> |ds[i]| >= FIXED && |ds[0]| >= FIXED && SeqNo(ds[i]) == SeqNo(ds[0]) + i
  }

  lemma RisingBares(ds: seq<seq<byte>>)
    requires InSequence(ds)
    ensures Rising(Bares(ds))
  {
    hide SeqNo;
    forall i, j | 0 <= i < j < |ds|
      ensures Bares(ds)[i].seqNo < Bares(ds)[j].seqNo
    {
    }
  }

  /** Sorted packets with the bytes of a sequence hold them in that order. */
  lemma SortedDatas(q: seq<Pack>, ds: seq<seq<byte>>)
    requires Sorted(q) && (forall x :: x in q ==> Read(x)) && multiset(Datas(q)) == multiset(ds) && InSequence(ds)
    ensures Datas(q) == ds
  {
    hide SeqNo, Timestamp, Marked, InSequence;
    var got := Datas(q);
    EachCount(Bare, got, ds);
    RisingBares(ds);
    forall i, j | 0 <= i < j < |q|
      ensures Bares(got)[i].seqNo <= Bares(got)[j].seqNo
    {
      assert Read(q[i]) && Read(q[j]);
    }
    SortedUnique(Bares(got), Bares(ds));
    forall i | 0 <= i < |ds|
      ensures got[i] == ds[i]
    {
    }
  }

  // ---- A unit and its packets ----

  /** A unit, cut in pieces, and the header of the packet for each. */
  datatype Unit = Unit(codec: Codec, nal: seq<byte>, pieces: seq<seq<byte>>, heads: seq<Head>)

  /** Two or more fragments with consecutive numbers, one timestamp, and the marker on the last. */
  ghost predicate Cut(c: Config, u: Unit, t: uint32) {
    && |u.nal| >= HeaderSize(u.codec) && u.nal[HeaderSize(u.codec)..] == Joined(u.pieces)
    && |u.pieces| == |u.heads| >= 2
    && forall i :: 0 <= i < |u.heads| ==> GoodHead(c, u, t, i)
  }

  ghost predicate GoodHead(c: Config, u: Unit, t: uint32, i: nat)
    requires i < |u.heads|
  {
    var h := u.heads[i];
    && h.Valid() && h.ts == t && h.seqNo == u.heads[0].seqNo + i && (h.marker <==> i == |u.heads| - 1)
    && CodecOf(c, h.payloadType) == Some(u.codec)
  }

  function Content(u: Unit, i: nat): seq<byte>
    requires |u.nal| >= HeaderSize(u.codec) && i < |u.pieces|
  {
    FuPrefix(u.codec, u.nal, i == 0, i == |u.pieces| - 1) + u.pieces[i]
  }

  ghost function Packets(c: Config, u: Unit, t: uint32): (ds: seq<seq<byte>>)
    requires Cut(c, u, t)
    ensures |ds| == |u.pieces|
  {
    seq(|u.pieces|, i requires 0 <= i < |u.pieces| =>
      assert GoodHead(c, u, t, i);
      Sent(u.heads[i], Content(u, i)))
  }

  /** What the handlers read from a packet of a unit. */
  lemma PacketRead(c: Config, u: Unit, t: uint32, i: nat)
    requires Cut(c, u, t) && i < |u.pieces|
    ensures var d := Packets(c, u, t)[i];
      && Carries(d, Content(u, i)) && |d| >= FIXED && Timestamp(d) == t && SeqNo(d) == u.heads[0].seqNo + i
      && (Marked(d[1]) <==> i == |u.pieces| - 1) && CodecOf(c, PayloadType(d[1])) == Some(u.codec)
  {
    hide HeadLength, Sent, Padded, Content, SeqNo, Timestamp, Marked, PayloadType;
    assert GoodHead(c, u, t, i);
    SentParsed(u.heads[i], Content(u, i));
  }

  lemma PrefixType(codec: Codec, nal: seq<byte>, first: bool, last: bool)
    requires (codec == H264 || codec == H265) && |nal| >= HeaderSize(codec)
    ensures var b := FuPrefix(codec, nal, first, last)[0];
      if codec == H264 then b % 32 == H264_FU_A else b / 2 % 64 == H265_FU
  {
  }

  lemma PacketFiled(c: Config, u: Unit, t: uint32, i: nat)
    requires Cut(c, u, t) && i < |u.pieces|
    ensures Filed(c, Wire(VIDEO_RTP, Packets(c, u, t)[i]))
  {
    hide HeadLength, Sent, Padded, FuPrefix, SeqNo, Timestamp, Marked, PayloadType, Cut, Packets;
    var d := Packets(c, u, t)[i];
    PacketRead(c, u, t, i);
    CutCodec(c, u, t);
    PrefixType(u.codec, u.nal, i == 0, i == |u.pieces| - 1);
    var head := HeadLength(d).value;
    assert d[head..] == Content(u, i);
    assert d[head] == d[head..][0] == FuPrefix(u.codec, u.nal, i == 0, i == |u.pieces| - 1)[0];
  }

  lemma CutCodec(c: Config, u: Unit, t: uint32)
    requires Cut(c, u, t)
    ensures (u.codec == H264 || u.codec == H265) && |u.nal| >= HeaderSize(u.codec) && |u.pieces| == |u.heads| >= 2
  {
    assert GoodHead(c, u, t, 0);
  }

  lemma PacketsInSequence(c: Config, u: Unit, t: uint32)
    requires Cut(c, u, t)
    ensures InSequence(Packets(c, u, t))
  {
    hide SeqNo, Packets, Cut;
    CutCodec(c, u, t);
    PacketRead(c, u, t, 0);
    forall i | 0 <= i < |u.pieces|
      ensures var ds := Packets(c, u, t);
        |ds[i]| >= FIXED && SeqNo(ds[i]) == SeqNo(ds[0]) + i
    {
      PacketRead(c, u, t, i);
    }
  }

  // ---- The packets of a unit among other frames ----

  lemma {:induction false} ArrivalsRead(c: Config, w: World, fs: seq<Wire>, n: nat)
    requires Sound(c, w) && n < |Arrivals(c, w, fs)|
    ensures var x := Arrivals(c, w, fs)[n];
      && Read(x.p) && x.payloadType == PayloadType(x.p.data[1])
      && exists i :: 0 <= i < |fs| && Filed(c, fs[i]) && fs[i].payload == x.p.data
    decreases fs
  {
    hide HandleAll, Sound, SeqNo, Timestamp, Marked, PayloadType, IsFragment;
    var front, f := fs[..|fs| - 1], fs[|fs| - 1];
    assert fs == front + [f];
    ArrivalsSnoc(c, w, front, f);
    if n < |Arrivals(c, w, front)| {
      ArrivalsRead(c, w, front, n);
      var i :| 0 <= i < |front| && Filed(c, front[i]) && front[i].payload == Arrivals(c, w, front)[n].p.data;
      assert Filed(c, fs[i]);
    } else {
      assert Filed(c, fs[|fs| - 1]);
    }
  }

  lemma MineSnoc(xs: seq<Arrival>, x: Arrival, t: uint32)
    ensures Mine(xs + [x], t) == if x.p.ts == t then Mine(xs, t) + [x.p] else Mine(xs, t)
  {
    assert (xs + [x])[..|xs|] == xs;
  }

  /** The packets of a timestamp at the cache are those on the wire. */
  lemma {:induction false} OwnIs(c: Config, w: World, fs: seq<Wire>, t: uint32)
    requires Sound(c, w) && Served(c, w, fs)
    ensures Datas(Mine(Arrivals(c, w, fs), t)) == Own(c, fs, t)
    decreases fs
  {
    hide HandleAll, Sound, Served, Timestamp, SeqNo, Marked, Filed, Mine;
    if fs == [] {
      assert Mine(Arrivals(c, w, fs), t) == [] by { NoMine(c, w, t); }
    } else {
      var front, f := fs[..|fs| - 1], fs[|fs| - 1];
      assert fs == front + [f];
      ServedFront(c, w, front, f);
      OwnIs(c, w, front, t);
      ArrivalsSnoc(c, w, front, f);
      var xs := Arrivals(c, w, front);
      if Filed(c, f) {
        FiledSize(c, f);
        var x := Arrival(PackOf(f.payload, HandleAll(c, w, front).pool[0]), PayloadType(f.payload[1]));
        MineSnoc(xs, x, t);
        DatasSnoc(Mine(xs, t), x.p);
      }
    }
  }

  lemma NoMine(c: Config, w: World, t: uint32)
    requires Sound(c, w)
    ensures Mine(Arrivals(c, w, []), t) == []
  {
  }

  lemma DatasSnoc(q: seq<Pack>, p: Pack)
    ensures Datas(q + [p]) == Datas(q) + [p.data]
  {
    assert (q + [p])[..|q|] == q;
  }

  lemma {:induction false} MineHas(xs: seq<Arrival>, t: uint32)
    ensures forall n :: 0 <= n < |xs| && xs[n].p.ts == t ==> xs[n].p in Mine(xs, t)
    ensures forall x :: x in Mine(xs, t) ==> x.ts == t && exists n :: 0 <= n < |xs| && xs[n].p == x
  {
    if xs != [] {
      MineHas(xs[..|xs| - 1], t);
    }
  }

  lemma BareRead(c: Config, u: Unit, t: uint32)
    requires Cut(c, u, t)
    ensures forall i :: 0 <= i < |u.pieces| ==> Read(Bare(Packets(c, u, t)[i]))
  {
    hide SeqNo, Timestamp, Marked, Packets, Cut;
    forall i | 0 <= i < |u.pieces|
      ensures Read(Bare(Packets(c, u, t)[i]))
    {
      PacketRead(c, u, t, i);
    }
  }

  lemma SequenceCut(ds: seq<seq<byte>>, k: nat)
    requires InSequence(ds) && k <= |ds|
    ensures InSequence(ds[k..])
  {
    hide SeqNo;
    var rest := ds[k..];
    if rest != [] {
      assert rest[0] == ds[k] && SeqNo(ds[k]) == SeqNo(ds[0]) + k;
      forall i | 0 <= i < |rest|
        ensures |rest[i]| >= FIXED && SeqNo(rest[i]) == SeqNo(rest[0]) + i
      {
        assert rest[i] == ds[k + i];
      }
    }
  }

  /** The bytes are, in some order, the last packets of the unit. */
  ghost predicate EndOf(a: seq<seq<byte>>, ds: seq<seq<byte>>) {
    |a| <= |ds| && multiset(a) == multiset(ds[|ds| - |a|..])
  }

  /** What has come of the unit stands in the cache in the order it was sent. */
  lemma QueueIs(c: Config, w: World, fs: seq<Wire>, u: Unit, t: uint32)
    requires Sound(c, w) && Served(c, w, fs) && Cut(c, u, t) && EndOf(Own(c, fs, t), Packets(c, u, t))
    ensures var q := InsertAll(Mine(Arrivals(c, w, fs), t));
      var ds := Packets(c, u, t);
      && |q| == |Own(c, fs, t)| <= |ds| && Datas(q) == ds[|ds| - |q|..] && forall x :: x in q ==> Read(x)
  {
    hide HandleAll, Sound, Served, Cut, Packets, Own, InsertAll, Read, Arrivals, Bare, InSequence, Datas;
    var xs := Arrivals(c, w, fs);
    var mine := Mine(xs, t);
    var q := InsertAll(mine);
    InsertAllSame(mine);
    InsertAllSorted(mine);
    InsertAllMembers(mine);
    OwnIs(c, w, fs, t);
    EachCount(DataOf, q, mine);
    DatasIs(q);
    DatasIs(mine);
    MineHas(xs, t);
    forall x | x in q
      ensures Read(x)
    {
      var n :| 0 <= n < |xs| && xs[n].p == x;
      ArrivalsRead(c, w, fs, n);
    }
    var ds := Packets(c, u, t);
    PacketsInSequence(c, u, t);
    SequenceCut(ds, |ds| - |mine|);
    SortedDatas(q, ds[|ds| - |mine|..]);
  }

  lemma DatasIs(q: seq<Pack>)
    ensures Datas(q) == Each(DataOf, q)
  {
  }

  /** The packets of the unit: those that have come as they stand in the cache, and those in front of them
      that have not. */
  lemma InOrder(c: Config, w: World, fs: seq<Wire>, u: Unit, t: uint32) returns (ps: seq<Pack>)
    requires Sound(c, w) && Served(c, w, fs) && Cut(c, u, t) && EndOf(Own(c, fs, t), Packets(c, u, t))
    ensures Datas(ps) == Packets(c, u, t) && forall x :: x in ps ==> Read(x)
    ensures var mine := Mine(Arrivals(c, w, fs), t);
      |mine| == |Own(c, fs, t)| <= |ps| && InsertAll(mine) == ps[|ps| - |mine|..] && Tail(mine, ps)
  {
    hide HandleAll, Sound, Served, Cut, Packets, Own, InsertAll, Read, Arrivals, Bare, EndOf, Mine;
    var mine := Mine(Arrivals(c, w, fs), t);
    var q := InsertAll(mine);
    QueueIs(c, w, fs, u, t);
    InsertAllSame(mine);
    InsertAllMembers(mine);
    var ds := Packets(c, u, t);
    var k := |ds| - |q|;
    BareRead(c, u, t);
    ps := Bares(ds)[..k] + q;
    assert ps[k..] == q;
    assert Datas(ps) == ds by {
      assert ds == ds[..k] + ds[k..];
    }
    forall x | x in ps
      ensures Read(x)
    {
      var i :| 0 <= i < |ps| && ps[i] == x;
      assert if i < k then x == Bare(ds[i]) else x in q;
    }
  }

  lemma InOrderSent(c: Config, u: Unit, t: uint32, ps: seq<Pack>, k: nat)
    requires Cut(c, u, t) && Datas(ps) == Packets(c, u, t) && (forall x :: x in ps ==> Read(x)) && k <= |ps|
    ensures |ps| == |u.pieces| && |u.nal| >= HeaderSize(u.codec) && AsSent(ps)
    ensures Fragmented(u.codec, u.nal, u.pieces[k..], k, ps[k..])
    ensures forall i :: 0 <= i < |ps| ==> Carries(ps[i].data, Content(u, i)) && Timestamp(ps[i].data) == t
  {
    hide SeqNo, Timestamp, Marked, PayloadType, Packets, Datas, Carries, FuPrefix, Cut;
    CutCodec(c, u, t);
    var first := u.heads[0].seqNo;
    forall i | 0 <= i < |ps|
      ensures var d := ps[i].data;
        && |d| >= FIXED && Carries(d, Content(u, i)) && Timestamp(d) == t && ps[i].seqNo == first + i
        && (ps[i].marker <==> i == |ps| - 1)
    {
      PacketRead(c, u, t, i);
      assert Read(ps[i]);
    }
    var rest := ps[k..];
    forall i | 0 <= i < |rest|
      ensures Carries(rest[i].data, FuPrefix(u.codec, u.nal, k + i == 0, i == |rest| - 1) + u.pieces[k..][i])
    {
      assert rest[i] == ps[k + i] && Content(u, k + i) == FuPrefix(u.codec, u.nal, k + i == 0, i == |rest| - 1) + u.pieces[k + i];
    }
  }

  /** While the unit's timestamp is the earliest: the packets of other frames come later. */
  ghost predicate Ahead(c: Config, w: World, fs: seq<Wire>, t: uint32) {
    && (forall k :: k in w.frames ==> t < k)
    && (forall i :: 0 <= i < |fs| && Filed(c, fs[i]) ==> Timestamp(fs[i].payload) >= t)
  }

  lemma MixedIs(c: Config, w: World, fs: seq<Wire>, u: Unit, t: uint32, ps: seq<Pack>, payloadType: nat)
    requires Sound(c, w) && Served(c, w, fs) && Cut(c, u, t) && Ahead(c, w, fs, t) && Datas(ps) == Packets(c, u, t)
    requires forall x :: x in Mine(Arrivals(c, w, fs), t) ==> x in ps
    requires CodecOf(c, payloadType) == Some(u.codec)
    ensures Mixed(w.frames, Arrivals(c, w, fs), t, payloadType, ps)
  {
    hide HandleAll, Sound, Served, Cut, Packets, Arrivals, Datas, SeqNo, Timestamp, Marked, PayloadType;
    var xs := Arrivals(c, w, fs);
    MineHas(xs, t);
    forall n | 0 <= n < |xs|
      ensures xs[n].p.ts >= t && (xs[n].p.ts == t ==> xs[n].p in ps && xs[n].payloadType == payloadType)
    {
      ArrivalsRead(c, w, fs, n);
      if xs[n].p.ts == t {
        var i :| 0 <= i < |ps| && ps[i] == xs[n].p;
        PacketRead(c, u, t, i);
      }
    }
  }

  /** No shorter run of its packets is an end of the unit. */
  ghost predicate NoEarlyEnd(own: seq<seq<byte>>, ds: seq<seq<byte>>) {
    forall m :: 0 < m < |own| ==> !EndOf(own[..m], ds)
  }

  lemma TailEnds(a: seq<Pack>, ps: seq<Pack>)
    requires Tail(a, ps)
    ensures EndOf(Datas(a), Datas(ps))
  {
    var n := |ps| - |a|;
    EachCount(DataOf, a, ps[n..]);
    assert Datas(ps[n..]) == Datas(ps)[n..];
  }

  lemma NoTailIs(mine: seq<Pack>, ps: seq<Pack>)
    requires |mine| > 0 && NoEarlyEnd(Datas(mine), Datas(ps))
    ensures NoTail(mine, ps, |mine| - 1)
  {
    hide Tail, EndOf;
    forall m | 0 < m <= |mine| - 1
      ensures !Tail(mine[..m], ps)
    {
      assert Datas(mine[..m]) == Datas(mine)[..m];
      assert !EndOf(Datas(mine)[..m], Datas(ps));
      if Tail(mine[..m], ps) {
        TailEnds(mine[..m], ps);
      }
    }
  }

  /** The packet that completes the first tail makes the cache hand it over. */
  lemma LastHandsOver(fs: Frames, max: nat, xs: seq<Arrival>, last: Arrival, t: uint32, payloadType: nat, ps: seq<Pack>)
    requires Within(fs, max) && Good(fs) && NeverFull(fs, max, xs + [last]) && AsSent(ps)
    requires Mixed(fs, xs + [last], t, payloadType, ps) && last.p.ts == t
    requires Tail(Mine(xs + [last], t), ps) && NoTail(Mine(xs, t), ps, |Mine(xs, t)|)
    ensures var m := |Mine(xs + [last], t)|;
      && m <= |ps|
      && Arrive(RunFrames(fs, max, xs), max, last.p, last.payloadType).finished
      == Some(FrameV(true, payloadType, ps[|ps| - m..]))
  {
    hide Arrive, Good, AsSent, NeverFull, Mixed, NoTail, Mine, RunFrames, Tail;
    var all := xs + [last];
    assert all[..|xs|] == xs;
    NeverFullFront(fs, max, all);
    MixedFront(fs, xs, last, t, payloadType, ps);
    FirstIs(fs, max, xs, t, payloadType, ps, 0);
    MineSnoc(xs, last, t);
    var mine := Mine(all, t);
    assert mine[..|mine|] == mine;
    NoTailFront(Mine(xs, t), ps, last.p, |Mine(xs, t)|);
    TailFits(mine, ps);
    FirstIs(fs, max, all, t, payloadType, ps, |mine|);
  }

  lemma MixedFront(fs: Frames, xs: seq<Arrival>, last: Arrival, t: uint32, payloadType: nat, ps: seq<Pack>)
    requires Mixed(fs, xs + [last], t, payloadType, ps)
    ensures Mixed(fs, xs, t, payloadType, ps)
  {
    var all := xs + [last];
    assert forall n :: 0 <= n < |xs| ==> xs[n] == all[n];
  }

  /** What is made of the last `m` packets of a unit: a single one is taken for a whole unit, several are
      put together behind the unit's header. */
  function Made(u: Unit, m: nat): seq<byte>
    requires |u.nal| >= HeaderSize(u.codec) && 0 < m <= |u.pieces|
  {
    if m == 1 then Content(u, |u.pieces| - 1)
    else u.nal[..HeaderSize(u.codec)] + Joined(u.pieces[|u.pieces| - m..])
  }

  lemma HandedIs(c: Config, u: Unit, t: uint32, payloadType: nat, ps: seq<Pack>, m: nat, out: seq<Out>)
    requires Cut(c, u, t) && Datas(ps) == Packets(c, u, t) && (forall x :: x in ps ==> Read(x))
    requires CodecOf(c, payloadType) == Some(u.codec) && 0 < m <= |ps|
    ensures |u.nal| >= HeaderSize(u.codec)
    ensures Handed(c, out, Some(FrameV(true, payloadType, ps[|ps| - m..])))
         == out + [Out(u.codec, t, START_CODE + Made(u, m))]
  {
    hide Cut, Packets, Datas, Read, Timestamp, Fragmented, AsSent, Carries, Fragments, FuPrefix, PayloadOf;
    CutCodec(c, u, t);
    var k := |ps| - m;
    InOrderSent(c, u, t, ps, k);
    var rest := ps[k..];
    if m == 1 {
      CarriedPayload(rest[0].data, Content(u, k));
    } else {
      Remainder(u.codec, u.nal, u.pieces[k..], k, rest);
    }
  }

  /** The packet with which an end of the unit, for the first time, has come. */
  ghost predicate Completes(c: Config, w: World, fs: seq<Wire>, last: Wire, u: Unit, t: uint32)
    requires Sound(c, w) && Cut(c, u, t)
  {
    var own := Own(c, fs + [last], t);
    && Served(c, w, fs + [last]) && Ahead(c, w, fs + [last], t)
    && last.channel == 0 && last.payload in Packets(c, u, t)
    && EndOf(own, Packets(c, u, t)) && NoEarlyEnd(own, Packets(c, u, t))
  }

  lemma LastFiled(c: Config, w: World, fs: seq<Wire>, last: Wire, u: Unit, t: uint32)
    requires Sound(c, w) && Cut(c, u, t) && Completes(c, w, fs, last, u, t)
    ensures Filed(c, last) && |last.payload| >= FIXED && Timestamp(last.payload) == t
    ensures CodecOf(c, PayloadType(last.payload[1])) == Some(u.codec) && |u.nal| >= HeaderSize(u.codec)
    ensures 0 < |Own(c, fs + [last], t)| <= |u.pieces|
  {
    hide Served, Ahead, Filed, Timestamp, PayloadType, Cut, Sound, Packets;
    var i :| 0 <= i < |Packets(c, u, t)| && Packets(c, u, t)[i] == last.payload;
    CutCodec(c, u, t);
    PacketRead(c, u, t, i);
    PacketFiled(c, u, t, i);
    assert last == Wire(0, last.payload);
  }

  /** The fragments of a unit over the wire, in any order and between any other frames: as soon as those
      that have come are an end of the unit, the client gets what is made of them, and nothing else. */
  lemma EndDelivered(c: Config, w: World, fs: seq<Wire>, last: Wire, u: Unit, t: uint32)
    requires Sound(c, w) && Cut(c, u, t) && Completes(c, w, fs, last, u, t)
    ensures var m := |Own(c, fs + [last], t)|;
      && |u.nal| >= HeaderSize(u.codec) && 0 < m <= |u.pieces|
      && HandleAll(c, w, fs + [last]).out == HandleAll(c, w, fs).out + [Out(u.codec, t, [0, 0, 0, 1] + Made(u, m))]
  {
    hide HandleAll, HandleFrame, Sound, Served, Cut, Packets, Own, Arrive, Filed, Timestamp, PayloadType, SeqNo, Marked,
      InsertAll, Mine, Ahead, Handed, NeverFull, Mixed, AsSent, NoTail, NoEarlyEnd, Read, Datas, RunFrames, Good, Fragmented,
      Arrivals, CodecOf, Tail, EndOf, Made;
    var all := fs + [last];
    LastFiled(c, w, fs, last, u, t);
    ServedFront(c, w, fs, last);
    var before := HandleAll(c, w, fs);
    HandleSnoc(c, w, fs, last);
    ArrivalsSnoc(c, w, fs, last);
    FrameFiled(c, before, last);
    SoundWithin(c, w);
    RunIs(c, w, fs);
    RunIs(c, w, all);
    var xs := Arrivals(c, w, fs);
    var x := Arrival(PackOf(last.payload, before.pool[0]), PayloadType(last.payload[1]));
    var ps := InOrder(c, w, all, u, t);
    InTail(Mine(xs + [x], t), ps);
    MixedIs(c, w, all, u, t, ps, x.payloadType);
    InOrderSent(c, u, t, ps, 0);
    MineSnoc(xs, x, t);
    OwnIs(c, w, all, t);
    NoTailIs(Mine(xs + [x], t), ps);
    NoTailFront(Mine(xs, t), ps, x.p, |Mine(xs, t)|);
    LastHandsOver(w.frames, c.max, xs, x, t, x.payloadType, ps);
    HandedIs(c, u, t, x.payloadType, ps, |Mine(xs + [x], t)|, before.out);
  }

  lemma InTail(mine: seq<Pack>, ps: seq<Pack>)
    requires |mine| <= |ps| && InsertAll(mine) == ps[|ps| - |mine|..]
    ensures forall x :: x in mine ==> x in ps
  {
    InsertAllMembers(mine);
    forall x | x in mine
      ensures x in ps
    {
      assert x in InsertAll(mine);
    }
  }

  lemma {:induction false} JoinedSplit(pieces: seq<seq<byte>>, k: nat)
    requires k <= |pieces|
    ensures Joined(pieces) == Joined(pieces[..k]) + Joined(pieces[k..])
  {
    var n := |pieces|;
    if k < n {
      JoinedSplit(pieces[..n - 1], k);
      assert pieces[..n - 1][..k] == pieces[..k];
      assert pieces[k..][..n - 1 - k] == pieces[..n - 1][k..];
    } else {
      assert pieces[..k] == pieces;
    }
  }

  /** The unit is not itself of the type that marks fragments. */
  predicate Ordinary(u: Unit)
    requires |u.nal| > 0
  {
    if u.codec == H264 then u.nal[0] % 32 != H264_FU_A else u.nal[0] / 2 % 64 != H265_FU
  }

  /** The last packets of a unit make the unit only when the pieces in front of them are empty. */
  lemma MadeWhole(c: Config, u: Unit, t: uint32, m: nat)
    requires Cut(c, u, t) && 0 < m <= |u.pieces| && |u.nal| > 0 && Ordinary(u)
    ensures |u.nal| >= HeaderSize(u.codec)
    ensures Made(u, m) == u.nal <==> m > 1 && Joined(u.pieces[..|u.pieces| - m]) == []
  {
    hide GoodHead, FuPrefix, Joined;
    CutCodec(c, u, t);
    var k := |u.pieces| - m;
    JoinedSplit(u.pieces, k);
    var h := HeaderSize(u.codec);
    assert u.nal == u.nal[..h] + u.nal[h..];
    PrefixType(u.codec, u.nal, k == 0, k == |u.pieces| - 1);
    if m == 1 {
      assert Made(u, m)[0] == FuPrefix(u.codec, u.nal, k == 0, k == |u.pieces| - 1)[0];
    } else if Joined(u.pieces[..k]) != [] {
      assert |Made(u, m)| < |u.nal|;
    }
  }

  /** Over the wire, in any order and between any other frames: the packet with which a run of fragments
      first ends the unit gives the client the whole unit exactly when, but for empty pieces, all of the
      unit has come. */
  lemma UnitDelivered(c: Config, w: World, fs: seq<Wire>, last: Wire, u: Unit, t: uint32)
    requires Sound(c, w) && Cut(c, u, t) && Completes(c, w, fs, last, u, t) && |u.nal| > 0 && Ordinary(u)
    ensures var m := |Own(c, fs + [last], t)|;
      && m <= |u.pieces|
      && (HandleAll(c, w, fs + [last]).out == HandleAll(c, w, fs).out + [Out(u.codec, t, [0, 0, 0, 1] + u.nal)]
          <==> m > 1 && Joined(u.pieces[..|u.pieces| - m]) == [])
  {
    hide HandleAll, Sound, Cut, Completes, Own, Made, Ordinary, Joined;
    var m := |Own(c, fs + [last], t)|;
    EndDelivered(c, w, fs, last, u, t);
    MadeWhole(c, u, t, m);
    var out := HandleAll(c, w, fs).out;
    LastOf(out, Out(u.codec, t, [0, 0, 0, 1] + Made(u, m)), Out(u.codec, t, [0, 0, 0, 1] + u.nal));
    StartCode(Made(u, m), u.nal);
  }

  lemma LastOf(out: seq<Out>, a: Out, b: Out)
    ensures out + [a] == out + [b] <==> a == b
  {
    assert (out + [a])[|out|] == a && (out + [b])[|out|] == b;
  }

  lemma StartCode(a: seq<byte>, b: seq<byte>)
    ensures START_CODE + a == START_CODE + b <==> a == b
  {
    assert (START_CODE + a)[4..] == a && (START_CODE + b)[4..] == b;
  }

  // ---- The usual cases ----

  lemma MarkerOnce(c: Config, u: Unit, t: uint32)
    requires Cut(c, u, t)
    ensures var ds := Packets(c, u, t);
      forall i :: 0 <= i < |ds| - 1 ==> ds[i] != ds[|ds| - 1]
  {
    hide Packets, Cut, Carries, SeqNo, Timestamp, Marked, PayloadType;
    var ds := Packets(c, u, t);
    CutCodec(c, u, t);
    PacketRead(c, u, t, |ds| - 1);
    forall i | 0 <= i < |ds| - 1
      ensures ds[i] != ds[|ds| - 1]
    {
      PacketRead(c, u, t, i);
    }
  }

  lemma NotBefore(own: seq<seq<byte>>, ds: seq<seq<byte>>)
    requires own != [] && ds != [] && multiset(own) == multiset(ds) && own[|own| - 1] == ds[|ds| - 1]
    requires forall i :: 0 <= i < |ds| - 1 ==> ds[i] != ds[|ds| - 1]
    ensures |own| == |ds| && ds[|ds| - 1] !in own[..|own| - 1]
  {
    var end := ds[|ds| - 1];
    assert |multiset(own)| == |own| && |multiset(ds)| == |ds|;
    var n := |ds| - 1;
    assert ds == ds[..n] + [end] && own == own[..n] + [end];
    SameRest(multiset(own[..n]), multiset(ds[..n]), end);
    assert end !in ds[..n];
    assert end !in multiset(ds[..n]);
    assert end !in multiset(own[..n]);
  }

  lemma EndHasLast(a: seq<seq<byte>>, ds: seq<seq<byte>>)
    requires a != [] && EndOf(a, ds)
    ensures ds[|ds| - 1] in a
  {
    var rest := ds[|ds| - |a|..];
    assert rest[|a| - 1] == ds[|ds| - 1];
    assert ds[|ds| - 1] in multiset(rest);
    assert ds[|ds| - 1] in multiset(a);
  }

  /** While the packet with the marker has not come, nothing is an end of the unit. */
  lemma NoEndYet(own: seq<seq<byte>>, ds: seq<seq<byte>>)
    requires own != [] && ds != [] && multiset(own) == multiset(ds) && own[|own| - 1] == ds[|ds| - 1]
    requires forall i :: 0 <= i < |ds| - 1 ==> ds[i] != ds[|ds| - 1]
    ensures EndOf(own, ds) && NoEarlyEnd(own, ds)
  {
    NotBefore(own, ds);
    assert EndOf(own, ds) by {
      assert ds[0..] == ds;
    }
    hide EndOf;
    forall m | 0 < m < |own|
      ensures !EndOf(own[..m], ds)
    {
      assert forall x :: x in own[..m] ==> x in own[..|own| - 1];
      if EndOf(own[..m], ds) {
        EndHasLast(own[..m], ds);
      }
    }
  }

  /** With the marker last to come, the unit is delivered whole, whatever the order of the others. */
  lemma MarkerLast(c: Config, w: World, fs: seq<Wire>, u: Unit, t: uint32)
    requires Sound(c, w) && Cut(c, u, t)
    requires var last := Wire(0, Packets(c, u, t)[|u.pieces| - 1]);
      && Served(c, w, fs + [last]) && Ahead(c, w, fs + [last], t)
      && multiset(Own(c, fs + [last], t)) == multiset(Packets(c, u, t))
    ensures var last := Wire(0, Packets(c, u, t)[|u.pieces| - 1]);
      HandleAll(c, w, fs + [last]).out == HandleAll(c, w, fs).out + [Out(u.codec, t, [0, 0, 0, 1] + u.nal)]
  {
    hide HandleAll, Sound, Served, Ahead, Packets, Cut, EndOf, NoEarlyEnd, Filed, Timestamp, Joined;
    CutCodec(c, u, t);
    var n := |u.pieces| - 1;
    var last := Wire(0, Packets(c, u, t)[n]);
    PacketRead(c, u, t, n);
    PacketFiled(c, u, t, n);
    assert (fs + [last])[..|fs|] == fs;
    var own := Own(c, fs + [last], t);
    assert own[|own| - 1] == last.payload;
    MarkerOnce(c, u, t);
    NoEndYet(own, Packets(c, u, t));
    assert |multiset(own)| == |own| && |multiset(Packets(c, u, t))| == |u.pieces|;
    EndDelivered(c, w, fs, last, u, t);
    CutAll(c, u, t);
  }

  lemma CutAll(c: Config, u: Unit, t: uint32)
    requires Cut(c, u, t)
    ensures |u.nal| >= HeaderSize(u.codec) && Made(u, |u.pieces|) == u.nal
  {
    hide GoodHead, Joined;
    assert u.pieces[0..] == u.pieces;
    assert u.nal[..HeaderSize(u.codec)] + u.nal[HeaderSize(u.codec)..] == u.nal;
  }

  /** The same from the bytes of the connection, however they are cut into receives. */
  lemma UnitReceived(c: Config, l: Link, chunks: seq<seq<byte>>, fs: seq<Wire>, last: Wire, u: Unit, t: uint32)
    requires Sound(c, l.w) && l.open && l.pending == [] && Cut(c, u, t) && Completes(c, l.w, fs, last, u, t)
    requires forall f :: f in fs + [last] ==> |f.payload| <= 1500
    requires JoinAll(chunks) == StreamOf(fs + [last])
    ensures var m := |Own(c, fs + [last], t)|;
      && |u.nal| >= HeaderSize(u.codec) && 0 < m <= |u.pieces|
      && ReceiveAll(c, l, chunks).w.out == HandleAll(c, l.w, fs).out + [Out(u.codec, t, [0, 0, 0, 1] + Made(u, m))]
  {
    hide HandleAll, Sound, Cut, Completes, Own, Made, StreamOf;
    ChunkIndependent(c, l, chunks);
    StreamParsed(fs + [last]);
    assert [] + StreamOf(fs + [last]) == StreamOf(fs + [last]);
    EndDelivered(c, l.w, fs, last, u, t);
  }
}
