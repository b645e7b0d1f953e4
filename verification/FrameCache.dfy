/** The frame cache as a function: packets gather by timestamp, sorted by sequence number, until the
    earliest frame is whole. */
module FrameCache {
  import opened Bytes
  import opened Options
  import opened RtpPacket
  import opened Depacketizer

  datatype FrameV = FrameV(marker: bool, payloadType: nat, queue: seq<Pack>)

  type Frames = map<uint32, FrameV>

  // ---- Sorted insertion ----

  /** The first place whose packet is not before `p`; the length if there is none. */
  function Slot(q: seq<Pack>, p: Pack): (i: nat)
    ensures i <= |q|
    ensures i < |q| ==> p.seqNo <= q[i].seqNo
    ensures forall k :: 0 <= k < i ==> q[k].seqNo < p.seqNo
  {
    if q == [] then 0
    else if p.seqNo <= q[0].seqNo then 0
    else 1 + Slot(q[1..], p)
  }

  /** A packet that is not before the last goes behind it, even one with the same number. */
  function Insert(q: seq<Pack>, p: Pack): (r: seq<Pack>)
    ensures |r| == |q| + 1
  {
    if q == [] || p.seqNo >= q[|q| - 1].seqNo then q + [p]
    else q[..Slot(q, p)] + [p] + q[Slot(q, p)..]
  }

  ghost predicate Sorted(q: seq<Pack>) {
    forall i, j :: 0 <= i < j < |q| ==> q[i].seqNo <= q[j].seqNo
  }

  lemma InsertSorted(q: seq<Pack>, p: Pack)
    requires Sorted(q)
    ensures Sorted(Insert(q, p))
  {
    if q == [] || p.seqNo >= q[|q| - 1].seqNo {
    } else {
      var s := Slot(q, p);
      var r := Insert(q, p);
      forall i, j | 0 <= i < j < |r|
        ensures r[i].seqNo <= r[j].seqNo
      {
        assert r[i] == (if i < s then q[i] else if i == s then p else q[i - 1]);
        assert r[j] == (if j < s then q[j] else if j == s then p else q[j - 1]);
      }
    }
  }

  /** Nothing is lost or repeated. */
  lemma InsertOne(q: seq<Pack>, p: Pack)
    ensures multiset(Insert(q, p)) == multiset(q) + multiset{p}
  {
    if q != [] && p.seqNo < q[|q| - 1].seqNo {
      assert q == q[..Slot(q, p)] + q[Slot(q, p)..];
    }
  }

  // ---- Frames ----

  lemma {:induction false} LeastOf(ks: set<uint32>) returns (k: uint32)
    requires ks != {}
    ensures k in ks && forall j :: j in ks ==> k <= j
  {
    k :| k in ks;
    var rest := ks - {k};
    assert forall j :: j in ks ==> j == k || j in rest;
    if rest != {} {
      var k' := LeastOf(rest);
      if k' < k {
        k := k';
      }
    }
  }

  ghost predicate IsLeast(fs: Frames, k: uint32) {
    k in fs && forall j :: j in fs ==> k <= j
  }

  ghost function Least(fs: Frames): (k: uint32)
    requires fs != map[]
    ensures IsLeast(fs, k)
  {
    LeastKey(fs.Keys)
  }

  ghost function LeastKey(ks: set<uint32>): (k: uint32)
    requires ks != {}
    ensures k in ks && forall j :: j in ks ==> k <= j
  {
    assert exists k :: k in ks && forall j :: j in ks ==> k <= j by {
      var k := LeastOf(ks);
    }
    var k :| k in ks && forall j :: j in ks ==> k <= j;
    k
  }

  /** Strictly consecutive sequence numbers, as a 16-bit counter counts. */
  predicate Consecutive(q: seq<Pack>) {
    forall i :: 0 <= i < |q| ==> q[i].seqNo == (q[0].seqNo + i) % 0x1_0000
  }

  function Bufs(q: seq<Pack>): (bs: seq<nat>)
    ensures |bs| == |q|
  {
    seq(|q|, i requires 0 <= i < |q| => q[i].buf)
  }

  /** What a step does: the frames it leaves, whether it keeps the packet, the buffers it gives back, and
      the frame it hands over. */
  datatype Step = Step(frames: Frames, ok: bool, released: seq<nat>, finished: Option<FrameV>)

  function Placed(fs: Frames, p: Pack, payloadType: nat): (r: Frames)
    ensures p.ts in r
  {
    var f := if p.ts in fs then fs[p.ts] else FrameV(false, payloadType, []);
    fs[p.ts := f.(marker := f.marker || p.marker, queue := Insert(f.queue, p))]
  }

  /** Only the earliest frame is looked at. */
  ghost function Check(fs: Frames): Step
    requires fs != map[]
  {
    var k := Least(fs);
    if fs[k].marker && Consecutive(fs[k].queue) then Step(fs - {k}, true, Bufs(fs[k].queue), Some(fs[k]))
    else Step(fs, true, [], None)
  }

  ghost function Arrive(fs: Frames, max: nat, p: Pack, payloadType: nat): Step
    requires max > 0 && |fs| <= max
  {
    if p.ts in fs || |fs| < max then Check(Placed(fs, p, payloadType))
    else
      assert fs != map[] by { FullSome(fs, max); }
      var k := Least(fs);
      Step(fs - {k}, false, Bufs(fs[k].queue), None)
  }

  lemma FullSome(fs: Frames, max: nat)
    requires |fs| >= max > 0
    ensures fs != map[]
  {
  }

  // ---- What every step keeps ----

  /** A queue is not empty, of one timestamp and sorted; the marker is that of some packet. */
  ghost predicate GoodFrame(k: uint32, f: FrameV) {
    && f.queue != [] && Sorted(f.queue)
    && (forall x :: x in f.queue ==> x.ts == k)
    && (f.marker <==> exists x :: x in f.queue && x.marker)
  }

  ghost predicate Good(fs: Frames) {
    forall k :: k in fs ==> GoodFrame(k, fs[k])
  }

  lemma InsertMembers(q: seq<Pack>, p: Pack)
    ensures forall x :: x in Insert(q, p) <==> x in q || x == p
  {
    if q == [] || p.seqNo >= q[|q| - 1].seqNo {
    } else {
      assert q == q[..Slot(q, p)] + q[Slot(q, p)..];
    }
  }

  lemma PlacedGood(fs: Frames, p: Pack, payloadType: nat)
    requires Good(fs)
    ensures Good(Placed(fs, p, payloadType))
  {
    hide Insert;
    var gs := Placed(fs, p, payloadType);
    var f := if p.ts in fs then fs[p.ts] else FrameV(false, payloadType, []);
    InsertSorted(f.queue, p);
    InsertMembers(f.queue, p);
    assert p in Insert(f.queue, p);
  }

  lemma PlacedSize(fs: Frames, p: Pack, payloadType: nat)
    ensures |Placed(fs, p, payloadType)| == |fs| + (if p.ts in fs then 0 else 1)
  {
    hide Insert;
    var gs := Placed(fs, p, payloadType);
    assert gs.Keys == fs.Keys + {p.ts};
    MapSize(fs);
    MapSize(gs);
  }

  lemma MapSize(fs: Frames)
    ensures |fs| == |fs.Keys|
  {
  }

  lemma RemovedSize(fs: Frames, k: uint32)
    requires k in fs
    ensures |fs - {k}| == |fs| - 1
  {
    var gs := fs - {k};
    assert gs.Keys == fs.Keys - {k};
    MapSize(fs);
    MapSize(gs);
  }

  /** The cache stays good and within its frames, whatever arrives. */
  lemma ArriveGood(fs: Frames, max: nat, p: Pack, payloadType: nat)
    requires max > 0 && |fs| <= max && Good(fs)
    ensures var s := Arrive(fs, max, p, payloadType);
      Good(s.frames) && |s.frames| <= max
  {
    hide Placed, Insert, Consecutive, GoodFrame;
    PlacedGood(fs, p, payloadType);
    PlacedSize(fs, p, payloadType);
    var gs := if p.ts in fs || |fs| < max then Placed(fs, p, payloadType) else fs;
    if gs != map[] {
      RemovedSize(gs, Least(gs));
    }
  }

  lemma {:induction false} NoWrap(q: seq<Pack>, i: nat)
    requires Sorted(q) && Consecutive(q) && i < |q|
    ensures q[i].seqNo == q[0].seqNo + i
  {
    if i > 0 {
      NoWrap(q, i - 1);
      assert q[i - 1].seqNo <= q[i].seqNo;
      assert q[i].seqNo == (q[0].seqNo + i) % 0x1_0000;
    }
  }

  /** A whole frame: one timestamp, strictly consecutive numbers, a marker. */
  ghost predicate Whole(q: seq<Pack>, k: uint32) {
    && q != [] && (forall i :: 0 <= i < |q| ==> q[i].seqNo == q[0].seqNo + i && q[i].ts == k)
    && exists x :: x in q && x.marker
  }

  lemma GoodWhole(k: uint32, f: FrameV)
    requires GoodFrame(k, f) && f.marker && Consecutive(f.queue)
    ensures Whole(f.queue, k)
  {
    hide Consecutive;
    forall i | 0 <= i < |f.queue|
      ensures f.queue[i].seqNo == f.queue[0].seqNo + i && f.queue[i].ts == k
    {
      NoWrap(f.queue, i);
      assert f.queue[i] in f.queue;
    }
  }

  /** A frame is handed over only if it is the earliest of the cache, with the packet that has just
      arrived; it is whole, it leaves the cache, and all its buffers are given back. */
  lemma FinishedIs(fs: Frames, max: nat, p: Pack, payloadType: nat)
    requires max > 0 && |fs| <= max && Good(fs)
    ensures var s := Arrive(fs, max, p, payloadType);
      s.finished.Some? ==>
        var q := s.finished.value.queue;
        && q != [] && Whole(q, q[0].ts) && q[0].ts <= p.ts && (forall k :: k in fs ==> q[0].ts <= k)
        && s.released == Bufs(q) && q[0].ts !in s.frames
  {
    hide Insert, Consecutive, GoodFrame, Whole, Bufs;
    PlacedGood(fs, p, payloadType);
    var s := Arrive(fs, max, p, payloadType);
    if s.finished.Some? {
      var gs := Placed(fs, p, payloadType);
      var k := Least(gs);
      assert forall l :: l in fs ==> l in gs;
      GoodWhole(k, gs[k]);
      WholeTs(gs[k].queue, k);
    }
  }

  lemma WholeTs(q: seq<Pack>, k: uint32)
    requires Whole(q, k)
    ensures q != [] && q[0].ts == k
  {
  }

  /** When every frame is taken, the earliest one gives way and the new packet is turned down. */
  lemma Evicted(fs: Frames, max: nat, p: Pack, payloadType: nat)
    requires max > 0 && |fs| <= max
    ensures var s := Arrive(fs, max, p, payloadType);
      !s.ok <==> p.ts !in fs && |fs| == max
  {
  }

  /** Then it leaves with everything it holds, nothing is handed over, and all other frames stay. */
  lemma EvictsEarliest(fs: Frames, max: nat, p: Pack, payloadType: nat)
    requires 0 < max == |fs| && p.ts !in fs
    ensures var s := Arrive(fs, max, p, payloadType);
      && |s.frames| == max - 1 && s.finished == None
      && exists k :: k in fs && (forall j :: j in fs ==> k <= j) && s.frames == fs - {k} && s.released == Bufs(fs[k].queue)
  {
    hide Bufs;
    FullSome(fs, max);
    var k := Least(fs);
    RemovedSize(fs, k);
    assert Arrive(fs, max, p, payloadType) == Step(fs - {k}, false, Bufs(fs[k].queue), None);
  }

  /** So the packet that arrives next finds room, whatever it is. */
  lemma NextAccepted(fs: Frames, max: nat, p: Pack, payloadType: nat, q: Pack, qType: nat)
    requires 0 < max == |fs| && p.ts !in fs
    ensures var s := Arrive(fs, max, p, payloadType);
      && !s.ok && |s.frames| < max && Arrive(s.frames, max, q, qType).ok
  {
    hide Bufs, Placed;
    EvictsEarliest(fs, max, p, payloadType);
    Evicted(fs, max, p, payloadType);
    Evicted(Arrive(fs, max, p, payloadType).frames, max, q, qType);
  }

  // ---- One frame among the others ----

  /** A packet that is kept goes into the frame of its timestamp, behind all packets that are before it and
      in front of all that are behind it; of those with its own number it comes last at the end of the queue
      and first elsewhere. */
  lemma InsertWhere(q: seq<Pack>, p: Pack) returns (i: nat)
    ensures i <= |q| && Insert(q, p) == q[..i] + [p] + q[i..]
    ensures q != [] && q[|q| - 1].seqNo == p.seqNo ==> i == |q|
    ensures q != [] && q[|q| - 1].seqNo > p.seqNo ==>
      i < |q| && q[i].seqNo >= p.seqNo && forall k :: 0 <= k < i ==> q[k].seqNo < p.seqNo
    ensures q != [] && q[|q| - 1].seqNo < p.seqNo ==> i == |q|
  {
    i := if q == [] || p.seqNo >= q[|q| - 1].seqNo then |q| else Slot(q, p);
  }

  /** Frames of other timestamps stay as they are, but for one that leaves. A frame keeps the payload type
      of its first packet, and its marker once it has one. */
  lemma OthersStay(fs: Frames, max: nat, p: Pack, payloadType: nat)
    requires max > 0 && |fs| <= max
    ensures var s := Arrive(fs, max, p, payloadType);
      && (forall k :: k in s.frames && k != p.ts ==> k in fs && s.frames[k] == fs[k])
      && (p.ts in s.frames ==>
            var f := s.frames[p.ts];
            if p.ts in fs
            then f.payloadType == fs[p.ts].payloadType && f.queue == Insert(fs[p.ts].queue, p)
                 && (f.marker <==> fs[p.ts].marker || p.marker)
            else f == FrameV(p.marker, payloadType, [p]))
      && (forall j, k :: j in fs && k in fs && j !in s.frames && k !in s.frames ==> j == k)
  {
    hide Insert, Consecutive, Bufs;
    OneQueued(p);
  }

  lemma OneQueued(p: Pack)
    ensures Insert([], p) == [p]
  {
  }

  // ---- Ownership of receive buffers ----

  ghost function BufSet(q: seq<Pack>): (bs: set<nat>) {
    set x | x in q :: x.buf
  }

  /** The buffers in the queues. */
  ghost function Held(fs: Frames): (bs: set<nat>) {
    set k, x | k in fs && x in fs[k].queue :: x.buf
  }

  ghost predicate NoTwice(bs: seq<nat>) {
    forall i, j :: 0 <= i < j < |bs| ==> bs[i] != bs[j]
  }

  ghost function Listed(bs: seq<nat>): set<nat> {
    set b | b in bs
  }

  /** Every buffer has one place: in the pool, or once in one queue. */
  ghost predicate Apart(pool: seq<nat>, fs: Frames) {
    && NoTwice(pool) && Listed(pool) !! Held(fs)
    && (forall k :: k in fs ==> NoTwice(Bufs(fs[k].queue)))
    && (forall k, l :: k in fs && l in fs && k != l ==> BufSet(fs[k].queue) !! BufSet(fs[l].queue))
  }

  lemma BufSetIs(q: seq<Pack>)
    ensures Listed(Bufs(q)) == BufSet(q)
  {
    forall b | b in BufSet(q)
      ensures b in Listed(Bufs(q))
    {
      var x :| x in q && x.buf == b;
      var i :| 0 <= i < |q| && q[i] == x;
      assert Bufs(q)[i] == b;
    }
    forall b | b in Listed(Bufs(q))
      ensures b in BufSet(q)
    {
      var i :| 0 <= i < |q| && Bufs(q)[i] == b;
      assert q[i] in q;
    }
  }

  lemma HeldIs(fs: Frames, k: uint32)
    requires k in fs
    ensures BufSet(fs[k].queue) <= Held(fs)
  {
    forall b | b in BufSet(fs[k].queue)
      ensures b in Held(fs)
    {
      var x :| x in fs[k].queue && x.buf == b;
    }
  }

  lemma NoTwiceAdd(bs: seq<nat>, i: nat, b: nat)
    requires i <= |bs| && NoTwice(bs) && b !in bs
    ensures NoTwice(bs[..i] + [b] + bs[i..])
  {
    var cs := bs[..i] + [b] + bs[i..];
    forall k, l | 0 <= k < l < |cs|
      ensures cs[k] != cs[l]
    {
      assert cs[k] == if k < i then bs[k] else if k == i then b else bs[k - 1];
      assert cs[l] == if l < i then bs[l] else if l == i then b else bs[l - 1];
    }
  }

  lemma InsertNoTwice(q: seq<Pack>, p: Pack)
    requires NoTwice(Bufs(q)) && p.buf !in BufSet(q)
    ensures NoTwice(Bufs(Insert(q, p))) && BufSet(Insert(q, p)) == BufSet(q) + {p.buf}
  {
    hide Insert, NoTwice;
    InsertMembers(q, p);
    BufSetIs(q);
    assert p.buf !in Listed(Bufs(q));
    var i := InsertWhere(q, p);
    NoTwiceAdd(Bufs(q), i, p.buf);
    assert Bufs(Insert(q, p)) == Bufs(q)[..i] + [p.buf] + Bufs(q)[i..];
  }

  /** Every buffer that is in the pool or in a queue. */
  ghost function Owned(pool: seq<nat>, fs: Frames): set<nat> {
    Listed(pool) + Held(fs)
  }

  lemma HeldMember(fs: Frames, b: nat)
    ensures b in Held(fs) <==> exists k :: k in fs && b in BufSet(fs[k].queue)
  {
    if b in Held(fs) {
      var k, x :| k in fs && x in fs[k].queue && x.buf == b;
      assert b in BufSet(fs[k].queue);
    }
    if k :| k in fs && b in BufSet(fs[k].queue) {
      HeldIs(fs, k);
    }
  }

  lemma PlacedHeld(fs: Frames, p: Pack, payloadType: nat)
    requires var f := if p.ts in fs then fs[p.ts] else FrameV(false, payloadType, []);
      BufSet(Insert(f.queue, p)) == BufSet(f.queue) + {p.buf}
    ensures Held(Placed(fs, p, payloadType)) == Held(fs) + {p.buf}
  {
    hide Insert, BufSet, Held;
    var gs := Placed(fs, p, payloadType);
    NoBufs();
    forall b
      ensures b in Held(gs) <==> b in Held(fs) + {p.buf}
    {
      HeldMember(fs, b);
      HeldMember(gs, b);
      if b in Held(fs) {
        var k :| k in fs && b in BufSet(fs[k].queue);
        assert k in gs && b in BufSet(gs[k].queue);
      }
      if b == p.buf {
        assert p.ts in gs && b in BufSet(gs[p.ts].queue);
      }
    }
  }

  lemma NoBufs()
    ensures BufSet([]) == {} && NoTwice(Bufs([]))
  {
  }

  lemma PlacedApart(pool: seq<nat>, fs: Frames, p: Pack, payloadType: nat)
    requires Apart(pool, fs) && p.buf !in Owned(pool, fs)
    ensures Apart(pool, Placed(fs, p, payloadType))
    ensures Owned(pool, Placed(fs, p, payloadType)) == Owned(pool, fs) + {p.buf}
  {
    hide Insert, BufSet, Bufs, Held, NoTwice;
    var gs := Placed(fs, p, payloadType);
    var f := if p.ts in fs then fs[p.ts] else FrameV(false, payloadType, []);
    NoBufs();
    if p.ts in fs {
      HeldIs(fs, p.ts);
    }
    InsertNoTwice(f.queue, p);
    PlacedHeld(fs, p, payloadType);
    forall k | k in gs
      ensures NoTwice(Bufs(gs[k].queue))
    {
    }
    forall k, l | k in gs && l in gs && k != l
      ensures BufSet(gs[k].queue) !! BufSet(gs[l].queue)
    {
      if k in fs {
        HeldIs(fs, k);
      }
      if l in fs {
        HeldIs(fs, l);
      }
    }
  }

  lemma ReleaseHeld(fs: Frames, k: uint32)
    requires k in fs && forall l :: l in fs && l != k ==> BufSet(fs[k].queue) !! BufSet(fs[l].queue)
    ensures Held(fs - {k}) == Held(fs) - BufSet(fs[k].queue) && BufSet(fs[k].queue) <= Held(fs)
  {
    hide BufSet, Held;
    HeldIs(fs, k);
    forall b
      ensures b in Held(fs - {k}) <==> b in Held(fs) - BufSet(fs[k].queue)
    {
      HeldMember(fs, b);
      HeldMember(fs - {k}, b);
      if b in Held(fs) && b !in BufSet(fs[k].queue) {
        var l :| l in fs && b in BufSet(fs[l].queue);
        assert l in fs - {k};
      }
      if b in Held(fs - {k}) {
        var l :| l in fs - {k} && b in BufSet((fs - {k})[l].queue);
        assert l in fs && b in BufSet(fs[l].queue);
      }
    }
  }

  lemma NoTwiceConcat(a: seq<nat>, b: seq<nat>)
    requires NoTwice(a) && NoTwice(b) && Listed(a) !! Listed(b)
    ensures NoTwice(a + b) && Listed(a + b) == Listed(a) + Listed(b)
  {
    var c := a + b;
    forall i, j | 0 <= i < j < |c|
      ensures c[i] != c[j]
    {
      if i < |a| <= j {
        assert c[i] in Listed(a) && c[j] in Listed(b);
      }
    }
    assert forall x :: x in Listed(c) <==> x in Listed(a) + Listed(b);
  }

  /** A frame that goes gives all its buffers back. */
  lemma ReleaseApart(pool: seq<nat>, fs: Frames, k: uint32)
    requires Apart(pool, fs) && k in fs
    ensures Apart(pool + Bufs(fs[k].queue), fs - {k})
    ensures Owned(pool + Bufs(fs[k].queue), fs - {k}) == Owned(pool, fs)
  {
    hide BufSet, Bufs, Held, NoTwice, Listed;
    ReleaseHeld(fs, k);
    BufSetIs(fs[k].queue);
    NoTwiceConcat(pool, Bufs(fs[k].queue));
  }

  /** The buffers of all frames, the earliest frame first. */
  ghost function ReleaseAll(fs: Frames): seq<nat>
    decreases |fs|
  {
    if fs == map[] then [] else
      var k := Least(fs);
      assert |fs - {k}| < |fs| by { RemovedSize(fs, k); }
      Bufs(fs[k].queue) + ReleaseAll(fs - {k})
  }

  /** A cache that is given up gives back what it holds: nothing is lost, nothing freed twice. */
  lemma {:induction false} ReleaseAllOwns(pool: seq<nat>, fs: Frames)
    requires Apart(pool, fs)
    ensures Apart(pool + ReleaseAll(fs), map[])
    ensures Owned(pool + ReleaseAll(fs), map[]) == Owned(pool, fs)
    decreases |fs|
  {
    hide Apart, Owned, Bufs;
    if fs == map[] {
      assert pool + [] == pool;
    } else {
      var k := Least(fs);
      RemovedSize(fs, k);
      ReleaseApart(pool, fs, k);
      var first := Bufs(fs[k].queue);
      ReleaseAllOwns(pool + first, fs - {k});
      assert (pool + first) + ReleaseAll(fs - {k}) == pool + ReleaseAll(fs);
    }
  }

  lemma ReturnApart(pool: seq<nat>, fs: Frames, b: nat)
    requires Apart(pool, fs) && b !in Owned(pool, fs)
    ensures Apart(pool + [b], fs) && Owned(pool + [b], fs) == Owned(pool, fs) + {b}
  {
    hide BufSet, Bufs, Held;
    assert Listed([b]) == {b};
    NoTwiceConcat(pool, [b]);
  }

  lemma TakeApart(pool: seq<nat>, fs: Frames)
    requires Apart(pool, fs) && pool != []
    ensures Apart(pool[1..], fs) && pool[0] !in Owned(pool[1..], fs)
    ensures Owned(pool, fs) == Owned(pool[1..], fs) + {pool[0]}
  {
    hide BufSet, Bufs, Held;
    assert pool == [pool[0]] + pool[1..];
    assert pool[0] in Listed(pool);
    assert forall b :: b in Listed(pool[1..]) ==> b in Listed(pool);
    assert forall b :: b in Listed(pool) ==> b == pool[0] || b in Listed(pool[1..]);
  }

  /** What is free after a packet in buffer `p.buf` has arrived: the caller frees what is not kept. */
  ghost function PoolAfter(pool: seq<nat>, s: Step, b: nat): seq<nat> {
    pool + s.released + (if s.ok then [] else [b])
  }

  /** A packet that arrives changes the place of buffers, never their number: none is lost, none is in
      two places. */
  lemma ArriveOwns(pool: seq<nat>, fs: Frames, max: nat, p: Pack, payloadType: nat)
    requires max > 0 && |fs| <= max && Apart(pool, fs) && p.buf !in Owned(pool, fs)
    ensures var s := Arrive(fs, max, p, payloadType);
      && Apart(PoolAfter(pool, s, p.buf), s.frames)
      && Owned(PoolAfter(pool, s, p.buf), s.frames) == Owned(pool, fs) + {p.buf}
  {
    hide Placed, Consecutive, Apart, Owned, Bufs;
    var s := Arrive(fs, max, p, payloadType);
    if s.ok {
      PlacedApart(pool, fs, p, payloadType);
      var gs := Placed(fs, p, payloadType);
      var k := Least(gs);
      ReleaseApart(pool, gs, k);
      assert pool + [] + [] == pool;
      assert pool + Bufs(gs[k].queue) + [] == pool + Bufs(gs[k].queue);
    } else {
      var k := Least(fs);
      ReleaseApart(pool, fs, k);
      ReturnApart(pool + Bufs(fs[k].queue), fs - {k}, p.buf);
    }
  }

  // ---- Packets in any order ----

  function InsertAll(ps: seq<Pack>): seq<Pack> {
    if ps == [] then [] else Insert(InsertAll(ps[..|ps| - 1]), ps[|ps| - 1])
  }

  lemma {:induction false} InsertAllSorted(ps: seq<Pack>)
    ensures Sorted(InsertAll(ps))
  {
    hide Insert;
    if ps != [] {
      var n := |ps| - 1;
      InsertAllSorted(ps[..n]);
      InsertSorted(InsertAll(ps[..n]), ps[n]);
    }
  }

  lemma {:induction false} InsertAllSame(ps: seq<Pack>)
    ensures multiset(InsertAll(ps)) == multiset(ps)
  {
    hide Insert;
    if ps != [] {
      var n := |ps| - 1;
      InsertAllSame(ps[..n]);
      InsertOne(InsertAll(ps[..n]), ps[n]);
      assert ps == ps[..n] + [ps[n]];
    }
  }

  /** Sequence numbers that go up by one, without a wrap. */
  ghost predicate Numbered(ps: seq<Pack>) {
    forall i :: 0 <= i < |ps| ==> ps[i].seqNo == ps[0].seqNo + i
  }

  ghost predicate Rising(ps: seq<Pack>) {
    forall i, j :: 0 <= i < j < |ps| ==> ps[i].seqNo < ps[j].seqNo
  }

  lemma FrontMultiset(s: seq<Pack>)
    requires s != []
    ensures multiset(s[..|s| - 1]) == multiset(s) - multiset{s[|s| - 1]}
  {
    assert s == s[..|s| - 1] + [s[|s| - 1]];
  }

  lemma SameLast(a: seq<Pack>, b: seq<Pack>)
    requires Sorted(a) && multiset(a) == multiset(b) && Rising(b) && |a| == |b| && b != []
    ensures a[|a| - 1] == b[|b| - 1]
  {
    var n := |b| - 1;
    assert b[n] in multiset(b) && a[n] in multiset(a);
    assert b[n] in a && a[n] in b;
    var i :| 0 <= i < |a| && a[i] == b[n];
    var j :| 0 <= j < |b| && b[j] == a[n];
    assert a[i].seqNo <= a[n].seqNo;
    if j < n {
      assert false;
    }
  }

  lemma SameSize(a: seq<Pack>, b: seq<Pack>)
    requires multiset(a) == multiset(b)
    ensures |a| == |b|
  {
    assert |multiset(a)| == |a| && |multiset(b)| == |b|;
  }

  lemma Fronts(a: seq<Pack>, b: seq<Pack>)
    requires a != [] && b != [] && multiset(a) == multiset(b) && a[|a| - 1] == b[|b| - 1]
    ensures multiset(a[..|a| - 1]) == multiset(b[..|b| - 1])
  {
    FrontMultiset(a);
    FrontMultiset(b);
  }

  lemma FrontSorted(a: seq<Pack>)
    requires a != []
    ensures (Sorted(a) ==> Sorted(a[..|a| - 1])) && (Rising(a) ==> Rising(a[..|a| - 1]))
  {
  }

  /** There is one way to sort packets with different numbers. */
  lemma {:induction false} SortedUnique(a: seq<Pack>, b: seq<Pack>)
    requires Sorted(a) && multiset(a) == multiset(b) && Rising(b)
    ensures a == b
    decreases |b|
  {
    hide Sorted, Rising;
    SameSize(a, b);
    if b != [] {
      SameLast(a, b);
      Fronts(a, b);
      FrontSorted(a);
      FrontSorted(b);
      SortedUnique(a[..|a| - 1], b[..|b| - 1]);
      Rejoin(a);
      Rejoin(b);
    }
  }

  lemma Rejoin(a: seq<Pack>)
    requires a != []
    ensures a == a[..|a| - 1] + [a[|a| - 1]]
  {
  }

  /** Whatever order the packets of a frame come in, its queue ends up in the order they were sent. */
  lemma AnyOrder(arrived: seq<Pack>, ps: seq<Pack>)
    requires Numbered(ps) && multiset(arrived) == multiset(ps)
    ensures InsertAll(arrived) == ps
  {
    InsertAllSorted(arrived);
    InsertAllSame(arrived);
    SortedUnique(InsertAll(arrived), ps);
  }

  // ---- Runs ----

  /** A packet and the payload type in its header. */
  datatype Arrival = Arrival(p: Pack, payloadType: nat)

  ghost predicate Within(fs: Frames, max: nat) { max > 0 && |fs| <= max }

  ghost function RunFrames(fs: Frames, max: nat, xs: seq<Arrival>): (r: Frames)
    requires Within(fs, max)
    ensures Within(r, max)
  {
    if xs == [] then fs else
      var before := RunFrames(fs, max, xs[..|xs| - 1]);
      var x := xs[|xs| - 1];
      ArriveWithin(before, max, x.p, x.payloadType);
      Arrive(before, max, x.p, x.payloadType).frames
  }

  lemma ArriveWithin(fs: Frames, max: nat, p: Pack, payloadType: nat)
    requires Within(fs, max)
    ensures Within(Arrive(fs, max, p, payloadType).frames, max)
  {
    hide Placed, Consecutive;
    PlacedSize(fs, p, payloadType);
    var gs := if p.ts in fs || |fs| < max then Placed(fs, p, payloadType) else fs;
    if gs != map[] {
      RemovedSize(gs, Least(gs));
    }
  }

  /** No packet finds every frame taken. */
  ghost predicate NeverFull(fs: Frames, max: nat, xs: seq<Arrival>)
    requires Within(fs, max)
  {
    forall n :: 0 <= n < |xs| ==> HasRoom(fs, max, xs, n)
  }

  ghost predicate HasRoom(fs: Frames, max: nat, xs: seq<Arrival>, n: nat)
    requires Within(fs, max) && n < |xs|
  {
    var before := RunFrames(fs, max, xs[..n]);
    xs[n].p.ts in before || |before| < max
  }

  /** The packets of one timestamp, in the order they arrived. */
  function Mine(xs: seq<Arrival>, t: uint32): seq<Pack> {
    if xs == [] then [] else
      var x := xs[|xs| - 1];
      if x.p.ts == t then Mine(xs[..|xs| - 1], t) + [x.p] else Mine(xs[..|xs| - 1], t)
  }

  /** While the marker of the earliest frame is missing, its packets gather, whatever else arrives. */
  ghost predicate Gathering(fs: Frames, t: uint32, payloadType: nat, mine: seq<Pack>) {
    && (forall k :: k in fs ==> t <= k)
    && (t in fs <==> mine != [])
    && (mine != [] ==> fs[t] == FrameV(false, payloadType, InsertAll(mine)))
  }

  lemma InsertAllSnoc(mine: seq<Pack>, p: Pack)
    ensures InsertAll(mine + [p]) == Insert(InsertAll(mine), p)
  {
    assert (mine + [p])[..|mine|] == mine;
  }

  lemma GatherOwn(fs: Frames, max: nat, t: uint32, payloadType: nat, mine: seq<Pack>, p: Pack)
    requires Within(fs, max) && Gathering(fs, t, payloadType, mine) && p.ts == t && !p.marker
    requires p.ts in fs || |fs| < max
    ensures Gathering(Arrive(fs, max, p, payloadType).frames, t, payloadType, mine + [p])
  {
    hide Insert, Consecutive;
    InsertAllSnoc(mine, p);
    var gs := Placed(fs, p, payloadType);
    assert Least(gs) == t;
  }

  lemma GatherOther(fs: Frames, max: nat, t: uint32, payloadType: nat, mine: seq<Pack>, p: Pack, other: nat)
    requires Within(fs, max) && Gathering(fs, t, payloadType, mine) && p.ts > t
    requires p.ts in fs || |fs| < max
    ensures Gathering(Arrive(fs, max, p, other).frames, t, payloadType, mine)
  {
    hide Insert, Consecutive, InsertAll;
    var gs := Placed(fs, p, other);
    if mine != [] {
      assert t in gs && gs[t] == fs[t];
      assert Least(gs) == t;
    }
  }

  /** Arrivals while timestamp `t` is the earliest: its own packets, still without the marker, and any
      packets of later timestamps. */
  ghost predicate Around(fs: Frames, xs: seq<Arrival>, t: uint32, payloadType: nat) {
    && (forall k :: k in fs ==> t < k)
    && (forall n :: 0 <= n < |xs| ==> xs[n].p.ts >= t)
    && (forall n :: 0 <= n < |xs| && xs[n].p.ts == t ==> !xs[n].p.marker && xs[n].payloadType == payloadType)
  }

  lemma NeverFullFront(fs: Frames, max: nat, xs: seq<Arrival>)
    requires Within(fs, max) && xs != [] && NeverFull(fs, max, xs)
    ensures NeverFull(fs, max, xs[..|xs| - 1]) && HasRoom(fs, max, xs, |xs| - 1)
  {
    var ys := xs[..|xs| - 1];
    forall n | 0 <= n < |ys|
      ensures HasRoom(fs, max, ys, n)
    {
      assert HasRoom(fs, max, xs, n) && ys[..n] == xs[..n];
    }
  }

  lemma {:induction false} GatherRun(fs: Frames, max: nat, xs: seq<Arrival>, t: uint32, payloadType: nat)
    requires Within(fs, max) && NeverFull(fs, max, xs) && Around(fs, xs, t, payloadType)
    ensures Gathering(RunFrames(fs, max, xs), t, payloadType, Mine(xs, t))
  {
    hide Gathering, NeverFull, Arrive, HasRoom;
    if xs == [] {
      NothingGathered(fs, t, payloadType);
    } else {
      var n := |xs| - 1;
      var x := xs[n];
      NeverFullFront(fs, max, xs);
      GatherRun(fs, max, xs[..n], t, payloadType);
      var before := RunFrames(fs, max, xs[..n]);
      Room(fs, max, xs, n);
      if x.p.ts == t {
        GatherOwn(before, max, t, payloadType, Mine(xs[..n], t), x.p);
      } else {
        GatherOther(before, max, t, payloadType, Mine(xs[..n], t), x.p, x.payloadType);
      }
    }
  }

  lemma NothingGathered(fs: Frames, t: uint32, payloadType: nat)
    requires forall k :: k in fs ==> t < k
    ensures Gathering(fs, t, payloadType, [])
  {
  }

  lemma Room(fs: Frames, max: nat, xs: seq<Arrival>, n: nat)
    requires Within(fs, max) && n < |xs| && HasRoom(fs, max, xs, n)
    ensures var before := RunFrames(fs, max, xs[..n]);
      xs[n].p.ts in before || |before| < max
  {
  }

  lemma NumberedConsecutive(ps: seq<Pack>)
    requires Numbered(ps)
    ensures Consecutive(ps)
  {
  }

  lemma MarkerEnds(fs: Frames, max: nat, t: uint32, payloadType: nat, mine: seq<Pack>, p: Pack, ps: seq<Pack>)
    requires Within(fs, max) && Gathering(fs, t, payloadType, mine) && p.ts == t && p.marker
    requires p.ts in fs || |fs| < max
    requires Numbered(ps) && multiset(mine + [p]) == multiset(ps)
    ensures Arrive(fs, max, p, payloadType).finished == Some(FrameV(true, payloadType, ps))
  {
    hide Insert, Consecutive, InsertAll, Numbered;
    InsertAllSnoc(mine, p);
    NoneInserted();
    AnyOrder(mine + [p], ps);
    NumberedConsecutive(ps);
    var gs := Placed(fs, p, payloadType);
    assert Least(gs) == t;
  }

  lemma NoneInserted()
    ensures InsertAll([]) == []
  {
  }

  /** The packets of the earliest frame may come in any order, between any packets of later frames, as
      long as the one with the marker comes last: then the frame is handed over whole and in order. */
  lemma Delivered(fs: Frames, max: nat, xs: seq<Arrival>, last: Arrival, t: uint32, ps: seq<Pack>)
    requires Within(fs, max) && NeverFull(fs, max, xs + [last]) && Around(fs, xs, t, last.payloadType)
    requires last.p.ts == t && last.p.marker
    requires Numbered(ps) && multiset(Mine(xs, t) + [last.p]) == multiset(ps)
    ensures var s := Arrive(RunFrames(fs, max, xs), max, last.p, last.payloadType);
      s.finished == Some(FrameV(true, last.payloadType, ps))
  {
    hide Gathering, NeverFull, Arrive, HasRoom, Numbered;
    var all := xs + [last];
    assert all[..|all| - 1] == xs;
    NeverFullFront(fs, max, all);
    Room(fs, max, all, |xs|);
    GatherRun(fs, max, xs, t, last.payloadType);
    MarkerEnds(RunFrames(fs, max, xs), max, t, last.payloadType, Mine(xs, t), last.p, ps);
  }
}
