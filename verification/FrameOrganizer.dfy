/** The frame organizer: frames taken from a free list, filed by timestamp, and given back. */
module FrameOrganizer {
  import opened Bytes
  import opened Options
  import opened RtpPacket
  import opened Depacketizer
  import opened FrameCache

  lemma AddedOnce(bs: seq<nat>, b: nat)
    requires NoTwice(bs) && b !in bs
    ensures NoTwice(bs + [b])
  {
  }

  /** The pool of receive buffers. */
  class Service {
    var bufList: seq<nat>

    /** create_rtp_recv_bufs: `count` buffers, all different, all free. */
    constructor (count: nat)
      ensures |bufList| == count && NoTwice(bufList) && forall b: nat :: b in bufList <==> b < count
    {
      bufList := [];
      new;
      var i: nat := 0;
      while i < count
        invariant i <= count && |bufList| == i && NoTwice(bufList)
        invariant forall b: nat :: b in bufList <==> b < i
      {
        assert i !in bufList;
        AddedOnce(bufList, i);
        bufList := bufList + [i];
        i := i + 1;
      }
    }

    /** The buffer that is taken is free no longer. */
    method GetRtpRecvBuf() returns (buf: Option<nat>)
      modifies this
      ensures old(bufList) == [] ==> buf == None && bufList == []
      ensures old(bufList) != [] ==> buf == Some(old(bufList)[0]) && bufList == old(bufList)[1..]
      ensures NoTwice(old(bufList)) ==> NoTwice(bufList) && (buf.Some? ==> buf.value !in bufList)
    {
      if |bufList| == 0 {
        return None;
      }
      buf := Some(bufList[0]);
      bufList := bufList[1..];
    }

    /** A buffer that is not free becomes the last one to be taken again. */
    method FreeRtpRecvBuf(buf: nat)
      modifies this
      ensures bufList == old(bufList) + [buf]
      ensures NoTwice(old(bufList)) && buf !in old(bufList) ==> NoTwice(bufList)
    {
      bufList := bufList + [buf];
    }
  }

  /** A frame being gathered. */
  class Frame {
    var timestamp: uint32
    var marker: bool
    var payloadType: nat
    var queue: seq<Pack>

    constructor ()
      ensures queue == []
    {
      timestamp, marker, payloadType, queue := 0, false, 0, [];
    }

    ghost function V(): FrameV
      reads this
    {
      FrameV(marker, payloadType, queue)
    }

    /** Sorted insertion by sequence number. */
    method Insert(p: Pack)
      modifies this`queue
      ensures queue == FrameCache.Insert(old(queue), p)
    {
      if |queue| == 0 {
        queue := queue + [p];
        return;
      }
      var firstSeq := queue[0].seqNo;
      var lastSeq := queue[|queue| - 1].seqNo;
      if p.seqNo >= lastSeq {
        queue := queue + [p];
      } else if p.seqNo < firstSeq {
        assert Slot(queue, p) == 0;
        queue := [p] + queue;
      } else {
        var ok := InsertRange(p);
      }
    }

    /** Always finds a place in front of the last packet. */
    method InsertRange(p: Pack) returns (ok: bool)
      requires queue != [] && p.seqNo < queue[|queue| - 1].seqNo
      modifies this`queue
      ensures ok && queue == FrameCache.Insert(old(queue), p)
    {
      var i := 0;
      while i < |queue|
        invariant i < |queue| && queue == old(queue)
        invariant forall k :: 0 <= k < i ==> queue[k].seqNo < p.seqNo
      {
        if p.seqNo <= queue[i].seqNo {
          SlotIs(queue, p, i);
          queue := queue[..i] + [p] + queue[i..];
          return true;
        }
        i := i + 1;
      }
      ok := false;
    }

    lemma SlotIs(q: seq<Pack>, p: Pack, i: nat)
      requires i < |q| && p.seqNo <= q[i].seqNo && forall k :: 0 <= k < i ==> q[k].seqNo < p.seqNo
      ensures Slot(q, p) == i
    {
    }
  }

  /** All of `max` frames are filed or free, none of them twice. */
  ghost predicate EachOnce(filed: map<uint32, Frame>, free: seq<Frame>, max: nat) {
    && |free| + |filed| == max
    && (forall k :: k in filed ==> filed[k] !in free)
    && (forall k, l :: k in filed && l in filed && k != l ==> filed[k] != filed[l])
    && (forall i, j :: 0 <= i < j < |free| ==> free[i] != free[j])
  }

  lemma KeyCount(m: map<uint32, Frame>)
    ensures |m| == |m.Keys|
  {
  }

  lemma FiledCount(filed: map<uint32, Frame>, k: uint32, f: Frame)
    requires k !in filed
    ensures |filed[k := f]| == |filed| + 1
  {
    var more := filed[k := f];
    assert more.Keys == filed.Keys + {k};
    KeyCount(filed);
    KeyCount(more);
  }

  lemma FirstFiled(filed: map<uint32, Frame>, free: seq<Frame>, max: nat, k: uint32)
    requires EachOnce(filed, free, max) && free != [] && k !in filed
    ensures EachOnce(filed[k := free[0]], free[1..], max)
  {
    var more, rest := filed[k := free[0]], free[1..];
    FiledCount(filed, k, free[0]);
    assert free[0] in free;
    assert forall i :: 0 <= i < |rest| ==> rest[i] == free[i + 1];
    assert forall f :: f in rest ==> f in free && f != free[0];
    forall l | l in more
      ensures more[l] !in rest
    {
      assert l == k || (l in filed && more[l] == filed[l]);
    }
    forall l, m | l in more && m in more && l != m
      ensures more[l] != more[m]
    {
      assert (l == k || l in filed) && (m == k || m in filed);
    }
  }

  lemma OneFreed(filed: map<uint32, Frame>, free: seq<Frame>, max: nat, k: uint32)
    requires EachOnce(filed, free, max) && k in filed
    ensures EachOnce(filed - {k}, free + [filed[k]], max)
  {
    var fewer := filed - {k};
    assert fewer.Keys == filed.Keys - {k};
    KeyCount(filed);
    KeyCount(fewer);
  }

  class Organizer {
    const service: Service
    const sink: Sink
    const max: nat
    var frameMap: map<uint32, Frame>
    var freeList: seq<Frame>

    ghost predicate Valid()
      reads this, freeList, frameMap.Values
    {
      Shape() && Good(V()) && |V()| <= max
    }

    /** Free list and map together hold exactly the configured frames, each once. */
    ghost predicate Shape()
      reads this, freeList, frameMap.Values
    {
      && max > 0 && EachOnce(frameMap, freeList, max)
      && (forall k :: k in frameMap ==> frameMap[k].timestamp == k)
      && (forall i :: 0 <= i < |freeList| ==> freeList[i].queue == [])
    }

    ghost function V(): (fs: Frames)
      reads this`frameMap, frameMap.Values
    {
      map k | k in frameMap :: frameMap[k].V()
    }

    constructor (service: Service, sink: Sink, max: nat)
      requires max > 0
      ensures Valid() && V() == map[] && this.service == service && this.sink == sink && this.max == max
      ensures forall f :: f in freeList ==> fresh(f)
    {
      this.service, this.sink, this.max := service, sink, max;
      frameMap, freeList := map[], [];
      new;
      var i: nat := 0;
      while i < max
        invariant i <= max && |freeList| == i && frameMap == map[] && forall f :: f in freeList ==> fresh(f)
        invariant forall k, l :: 0 <= k < l < i ==> freeList[k] != freeList[l]
        invariant forall k :: 0 <= k < i ==> freeList[k].queue == []
      {
        var f := new Frame();
        freeList := freeList + [f];
        i := i + 1;
      }
    }

    /** The frame of the least timestamp. */
    method GetSmallFrame() returns (small: Frame)
      requires Shape() && frameMap != map[]
      ensures small.timestamp in frameMap && frameMap[small.timestamp] == small
      ensures small.timestamp == Least(V())
    {
      var rest := frameMap.Keys;
      var first :| first in rest;
      small := frameMap[first];
      rest := rest - {first};
      while rest != {}
        invariant rest <= frameMap.Keys && small.timestamp in frameMap && frameMap[small.timestamp] == small
        invariant forall k :: k in frameMap ==> k in rest || small.timestamp <= k
        decreases rest
      {
        var k :| k in rest;
        var cur := frameMap[k];
        if small.timestamp > cur.timestamp {
          small := cur;
        }
        rest := rest - {k};
      }
      assert IsLeast(V(), small.timestamp);
    }

    /** Takes a frame off the free list and files it under a timestamp. */
    method InsertFrame(payloadType: nat, ts: uint32) returns (f: Option<Frame>)
      requires Shape() && ts !in frameMap
      modifies this`freeList, this`frameMap, freeList
      ensures Shape() && (f == None <==> |old(frameMap)| == max)
      ensures f == None ==> frameMap == old(frameMap) && freeList == old(freeList) && V() == old(V())
      ensures f.Some? ==> old(freeList) != [] && f.value == old(freeList)[0] && freeList == old(freeList)[1..]
      ensures f.Some? ==> frameMap == old(frameMap)[ts := f.value]
      ensures f.Some? ==> V() == old(V())[ts := FrameV(false, payloadType, [])]
    {
      if |freeList| == 0 {
        return None;
      }
      var frame := freeList[0];
      frame.marker := false;
      frame.payloadType := payloadType;
      frame.timestamp := ts;
      assert V() == old(V());
      File(frame);
      f := Some(frame);
    }

    method File(frame: Frame)
      requires Shape() && freeList != [] && frame == freeList[0] && frame.timestamp !in frameMap
      modifies this`freeList, this`frameMap
      ensures Shape() && V() == old(V())[frame.timestamp := frame.V()]
      ensures freeList == old(freeList)[1..] && frameMap == old(frameMap)[frame.timestamp := frame]
    {
      hide EachOnce;
      FirstFiled(frameMap, freeList, max, frame.timestamp);
      ghost var fs := V();
      freeList := freeList[1..];
      frameMap := frameMap[frame.timestamp := frame];
      assert V().Keys == fs[frame.timestamp := frame.V()].Keys;
    }

    method FreeBuffers(f: Frame)
      modifies f`queue, service
      ensures f.queue == [] && service.bufList == old(service.bufList) + Bufs(old(f.queue))
    {
      ghost var q, pool := f.queue, service.bufList;
      ghost var i: nat := 0;
      while |f.queue| > 0
        invariant i <= |q| && f.queue == q[i..] && service.bufList == pool + Bufs(q[..i])
        decreases |f.queue|
      {
        assert Bufs(q[..i + 1]) == Bufs(q[..i]) + [q[i].buf];
        service.FreeRtpRecvBuf(f.queue[0].buf);
        f.queue := f.queue[1..];
        i := i + 1;
      }
      assert q[..i] == q;
    }

    /** Gives the buffers of a frame back to the pool, and the frame to the free list. */
    method ReleaseRtpPacket(f: Frame)
      requires Shape() && f.timestamp in frameMap && frameMap[f.timestamp] == f
      modifies this`frameMap, this`freeList, f`queue, service
      ensures Shape() && V() == old(V()) - {f.timestamp}
      ensures frameMap == old(frameMap) - {f.timestamp} && freeList == old(freeList) + [f]
      ensures service.bufList == old(service.bufList) + Bufs(old(f.queue))
    {
      FreeBuffers(f);
      assert Shape();
      assert V() - {f.timestamp} == old(V()) - {f.timestamp};
      Refile(f);
    }

    /** Moves a frame from the map to the free list. */
    method Refile(f: Frame)
      requires Shape() && f.timestamp in frameMap && frameMap[f.timestamp] == f && f.queue == []
      modifies this`frameMap, this`freeList
      ensures Shape() && V() == old(V()) - {f.timestamp}
      ensures frameMap == old(frameMap) - {f.timestamp} && freeList == old(freeList) + [f]
    {
      hide EachOnce;
      OneFreed(frameMap, freeList, max, f.timestamp);
      frameMap := frameMap - {f.timestamp};
      freeList := freeList + [f];
    }

    function Handed(out: seq<Out>, f: Option<FrameV>): seq<Out>
      reads sink`h264Type, sink`h265Type
    {
      match f
      case None => out
      case Some(x) => More(out, sink.Deliver(x.payloadType, x.queue))
    }

    /** Strictly consecutive sequence numbers. */
    method IsConsecutive(q: seq<Pack>) returns (yes: bool)
      ensures yes == Consecutive(q)
    {
      if |q| == 0 {
        return true;
      }
      var seqNo: uint16 := q[0].seqNo;
      var i := 0;
      while i < |q|
        invariant i <= |q| && seqNo == (q[0].seqNo + i) % 0x1_0000
        invariant forall k :: 0 <= k < i ==> q[k].seqNo == (q[0].seqNo + k) % 0x1_0000
      {
        if seqNo != q[i].seqNo {
          return false;
        }
        seqNo := (seqNo as int + 1) % 0x1_0000;
        i := i + 1;
      }
      yes := true;
    }

    lemma CheckIs(k: uint32)
      requires k in frameMap && V() != map[] && k == Least(V())
      ensures var f := frameMap[k];
        Check(V()) == if f.marker && Consecutive(f.queue) then Step(V() - {k}, true, Bufs(f.queue), Some(f.V()))
                      else Step(V(), true, [], None)
    {
      hide Consecutive, Bufs;
    }

    /** Hands over the earliest frame if it is whole. */
    method CheckFrame()
      requires Shape() && frameMap != map[] && V() != map[]
      modifies this`frameMap, this`freeList, frameMap.Values, service, sink`out
      ensures Shape() && V() == Check(old(V())).frames
      ensures service.bufList == old(service.bufList) + Check(old(V())).released
      ensures sink.out == Handed(old(sink.out), Check(old(V())).finished)
      ensures forall f :: f in frameMap.Values || f in freeList ==> f in old(frameMap.Values) || f in old(freeList)
    {
      hide Consecutive, Check, V, Shape, Bufs, Least;
      var f := GetSmallFrame();
      CheckIs(f.timestamp);
      if !f.marker {
        return;
      }
      var whole := IsConsecutive(f.queue);
      if !whole {
        return;
      }
      sink.HandleRtpFrame(f.payloadType, f.queue);
      ReleaseRtpPacket(f);
    }

    /** The frame for a packet: the one that is there, or one off the free list. */
    method FindFrame(payloadType: nat, ts: uint32) returns (f: Option<Frame>)
      requires Valid()
      modifies this`freeList, this`frameMap, freeList
      ensures Shape() && (f == None <==> ts !in old(V()) && |old(V())| == max)
      ensures f == None ==> V() == old(V()) && frameMap == old(frameMap) && freeList == old(freeList)
      ensures f.Some? ==> Shape() && ts in frameMap && frameMap[ts] == f.value
      ensures f.Some? ==> V() == if ts in old(V()) then old(V()) else old(V())[ts := FrameV(false, payloadType, [])]
      ensures forall x :: x in frameMap.Values || x in freeList ==> x in old(frameMap.Values) || x in old(freeList)
    {
      Sizes();
      if ts in frameMap {
        f := Some(frameMap[ts]);
      } else {
        f := InsertFrame(payloadType, ts);
      }
    }

    lemma Sizes()
      ensures |V()| == |frameMap| && V().Keys == frameMap.Keys
    {
      assert V().Keys == frameMap.Keys;
      KeyCount(frameMap);
      MapSize(V());
    }

    function PackOf(d: seq<byte>, buf: nat): Pack
      requires |d| >= FIXED
    {
      Pack(SeqNo(d), Timestamp(d), Marked(d[1]), buf, d)
    }

    /** Files a packet in its frame. */
    method FilePacket(f: Frame, p: Pack)
      requires Shape() && p.ts in frameMap && frameMap[p.ts] == f
      modifies f`marker, f`queue
      ensures Shape() && V() == old(V())[p.ts := f.V()]
      ensures f.V() == old(f.V()).(marker := old(f.marker) || p.marker, queue := FrameCache.Insert(old(f.queue), p))
    {
      hide FrameCache.Insert;
      if !f.marker {
        f.marker := p.marker;
      }
      f.Insert(p);
    }

    /** Every frame is taken: the earliest one is given up. */
    method Evict(ghost p: Pack, ghost payloadType: nat)
      requires Valid() && p.ts !in V() && |V()| == max
      modifies this`frameMap, this`freeList, frameMap.Values, service
      ensures var s := Arrive(old(V()), max, p, payloadType);
        Shape() && V() == s.frames && service.bufList == old(service.bufList) + s.released
      ensures forall f :: f in frameMap.Values || f in freeList ==> f in old(frameMap.Values) || f in old(freeList)
    {
      hide Good, Shape, V, Bufs;
      Sizes();
      ShapeMax();
      FullSome(V(), max);
      var small := GetSmallFrame();
      FrameAt(small.timestamp);
      ReleaseRtpPacket(small);
    }

    lemma FrameAt(k: uint32)
      requires k in frameMap
      ensures k in V() && V()[k] == frameMap[k].V()
    {
    }

    /** The packet in its frame, and the earliest frame handed over if that makes it whole. */
    method Accept(f: Frame, p: Pack, ghost fs: Frames, ghost payloadType: nat)
      requires Shape() && p.ts in frameMap && frameMap[p.ts] == f
      requires V() == if p.ts in fs then fs else fs[p.ts := FrameV(false, payloadType, [])]
      modifies this`frameMap, this`freeList, frameMap.Values, service, sink`out
      ensures Shape()
      ensures var s := Check(Placed(fs, p, payloadType));
        && V() == s.frames && service.bufList == old(service.bufList) + s.released
        && sink.out == Handed(old(sink.out), s.finished)
      ensures forall f :: f in frameMap.Values || f in freeList ==> f in old(frameMap.Values) || f in old(freeList)
    {
      hide FrameCache.Insert, Check, Shape, Handed, Bufs;
      FilePacket(f, p);
      assert V() == Placed(fs, p, payloadType);
      CheckFrame();
    }

    /** True when the packet is kept; otherwise its buffer stays with the caller. */
    method InsertRtpPacket(d: seq<byte>, buf: nat) returns (ok: bool)
      requires Valid()
      modifies this`frameMap, this`freeList, frameMap.Values, freeList, service, sink`out
      ensures Valid()
      ensures HeadLength(d) == None ==>
        !ok && V() == old(V()) && service.bufList == old(service.bufList) && sink.out == old(sink.out)
      ensures HeadLength(d).Some? ==>
        var s := Arrive(old(V()), max, PackOf(d, buf), PayloadType(d[1]));
        && ok == s.ok && V() == s.frames
        && service.bufList == old(service.bufList) + s.released
        && sink.out == Handed(old(sink.out), s.finished)
      ensures forall f :: f in frameMap.Values || f in freeList ==> f in old(frameMap.Values) || f in old(freeList)
    {
      hide HeadLength, Placed, Check, Good, Shape, V, Least, Bufs;
      var packet := new Packet();
      var parsed := packet.ParsePacket(d);
      if !parsed {
        return false;
      }
      HeadSize(d);
      var p := PackOf(d, buf);
      ghost var fs := V();
      ShapeMax();
      ArriveGood(fs, max, p, PayloadType(d[1]));
      var found := FindFrame(PayloadType(d[1]), p.ts);
      if found == None {
        Evict(p, PayloadType(d[1]));
        return false;
      }
      Accept(found.value, p, fs, PayloadType(d[1]));
      CheckKeeps(Placed(fs, p, PayloadType(d[1])));
      ok := true;
    }

    /** The frames of some timestamps. */
    ghost function Only(fs: Frames, ks: set<uint32>): Frames {
      map k | k in fs && k in ks :: fs[k]
    }

    lemma ReleaseNext(fs: Frames, ks: set<uint32>, k: uint32)
      requires k in ks && ks <= fs.Keys && forall l :: l in ks ==> k <= l
      ensures ReleaseAll(Only(fs, ks)) == Bufs(fs[k].queue) + ReleaseAll(Only(fs, ks - {k}))
    {
      hide Bufs;
      var some := Only(fs, ks);
      assert some.Keys == ks;
      assert Least(some) == k;
      assert some - {k} == Only(fs, ks - {k});
    }

    /** The least of some timestamps: where the iterator of an ordered map stands. */
    method Smallest(ks: set<uint32>) returns (k: uint32)
      requires ks != {}
      ensures k in ks && forall l :: l in ks ==> k <= l
    {
      k :| k in ks;
      var rest := ks - {k};
      while rest != {}
        invariant rest <= ks && k in ks && forall l :: l in ks ==> l in rest || k <= l
        decreases rest
      {
        var l :| l in rest;
        if l < k {
          k := l;
        }
        rest := rest - {l};
      }
    }

    /** The end of the organizer: the buffers of every queue go back to the pool, the earliest frame
        first, and the organizer is left without frames. */
    method Release()
      requires Valid()
      modifies this`frameMap, this`freeList, frameMap.Values, service
      ensures frameMap == map[] && freeList == [] && V() == map[]
      ensures service.bufList == old(service.bufList) + ReleaseAll(old(V()))
    {
      hide Bufs, Good, Least, ReleaseAll, EachOnce, V, Only;
      ghost var fs, pool := V(), service.bufList;
      Separate();
      var rest := frameMap.Keys;
      while rest != {}
        invariant rest <= fs.Keys && frameMap == old(frameMap)
        invariant forall k :: k in rest ==> frameMap[k].queue == fs[k].queue
        invariant service.bufList + ReleaseAll(Only(fs, rest)) == pool + ReleaseAll(fs)
        decreases rest
      {
        var k := Smallest(rest);
        ReleaseNext(fs, rest, k);
        FreeBuffers(frameMap[k]);
        rest := rest - {k};
      }
      NoneReleased(fs);
      frameMap := map[];
      freeList := [];
      NoneFiled();
    }

    /** Each timestamp has a frame of its own. */
    lemma Separate()
      requires Shape()
      ensures forall k, l :: k in frameMap && l in frameMap && k != l ==> frameMap[k] != frameMap[l]
      ensures V().Keys == frameMap.Keys && Only(V(), frameMap.Keys) == V()
      ensures forall k :: k in frameMap ==> frameMap[k].queue == V()[k].queue
    {
    }

    lemma NoneReleased(fs: Frames)
      ensures ReleaseAll(Only(fs, {})) == []
    {
    }

    lemma NoneFiled()
      requires frameMap == map[]
      ensures V() == map[]
    {
    }

    lemma CheckKeeps(fs: Frames)
      requires fs != map[]
      ensures Check(fs).ok
    {
    }

    lemma ShapeMax()
      requires Shape()
      ensures max > 0 && |frameMap| <= max
    {
    }

    lemma HeadSize(d: seq<byte>)
      requires HeadLength(d).Some?
      ensures |d| >= FIXED
    {
    }
  }
}
