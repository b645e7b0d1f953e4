/** Which part of a frame the cache hands over, for packets that arrive in any order. */
module HandOver {
  import opened Bytes
  import opened Options
  import opened Depacketizer
  import opened FrameCache

  /** The first frame of timestamp `t` that a run hands over. */
  ghost function First(fs: Frames, max: nat, xs: seq<Arrival>, t: uint32): Option<FrameV>
    requires Within(fs, max)
  {
    if xs == [] then None else
      var front := xs[..|xs| - 1];
      var x := xs[|xs| - 1];
      if First(fs, max, front, t).Some? then First(fs, max, front, t)
      else
        var s := Arrive(RunFrames(fs, max, front), max, x.p, x.payloadType);
        if Of(s.finished, t) then s.finished else None
  }

  predicate Of(f: Option<FrameV>, t: uint32) {
    f.Some? && f.value.queue != [] && f.value.queue[0].ts == t
  }

  /** The packets are, in some order, the last ones of `ps`. */
  ghost predicate Tail(a: seq<Pack>, ps: seq<Pack>) {
    |a| <= |ps| && multiset(a) == multiset(ps[|ps| - |a|..])
  }

  /** None of the first `n` prefixes is a tail. */
  ghost predicate NoTail(mine: seq<Pack>, ps: seq<Pack>, n: nat)
    requires n <= |mine|
  {
    forall m :: 0 < m <= n ==> !Tail(mine[..m], ps)
  }

  /** `m` packets are the shortest prefix that is a tail. */
  ghost predicate FirstTail(mine: seq<Pack>, ps: seq<Pack>, m: nat) {
    0 < m <= |mine| && Tail(mine[..m], ps) && NoTail(mine, ps, m - 1)
  }

  /** The packets of a frame: numbered without a wrap, the marker on the last one alone. */
  ghost predicate AsSent(ps: seq<Pack>) {
    && ps != [] && Numbered(ps)
    && forall i :: 0 <= i < |ps| ==> (ps[i].marker <==> i == |ps| - 1)
  }

  ghost predicate AllOf(mine: seq<Pack>, ps: seq<Pack>) {
    forall x :: x in mine ==> x in ps
  }

  ghost predicate HasMarker(mine: seq<Pack>) {
    exists x :: x in mine && x.marker
  }

  lemma InsertAllMembers(mine: seq<Pack>)
    ensures forall x :: x in InsertAll(mine) <==> x in mine
    ensures |InsertAll(mine)| == |mine|
  {
    InsertAllSame(mine);
    var q := InsertAll(mine);
    SameSize(q, mine);
    forall x
      ensures x in q <==> x in mine
    {
      assert x in multiset(q) <==> x in multiset(mine);
    }
  }

  lemma NumberedTail(ps: seq<Pack>, n: nat)
    requires Numbered(ps) && n <= |ps|
    ensures Numbered(ps[n..])
  {
  }

  /** A tail is sorted into place, and the frame it makes looks whole. */
  lemma TailIsWhole(mine: seq<Pack>, ps: seq<Pack>)
    requires AsSent(ps) && mine != [] && Tail(mine, ps)
    ensures InsertAll(mine) == ps[|ps| - |mine|..] && HasMarker(mine) && Consecutive(InsertAll(mine))
  {
    var n := |ps| - |mine|;
    NumberedTail(ps, n);
    AnyOrder(mine, ps[n..]);
    NumberedConsecutive(ps[n..]);
    var end := ps[|ps| - 1];
    assert ps[n..][|mine| - 1] == end;
    assert end in multiset(ps[n..]);
  }

  /** The place of a packet among those sent follows from its number. */
  lemma PlaceOf(ps: seq<Pack>, x: Pack) returns (j: nat)
    requires Numbered(ps) && x in ps
    ensures j < |ps| && ps[j] == x && x.seqNo == ps[0].seqNo + j
  {
    j :| j < |ps| && ps[j] == x;
  }

  lemma EndsWithMarker(q: seq<Pack>, ps: seq<Pack>)
    requires AsSent(ps) && q != [] && AllOf(q, ps) && Sorted(q) && HasMarker(q)
    ensures q[|q| - 1].seqNo == ps[|ps| - 1].seqNo
  {
    var x :| x in q && x.marker;
    var i :| 0 <= i < |q| && q[i] == x;
    var j := PlaceOf(ps, x);
    assert ps[|ps| - 1].seqNo == ps[0].seqNo + (|ps| - 1);
    assert q[|q| - 1] in q;
    var l := PlaceOf(ps, q[|q| - 1]);
  }

  /** Packets that look whole are a tail. */
  lemma WholeIsTail(mine: seq<Pack>, ps: seq<Pack>)
    requires AsSent(ps) && mine != [] && AllOf(mine, ps)
    requires HasMarker(mine) && Consecutive(InsertAll(mine))
    ensures Tail(mine, ps)
  {
    hide InsertAll, Consecutive, Tail;
    var q := InsertAll(mine);
    InsertAllSame(mine);
    InsertAllSorted(mine);
    InsertAllMembers(mine);
    EndsWithMarker(q, ps);
    NoWrap(q, |q| - 1);
    assert q[0] in q;
    var first := PlaceOf(ps, q[0]);
    assert ps[|ps| - 1].seqNo == ps[0].seqNo + (|ps| - 1);
    forall i | 0 <= i < |q|
      ensures q[i] == ps[first + i]
    {
      NoWrap(q, i);
      assert q[i] in q;
      var j := PlaceOf(ps, q[i]);
    }
    assert q == ps[first..];
    TailOf(mine, ps);
  }

  lemma TailOf(mine: seq<Pack>, ps: seq<Pack>)
    requires |mine| <= |ps| && multiset(mine) == multiset(ps[|ps| - |mine|..])
    ensures Tail(mine, ps)
  {
  }

  /** While no prefix of the packets of the earliest frame is a tail, they gather, whatever else arrives. */
  ghost predicate Building(fs: Frames, t: uint32, payloadType: nat, mine: seq<Pack>) {
    && (forall k :: k in fs ==> t <= k)
    && (t in fs <==> mine != [])
    && (mine != [] ==> fs[t] == FrameV(HasMarker(mine), payloadType, InsertAll(mine)))
  }

  lemma MarkerSnoc(mine: seq<Pack>, p: Pack)
    ensures HasMarker(mine + [p]) <==> HasMarker(mine) || p.marker
    ensures !HasMarker([])
  {
    var more := mine + [p];
    if HasMarker(mine) {
      var x :| x in mine && x.marker;
      assert x in more;
    }
    if p.marker {
      assert p in more;
    }
  }

  /** A packet of the earliest frame is filed, and the frame is looked at. */
  lemma OwnArrives(fs: Frames, max: nat, t: uint32, payloadType: nat, mine: seq<Pack>, p: Pack)
    requires Within(fs, max) && Building(fs, t, payloadType, mine) && p.ts == t
    requires p.ts in fs || |fs| < max
    ensures var s := Arrive(fs, max, p, payloadType);
      var all := mine + [p];
      if HasMarker(all) && Consecutive(InsertAll(all)) then s.finished == Some(FrameV(true, payloadType, InsertAll(all)))
      else s.finished == None && Building(s.frames, t, payloadType, all)
  {
    hide Insert, Consecutive, HasMarker;
    InsertAllSnoc(mine, p);
    MarkerSnoc(mine, p);
    NoneInserted();
    var gs := Placed(fs, p, payloadType);
    assert Least(gs) == t;
  }

  lemma InsertOf(mine: seq<Pack>, t: uint32)
    requires mine != [] && forall x :: x in mine ==> x.ts == t
    ensures InsertAll(mine) != [] && InsertAll(mine)[0].ts == t
  {
    InsertAllMembers(mine);
    assert InsertAll(mine)[0] in InsertAll(mine);
  }

  /** A packet of a later frame changes nothing about the earliest, as long as that is not whole. */
  lemma OtherArrives(fs: Frames, max: nat, t: uint32, payloadType: nat, mine: seq<Pack>, p: Pack, other: nat)
    requires Within(fs, max) && Good(fs) && Building(fs, t, payloadType, mine) && p.ts > t
    requires p.ts in fs || |fs| < max
    requires mine != [] ==> !(HasMarker(mine) && Consecutive(InsertAll(mine)))
    ensures var s := Arrive(fs, max, p, other);
      !Of(s.finished, t) && Building(s.frames, t, payloadType, mine)
  {
    hide Insert, Consecutive, InsertAll, GoodFrame, HasMarker;
    var gs := Placed(fs, p, other);
    PlacedGood(fs, p, other);
    var k := Least(gs);
    if mine != [] {
      assert t in gs && gs[t] == fs[t];
      assert k == t;
    } else {
      GoodTs(k, gs[k]);
    }
  }

  lemma GoodTs(k: uint32, f: FrameV)
    requires GoodFrame(k, f)
    ensures f.queue != [] && f.queue[0].ts == k
  {
    assert f.queue[0] in f.queue;
  }

  /** Arrivals while timestamp `t` is the earliest: packets of `ps`, and any packets of later timestamps. */
  ghost predicate Mixed(fs: Frames, xs: seq<Arrival>, t: uint32, payloadType: nat, ps: seq<Pack>) {
    && (forall k :: k in fs ==> t < k)
    && (forall n :: 0 <= n < |xs| ==> xs[n].p.ts >= t)
    && (forall n :: 0 <= n < |xs| && xs[n].p.ts == t ==> xs[n].p in ps && xs[n].payloadType == payloadType)
  }

  lemma {:induction false} MineOf(fs: Frames, xs: seq<Arrival>, t: uint32, payloadType: nat, ps: seq<Pack>)
    requires Mixed(fs, xs, t, payloadType, ps)
    ensures AllOf(Mine(xs, t), ps) && forall x :: x in Mine(xs, t) ==> x.ts == t
  {
    if xs != [] {
      MineOf(fs, xs[..|xs| - 1], t, payloadType, ps);
    }
  }

  lemma {:induction false} RunGood(fs: Frames, max: nat, xs: seq<Arrival>)
    requires Within(fs, max) && Good(fs)
    ensures Good(RunFrames(fs, max, xs))
  {
    hide Arrive, Good;
    if xs != [] {
      var x := xs[|xs| - 1];
      RunGood(fs, max, xs[..|xs| - 1]);
      ArriveGood(RunFrames(fs, max, xs[..|xs| - 1]), max, x.p, x.payloadType);
    }
  }

  lemma NoTailFront(mine: seq<Pack>, ps: seq<Pack>, p: Pack, n: nat)
    requires n <= |mine|
    ensures NoTail(mine + [p], ps, n) <==> NoTail(mine, ps, n)
  {
    forall m | 0 < m <= n
      ensures (mine + [p])[..m] == mine[..m]
    {
    }
  }

  lemma FirstTailFront(mine: seq<Pack>, ps: seq<Pack>, p: Pack, m: nat)
    requires FirstTail(mine + [p], ps, m)
    ensures if m <= |mine| then FirstTail(mine, ps, m) else NoTail(mine, ps, |mine|) && Tail(mine + [p], ps)
  {
    hide Tail;
    NoTailFront(mine, ps, p, m - 1);
    if m <= |mine| {
      assert (mine + [p])[..m] == mine[..m];
    } else {
      assert (mine + [p])[..m] == mine + [p];
    }
  }

  lemma TailNone(mine: seq<Pack>, ps: seq<Pack>)
    requires mine != [] && NoTail(mine, ps, |mine|)
    ensures !Tail(mine, ps)
  {
    assert mine[..|mine|] == mine;
  }

  /** What the run has come to: the frame gathers, or its first tail has been handed over. */
  ghost predicate Outcome(first: Option<FrameV>, fs: Frames, t: uint32, payloadType: nat, mine: seq<Pack>, ps: seq<Pack>)
    requires ps != []
  {
    && (NoTail(mine, ps, |mine|) ==> first == None && Building(fs, t, payloadType, mine))
    && (forall m: nat :: FirstTail(mine, ps, m) ==> m <= |ps| && first == Some(FrameV(true, payloadType, ps[|ps| - m..])))
  }

  lemma {:induction false} SomeTail(mine: seq<Pack>, ps: seq<Pack>, n: nat) returns (m: nat)
    requires n <= |mine| && !NoTail(mine, ps, n)
    ensures m <= n && FirstTail(mine, ps, m)
  {
    hide Tail;
    if !NoTail(mine, ps, n - 1) {
      m := SomeTail(mine, ps, n - 1);
    } else {
      m := n;
    }
  }

  lemma OutcomeOwn(fs: Frames, max: nat, t: uint32, payloadType: nat, mine: seq<Pack>, p: Pack, ps: seq<Pack>)
    requires Within(fs, max) && AsSent(ps) && AllOf(mine + [p], ps) && forall x :: x in mine + [p] ==> x.ts == t
    requires Building(fs, t, payloadType, mine) && NoTail(mine, ps, |mine|)
    requires p.ts == t && (p.ts in fs || |fs| < max)
    ensures var s := Arrive(fs, max, p, payloadType);
      Outcome(if Of(s.finished, t) then s.finished else None, s.frames, t, payloadType, mine + [p], ps)
  {
    hide InsertAll, Building, AsSent, Arrive, Tail, HasMarker, Consecutive, AllOf;
    var all := mine + [p];
    assert p in all;
    OwnArrives(fs, max, t, payloadType, mine, p);
    InsertOf(all, t);
    if HasMarker(all) && Consecutive(InsertAll(all)) {
      WholeIsTail(all, ps);
    }
    if Tail(all, ps) {
      TailIsWhole(all, ps);
      TailFits(all, ps);
    }
    forall m | FirstTail(all, ps, m)
      ensures m == |all| && Tail(all, ps)
    {
      FirstTailFront(mine, ps, p, m);
    }
    NoTailFront(mine, ps, p, |mine|);
    assert all[..|all|] == all;
  }

  lemma TailFits(mine: seq<Pack>, ps: seq<Pack>)
    requires Tail(mine, ps)
    ensures |mine| <= |ps|
  {
  }

  /** One arrival more. */
  lemma OutcomeStep(fs: Frames, max: nat, t: uint32, payloadType: nat, mine: seq<Pack>, x: Arrival, ps: seq<Pack>,
                    first: Option<FrameV>)
    requires Within(fs, max) && Good(fs) && AsSent(ps) && Outcome(first, fs, t, payloadType, mine, ps)
    requires x.p.ts in fs || |fs| < max
    requires AllOf(mine, ps) && forall y :: y in mine ==> y.ts == t
    requires x.p.ts == t ==> x.p in ps && x.payloadType == payloadType
    requires x.p.ts >= t
    ensures var s := Arrive(fs, max, x.p, x.payloadType);
      Outcome(if first.Some? then first else if Of(s.finished, t) then s.finished else None,
              s.frames, t, payloadType, if x.p.ts == t then mine + [x.p] else mine, ps)
  {
    hide Building, Arrive, Good, AsSent, Tail, InsertAll, HasMarker, Consecutive, Of;
    if !NoTail(mine, ps, |mine|) {
      var m := SomeTail(mine, ps, |mine|);
      Kept(mine, x.p, ps, m);
    } else if x.p.ts == t {
      OutcomeOwn(fs, max, t, payloadType, mine, x.p, ps);
    } else {
      NotWhole(mine, ps);
      OtherArrives(fs, max, t, payloadType, mine, x.p, x.payloadType);
    }
  }

  lemma {:induction false} OutcomeRun(fs: Frames, max: nat, xs: seq<Arrival>, t: uint32, payloadType: nat, ps: seq<Pack>)
    requires Within(fs, max) && Good(fs) && NeverFull(fs, max, xs) && Mixed(fs, xs, t, payloadType, ps) && AsSent(ps)
    ensures Outcome(First(fs, max, xs, t), RunFrames(fs, max, xs), t, payloadType, Mine(xs, t), ps)
  {
    hide Building, NeverFull, Arrive, HasRoom, Good, AsSent, AllOf, FirstTail, NoTail, Of;
    SentSome(ps);
    if xs == [] {
      NothingBuilt(fs, t, payloadType, ps);
    } else {
      var n := |xs| - 1;
      var front := xs[..n];
      NeverFullFront(fs, max, xs);
      Room(fs, max, xs, n);
      RunGood(fs, max, front);
      MineOf(fs, front, t, payloadType, ps);
      OutcomeRun(fs, max, front, t, payloadType, ps);
      OutcomeStep(RunFrames(fs, max, front), max, t, payloadType, Mine(front, t), xs[n], ps, First(fs, max, front, t));
    }
  }

  lemma NothingBuilt(fs: Frames, t: uint32, payloadType: nat, ps: seq<Pack>)
    requires ps != [] && forall k :: k in fs ==> t < k
    ensures Outcome(None, fs, t, payloadType, [], ps)
  {
  }

  lemma NotWhole(mine: seq<Pack>, ps: seq<Pack>)
    requires AsSent(ps) && AllOf(mine, ps) && NoTail(mine, ps, |mine|)
    ensures mine != [] ==> !(HasMarker(mine) && Consecutive(InsertAll(mine)))
  {
    hide InsertAll, AsSent, Tail, HasMarker, Consecutive, AllOf;
    if mine != [] && HasMarker(mine) && Consecutive(InsertAll(mine)) {
      WholeIsTail(mine, ps);
      TailNone(mine, ps);
    }
  }

  /** A first tail stays the first one when more packets come. */
  lemma Kept(mine: seq<Pack>, p: Pack, ps: seq<Pack>, m: nat)
    requires FirstTail(mine, ps, m)
    ensures forall l: nat :: FirstTail(mine, ps, l) <==> l == m
    ensures forall l: nat :: FirstTail(mine + [p], ps, l) <==> l == m
    ensures !NoTail(mine + [p], ps, |mine + [p]|)
  {
    hide Tail;
    var more := mine + [p];
    assert more[..m] == mine[..m];
    NoTailFront(mine, ps, p, m - 1);
    assert FirstTail(more, ps, m);
  }

  /** For packets in any order, between any packets of later frames: what is handed over first is the
      shortest run of arrivals that is, in some order, an end of the frame, and it is that end in order;
      nothing is handed over before. */
  lemma FirstIs(fs: Frames, max: nat, xs: seq<Arrival>, t: uint32, payloadType: nat, ps: seq<Pack>, m: nat)
    requires Within(fs, max) && Good(fs) && NeverFull(fs, max, xs) && Mixed(fs, xs, t, payloadType, ps) && AsSent(ps)
    ensures FirstTail(Mine(xs, t), ps, m) ==>
      m <= |ps| && First(fs, max, xs, t) == Some(FrameV(true, payloadType, ps[|ps| - m..]))
    ensures NoTail(Mine(xs, t), ps, |Mine(xs, t)|) ==> First(fs, max, xs, t) == None
  {
    hide Arrive, Good, AsSent, NeverFull, Mixed, Building, NoTail;
    OutcomeRun(fs, max, xs, t, payloadType, ps);
  }

  /** When each packet of the frame arrives once, the frame is handed over whole exactly when no shorter
      run of arrivals is an end of it. */
  lemma HandedOverWhole(fs: Frames, max: nat, xs: seq<Arrival>, t: uint32, payloadType: nat, ps: seq<Pack>)
    requires Within(fs, max) && Good(fs) && NeverFull(fs, max, xs) && Mixed(fs, xs, t, payloadType, ps) && AsSent(ps)
    requires multiset(Mine(xs, t)) == multiset(ps)
    ensures First(fs, max, xs, t) == Some(FrameV(true, payloadType, ps)) <==>
      forall m :: 0 < m < |Mine(xs, t)| ==> !Tail(Mine(xs, t)[..m], ps)
  {
    hide Arrive, Good, AsSent, NeverFull, Mixed;
    var mine := Mine(xs, t);
    var n := |ps|;
    SameSize(mine, ps);
    assert mine[..n] == mine && ps[0..] == ps;
    assert Tail(mine[..n], ps);
    SentSome(ps);
    assert !NoTail(mine, ps, n);
    var m := SomeTail(mine, ps, n);
    FirstIs(fs, max, xs, t, payloadType, ps, m);
    assert m < n ==> |ps[n - m..]| == m != |ps|;
  }

  lemma SentSome(ps: seq<Pack>)
    requires AsSent(ps)
    ensures ps != []
  {
  }

  /** A frame of two packets that arrive the wrong way round is handed over without its first one. */
  lemma CutShort(first: Pack, second: Pack)
    requires AsSent([first, second]) && first.ts == second.ts
    ensures First(map[], 5, [Arrival(second, 96), Arrival(first, 96)], first.ts) == Some(FrameV(true, 96, [second]))
  {
    var ps := [first, second];
    var xs := [Arrival(second, 96), Arrival(first, 96)];
    assert xs[..1] == [Arrival(second, 96)];
    assert Mine(xs[..1], first.ts) == [second] by {
      assert xs[..1][..0] == [];
    }
    var mine := Mine(xs, first.ts);
    assert mine == [second, first];
    assert mine[..1] == [second] == ps[1..];
    assert FirstTail(mine, ps, 1);
    SecondHasRoom(xs);
    FirstIs(map[], 5, xs, first.ts, 96, ps, 1);
  }

  /** A single packet in an empty cache takes one frame at most. */
  lemma OneFrame(x: Arrival)
    ensures |Arrive(map[], 5, x.p, x.payloadType).frames| <= 1
  {
    hide Placed, Consecutive;
    var gs := Placed(map[], x.p, x.payloadType);
    PlacedSize(map[], x.p, x.payloadType);
    RemovedSize(gs, Least(gs));
  }

  lemma SecondHasRoom(xs: seq<Arrival>)
    requires |xs| == 2
    ensures NeverFull(map[], 5, xs)
  {
    hide Arrive;
    assert xs[..0] == [];
    var front := xs[..1];
    assert front[..0] == [];
    OneFrame(front[0]);
    assert HasRoom(map[], 5, xs, 0) && HasRoom(map[], 5, xs, 1);
  }

  // ---- Sequence numbers that wrap ----

  /** A frame that holds the numbers 65535 and 0 is handed over only with all the numbers there are. */
  lemma WrapNotWhole(fs: Frames, max: nat, p: Pack, payloadType: nat, last: Pack, first: Pack)
    requires max > 0 && |fs| <= max && Good(fs) && last.seqNo == 0xFFFF && first.seqNo == 0
    ensures var s := Arrive(fs, max, p, payloadType);
      s.finished.Some? && last in s.finished.value.queue && first in s.finished.value.queue ==>
        |s.finished.value.queue| == 0x1_0000
  {
    hide Arrive, Good;
    FinishedIs(fs, max, p, payloadType);
    var s := Arrive(fs, max, p, payloadType);
    if s.finished.Some? && last in s.finished.value.queue && first in s.finished.value.queue {
      var q := s.finished.value.queue;
      var i :| 0 <= i < |q| && q[i] == last;
      var j :| 0 <= j < |q| && q[j] == first;
      assert q[i].seqNo == q[0].seqNo + i && q[j].seqNo == q[0].seqNo + j;
      assert q[|q| - 1].seqNo == q[0].seqNo + (|q| - 1);
    }
  }

  /** A frame of two packets numbered 65535 and 0, which arrive in this order: it is not handed over. */
  lemma WrapStuck(first: Pack, second: Pack)
    requires first.seqNo == 0xFFFF && second.seqNo == 0 && first.ts == second.ts && !first.marker && second.marker
    ensures First(map[], 5, [Arrival(first, 96), Arrival(second, 96)], first.ts) == None
  {
    hide Arrive, Good, InsertAll, Consecutive;
    var xs, t := [Arrival(first, 96), Arrival(second, 96)], first.ts;
    var front := xs[..1];
    assert xs[..1] == [Arrival(first, 96)] && front[..0] == [] && [first][..0] == [] && [] + [first] == [first];
    MarkerSnoc([], first);
    OwnArrives(map[], 5, t, 96, [], first);
    OneFrame(front[0]);
    assert RunFrames(map[], 5, front) == Arrive(map[], 5, first, 96).frames;
    assert First(map[], 5, front, t) == None;
    SortedPair(first, second);
    OwnArrives(RunFrames(map[], 5, front), 5, t, 96, [first], second);
  }

  lemma SortedPair(first: Pack, second: Pack)
    requires first.seqNo == 0xFFFF && second.seqNo == 0
    ensures InsertAll([first] + [second]) == [second, first] && !Consecutive(InsertAll([first] + [second]))
  {
    NoneInserted();
    InsertAllSnoc([], first);
    InsertAllSnoc([first], second);
    assert [] + [first] == [first];
    assert Slot([first], second) == 0;
    var q := [second, first];
    assert InsertAll([first] + [second]) == q;
    assert q[1].seqNo != (q[0].seqNo + 1) % 0x1_0000;
  }
}
