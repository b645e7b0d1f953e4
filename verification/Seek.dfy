/** Seeking by time: a binary search, then a look at both neighbours. */
module Seek {
  import opened Bytes
  import opened SampleTables
  import opened TrackReader

  /** The distance. */
  function Diff(a: int, b: int): (n: nat)
    ensures n == a - b || n == b - a
  {
    if a > b then a - b else b - a
  }

  ghost predicate DtsSorted(ms: seq<Media>, n: nat) {
    n <= |ms| && forall i, j :: 0 <= i <= j < n ==> ms[i].dts <= ms[j].dts
  }

  /** Sample `best` is decoded as near to `clock` as any other. */
  ghost predicate Nearest(ms: seq<Media>, n: nat, clock: int, best: nat) {
    && best < n <= |ms|
    && forall k :: 0 <= k < n ==> Diff(ms[best].dts, clock) <= Diff(ms[k].dts, clock)
  }

  /** The same among the sync samples; their numbers start from 1. */
  ghost predicate NearestSync(ms: seq<Media>, n: nat, stss: seq<nat>, clock: int, best: nat) {
    && best < n <= |ms| && best + 1 in stss
    && forall k :: k in stss && 1 <= k <= n ==> Diff(ms[best].dts, clock) <= Diff(ms[k - 1].dts, clock)
  }

  // ---- The search, on the decode times alone ----

  ghost predicate Sorted(ds: seq<int>) {
    forall i, j :: 0 <= i <= j < |ds| ==> ds[i] <= ds[j]
  }

  /** Everything before `start` is early, everything from `end` on is late; `mid` was looked at last. */
  ghost predicate Searching(ds: seq<int>, clock: int, start: int, end: int, mid: int) {
    && 0 <= start <= end <= |ds| && 0 <= mid < |ds|
    && (mid == start - 1 || mid == end || (start == 0 && end == |ds|))
    && (forall k :: 0 <= k < start ==> ds[k] < clock)
    && (forall k :: end <= k < |ds| ==> ds[k] > clock)
  }

  lemma SearchStep(ds: seq<int>, clock: int, start: int, end: int, mid: int)
    requires Sorted(ds) && Searching(ds, clock, start, end, mid) && start < end
    ensures var m := (start + end) / 2;
      && (ds[m] > clock ==> Searching(ds, clock, start, m, m))
      && (ds[m] < clock ==> Searching(ds, clock, m + 1, end, m))
  {
  }

  /** The last probe or one of its neighbours, whichever is nearest. */
  function Pick(ds: seq<int>, clock: int, mid: nat): (best: nat)
    requires mid < |ds|
    ensures best < |ds|
  {
    var prev := if mid > 0 then mid - 1 else mid;
    var next := if mid + 1 < |ds| then mid + 1 else mid;
    var m := if Diff(ds[prev], clock) < Diff(ds[mid], clock) then prev else mid;
    if Diff(ds[next], clock) < Diff(ds[m], clock) then next else m
  }

  /** However the search ends, the pick is the nearest of all. */
  lemma PickNearest(ds: seq<int>, clock: int, start: int, end: int, mid: int, k: nat)
    requires Sorted(ds) && 0 <= mid < |ds| && k < |ds|
    requires ds[mid] == clock || (Searching(ds, clock, start, end, mid) && start == end)
    ensures Diff(ds[Pick(ds, clock, mid)], clock) <= Diff(ds[k], clock)
  {
    if ds[mid] != clock {
      if k < start {
        assert ds[k] <= ds[start - 1];
      } else {
        assert ds[start] <= ds[k];
      }
    }
  }

  function DtsOf(ms: seq<Media>): (ds: seq<int>)
    ensures |ds| == |ms|
  {
    seq(|ms|, i requires 0 <= i < |ms| => ms[i].dts)
  }

  /** Where a finished search leaves its last probe. */
  ghost predicate Probed(ds: seq<int>, clock: int, mid: int) {
    && 0 <= mid < |ds|
    && (ds[mid] == clock || exists s :: Searching(ds, clock, s, s, mid))
  }

  method ProbeSamples(t: Stream, clock: int) returns (mid: nat)
    requires t.Valid() && DtsSorted(t.samples, t.count) && t.count > 0
    ensures Probed(DtsOf(t.samples[..t.count]), clock, mid)
  {
    hide Searching, Sorted, DtsSorted;
    var start, end := 0, t.count;
    mid := 0;
    ghost var ds := DtsOf(t.samples[..t.count]);
    Begin(ds, clock);
    DtsOfSorted(t.samples, t.count);
    while start < end
      invariant 0 <= start <= end <= t.count && mid < t.count && Searching(ds, clock, start, end, mid)
    {
      SearchStep(ds, clock, start, end, mid);
      mid := (start + end) / 2;
      if t.samples[mid].dts > clock {
        end := mid;
      } else if t.samples[mid].dts < clock {
        start := mid + 1;
      } else {
        return;
      }
    }
  }

  method SampleSeek(t: Stream, timestamp: int, timescale: uint32) returns (r: int)
    requires t.Valid() && DtsSorted(t.samples, t.count)
    modifies t`next
    ensures t.count == 0 ==> r == -1 && t.next == old(t.next)
    ensures t.count > 0 ==> r == 0 && Nearest(t.samples, t.count, Quotient(timestamp * timescale, 1000), t.next)
  {
    hide Diff, Probed, Pick, Quotient, DtsSorted;
    if t.count < 1 {
      return -1;
    }
    var clock := Quotient(timestamp * timescale, 1000);
    var mid := ProbeSamples(t, clock);
    ghost var ds := DtsOf(t.samples[..t.count]);
    DtsOfSorted(t.samples, t.count);
    PickBest(ds, clock, mid);
    PickIs(ds, clock, mid);
    var prev := if mid > 0 then mid - 1 else mid;
    var next := if mid + 1 < t.count then mid + 1 else mid;
    if Diff(t.samples[prev].dts, clock) < Diff(t.samples[mid].dts, clock) {
      mid := prev;
    }
    if Diff(t.samples[next].dts, clock) < Diff(t.samples[mid].dts, clock) {
      mid := next;
    }
    t.next := mid;
    BestIsNearest(t.samples, t.count, clock, mid);
    r := 0;
  }

  lemma BestIsNearest(ms: seq<Media>, n: nat, clock: int, best: nat)
    requires best < n <= |ms| && Best(DtsOf(ms[..n]), clock, best)
    ensures Nearest(ms, n, clock, best)
  {
    var ds := DtsOf(ms[..n]);
    forall k | 0 <= k < n
      ensures Diff(ms[best].dts, clock) <= Diff(ms[k].dts, clock)
    {
      assert ds[best] == ms[best].dts && ds[k] == ms[k].dts;
    }
  }

  ghost predicate Best(ds: seq<int>, clock: int, best: nat) {
    best < |ds| && forall k :: 0 <= k < |ds| ==> Diff(ds[best], clock) <= Diff(ds[k], clock)
  }

  lemma PickBest(ds: seq<int>, clock: int, mid: nat)
    requires Sorted(ds) && Probed(ds, clock, mid)
    ensures mid < |ds| && Best(ds, clock, Pick(ds, clock, mid))
  {
    hide Pick, Diff, Searching, Sorted;
    forall k | 0 <= k < |ds|
      ensures Diff(ds[Pick(ds, clock, mid)], clock) <= Diff(ds[k], clock)
    {
      if ds[mid] == clock {
        PickNearest(ds, clock, 0, 0, mid, k);
      } else {
        var s :| Searching(ds, clock, s, s, mid);
        PickNearest(ds, clock, s, s, mid, k);
      }
    }
  }

  lemma Begin(ds: seq<int>, clock: int)
    requires ds != []
    ensures Searching(ds, clock, 0, |ds|, 0)
  {
  }

  lemma PickIs(ds: seq<int>, clock: int, mid: nat)
    requires mid < |ds|
    ensures var prev := if mid > 0 then mid - 1 else mid;
      var next := if mid + 1 < |ds| then mid + 1 else mid;
      var m := if Diff(ds[prev], clock) < Diff(ds[mid], clock) then prev else mid;
      Pick(ds, clock, mid) == if Diff(ds[next], clock) < Diff(ds[m], clock) then next else m
  {
    hide Diff;
  }

  lemma DtsOfSorted(ms: seq<Media>, n: nat)
    requires DtsSorted(ms, n)
    ensures Sorted(DtsOf(ms[..n]))
  {
  }

  /** The sync sample table lists existing samples in order. */
  ghost predicate SyncSorted(stss: seq<nat>, n: nat) {
    && (forall i :: 0 <= i < |stss| ==> 1 <= stss[i] <= n)
    && (forall i, j :: 0 <= i < j < |stss| ==> stss[i] < stss[j])
  }

  ghost function SyncDts(ms: seq<Media>, n: nat, stss: seq<nat>): (ds: seq<int>)
    requires n <= |ms| && SyncSorted(stss, n)
    ensures |ds| == |stss|
  {
    seq(|stss|, i requires 0 <= i < |stss| => ms[stss[i] - 1].dts)
  }

  lemma SyncDtsSorted(ms: seq<Media>, n: nat, stss: seq<nat>)
    requires DtsSorted(ms, n) && SyncSorted(stss, n)
    ensures Sorted(SyncDts(ms, n, stss))
  {
    var ds := SyncDts(ms, n, stss);
    forall i, j | 0 <= i <= j < |ds|
      ensures ds[i] <= ds[j]
    {
      if i < j {
        assert stss[i] < stss[j];
      }
    }
  }

  method ProbeSync(t: Stream, clock: int) returns (r: int, mid: nat)
    requires t.Valid() && DtsSorted(t.samples, t.count) && SyncSorted(t.stss, t.count) && t.stss != []
    ensures r == 0 && Probed(SyncDts(t.samples, t.count, t.stss), clock, mid)
  {
    hide Searching, Sorted, DtsSorted;
    var start, end := 0, |t.stss|;
    mid := 0;
    ghost var ds := SyncDts(t.samples, t.count, t.stss);
    Begin(ds, clock);
    SyncDtsSorted(t.samples, t.count, t.stss);
    while start < end
      invariant 0 <= start <= end <= |t.stss| && mid < |t.stss| && Searching(ds, clock, start, end, mid)
    {
      SearchStep(ds, clock, start, end, mid);
      mid := (start + end) / 2;
      var idx := t.stss[mid];
      if idx < 1 || idx > t.count {
        return -1, mid;
      }
      if t.samples[idx - 1].dts > clock {
        end := mid;
      } else if t.samples[idx - 1].dts < clock {
        start := mid + 1;
      } else {
        return 0, mid;
      }
    }
    r := 0;
  }

  method StssSeek(t: Stream, timestamp: int, timescale: uint32) returns (r: int, time: int)
    requires t.Valid() && DtsSorted(t.samples, t.count) && SyncSorted(t.stss, t.count) && t.stss != []
    requires timescale > 0
    modifies t`next
    ensures r == 0 && NearestSync(t.samples, t.count, t.stss, Quotient(timestamp * timescale, 1000), t.next)
    ensures time == Quotient(t.samples[t.next].dts * 1000, timescale)
  {
    hide Diff, Probed, Pick, Quotient, DtsSorted;
    var clock := Quotient(timestamp * timescale, 1000);
    var mid: nat;
    r, mid := ProbeSync(t, clock);
    if r != 0 {
      return r, timestamp;
    }
    ghost var ds := SyncDts(t.samples, t.count, t.stss);
    SyncDtsSorted(t.samples, t.count, t.stss);
    PickBest(ds, clock, mid);
    PickIs(ds, clock, mid);
    var idx := t.stss[mid] - 1;
    var prev := t.stss[if mid > 0 then mid - 1 else mid] - 1;
    var next := t.stss[if mid + 1 < |t.stss| then mid + 1 else mid] - 1;
    if Diff(t.samples[prev].dts, clock) < Diff(t.samples[idx].dts, clock) {
      idx := prev;
    }
    if Diff(t.samples[next].dts, clock) < Diff(t.samples[idx].dts, clock) {
      idx := next;
    }
    assert idx == t.stss[Pick(ds, clock, mid)] - 1;
    BestSync(t.samples, t.count, t.stss, clock, Pick(ds, clock, mid));
    time := Quotient(t.samples[idx].dts * 1000, timescale);
    t.next := idx;
  }

  lemma BestSync(ms: seq<Media>, n: nat, stss: seq<nat>, clock: int, i: nat)
    requires n <= |ms| && SyncSorted(stss, n) && i < |stss| && Best(SyncDts(ms, n, stss), clock, i)
    ensures NearestSync(ms, n, stss, clock, stss[i] - 1)
  {
    hide Diff;
    var ds := SyncDts(ms, n, stss);
    forall k | k in stss && 1 <= k <= n
      ensures Diff(ms[stss[i] - 1].dts, clock) <= Diff(ms[k - 1].dts, clock)
    {
      var j :| 0 <= j < |stss| && stss[j] == k;
      assert ds[j] == ms[k - 1].dts && ds[i] == ms[stss[i] - 1].dts;
    }
  }
}
