/** Whole runs of the fragmented writer, as lists of the calls that EndToEnd has for the other one: with one
    video track, fragment follows fragment without a gap or an overlap. */
module FragmentRuns {
  import opened Bytes
  import opened IoUtil
  import opened SampleTables
  import opened TrackBoxes
  import opened FragmentBoxes
  import opened FragmentWriters
  import opened Fmp4Writer
  import opened FragmentEnd
  import opened EndToEnd

  /** The samples that the calls write to track `i`, from when it has been added. */
  function SamplesPut(calls: seq<Call>, i: nat): seq<Sent> {
    if calls == [] then [] else
      var front, c := calls[..|calls| - 1], calls[|calls| - 1];
      if c.Put? && c.track == i < |TracksAdded(front)| then SamplesPut(front, i) + [SentBy(c)] else SamplesPut(front, i)
  }

  function SentBy(c: Call): Sent
    requires c.Put?
  {
    Sent(c.flags, c.pts, c.dts, c.data)
  }

  lemma CallsSnoc(front: seq<Call>, c: Call)
    ensures TracksAdded(front + [c]) == if c.Add? then TracksAdded(front) + [c.header] else TracksAdded(front)
    ensures forall i: nat ::
      SamplesPut(front + [c], i)
      == (if c.Put? && c.track == i < |TracksAdded(front)| then SamplesPut(front, i) + [SentBy(c)] else SamplesPut(front, i))
  {
    assert (front + [c])[..|front|] == front;
  }

  /** What the caller sees to: no track but `i` has video, and its decode times never go back, and go on by
      32 bits at most. */
  ghost predicate GoodCalls(calls: seq<Call>, i: nat) {
    && |calls| < UINT32_MAX - 1 && Steady(SamplesPut(calls, i))
    && (forall k :: 0 <= k < |TracksAdded(calls)| && TracksAdded(calls)[k].handler == Video ==> k == i)
    && forall k :: 0 <= k < |calls| && calls[k].Put? ==> |calls[k].data| <= UINT32_MAX && calls[k].dts > INT64_MIN
  }

  /** A step that is good in a log that has one sample more is good. */
  lemma SteadyFront(log: seq<Sent>, s: Sent)
    requires Steady(log + [s])
    ensures Steady(log) && (log != [] ==> 0 <= s.dts - log[|log| - 1].dts <= UINT32_MAX)
  {
    var more := log + [s];
    forall x | 0 <= x < |log| - 1
      ensures 0 <= log[x + 1].dts - log[x].dts <= UINT32_MAX
    {
      assert more[x] == log[x] && more[x + 1] == log[x + 1];
    }
    if log != [] {
      assert more[|log| - 1] == log[|log| - 1] && more[|log| - 1 + 1] == s;
    }
  }

  lemma GoodFront(front: seq<Call>, c: Call, i: nat)
    requires GoodCalls(front + [c], i)
    ensures GoodCalls(front, i)
    ensures c.Put? ==> |c.data| <= UINT32_MAX && c.dts > INT64_MIN
    ensures c.Put? && c.track == i < |TracksAdded(front)| && SamplesPut(front, i) != [] ==>
      var log := SamplesPut(front, i);
      0 <= c.dts - log[|log| - 1].dts <= UINT32_MAX
  {
    hide Steady, SamplesPut, TracksAdded;
    CallsSnoc(front, c);
    var all, log := front + [c], SamplesPut(front, i);
    assert all[|front|] == c;
    if c.Put? && c.track == i < |TracksAdded(front)| {
      SteadyFront(log, SentBy(c));
    }
    forall k | 0 <= k < |front|
      ensures all[k] == front[k]
    {
    }
    forall k | 0 <= k < |TracksAdded(front)|
      ensures TracksAdded(front)[k] == TracksAdded(all)[k]
    {
    }
  }

  /** The writer after some calls. */
  ghost predicate After(w: FWriter, calls: seq<Call>)
    reads w
  {
    && |w.tracks| == |w.logs| == |TracksAdded(calls)| && w.nextId == |w.tracks| + 1
    && forall k :: 0 <= k < |w.tracks| ==>
         w.tracks[k].header.handler == TracksAdded(calls)[k].handler && w.logs[k] == SamplesPut(calls, k)
  }

  /** Nothing left out and nothing twice between one fragment of track `i` and the next, or its queue. */
  ghost predicate NoGap(w: FWriter, i: nat)
    reads w, w.tracks
  {
    i < |w.tracks| == |w.logs| ==> Seamless(w.done, i, w.tracks[i].samples, First(w.logs[i]))
  }

  /** Fragments hold nothing of a track that is new. */
  lemma NewSeamless(w: FWriter, i: nat, queue: seq<Packet>, start: int)
    requires w.Valid() && |w.tracks| <= i
    ensures Seamless(w.done, i, queue, start)
  {
    hide FWriter.OnFile, FWriter.InQueues, FWriter.InIndex, Widening, AllFrom, Joined;
    NotWider(w.done, w.logs);
  }

  method DoAdd(w: FWriter, ghost front: seq<Call>, header: Header, i: nat)
    requires w.Valid() && After(w, front) && NoGap(w, i) && w.nextId < UINT32_MAX
    modifies w`tracks, w`logs, w`nextId
    ensures w.Valid() && After(w, front + [Add(header)]) && NoGap(w, i)
    ensures forall k :: 0 <= k < |w.tracks| ==> w.tracks[k] in old(w.tracks) || fresh(w.tracks[k])
  {
    hide FWriter.Valid, Seamless, First, SamplesPut, TracksAdded;
    CallsSnoc(front, Add(header));
    if |w.tracks| <= i {
      NewSeamless(w, i, [], First([]));
    }
    ghost var ts := w.tracks;
    NothingPut(front, |ts|);
    var idx := w.AddTrack(header);
    assert forall k :: 0 <= k < |ts| ==> w.tracks[k] == w.tracks[..idx][k] == ts[k];
  }

  lemma {:induction false} NothingPut(calls: seq<Call>, i: nat)
    requires |TracksAdded(calls)| <= i
    ensures SamplesPut(calls, i) == []
  {
    if calls != [] {
      NothingPut(calls[..|calls| - 1], i);
    }
  }

  method DoUdta(w: FWriter, ghost front: seq<Call>, data: seq<byte>, i: nat)
    requires w.Valid() && After(w, front) && NoGap(w, i)
    modifies w`udta
    ensures w.Valid() && After(w, front + [Udta(data)]) && NoGap(w, i)
  {
    hide FWriter.Valid, Seamless, First, SamplesPut, TracksAdded;
    CallsSnoc(front, Udta(data));
    w.AddUdta(data);
  }

  method DoPut(w: FWriter, ghost front: seq<Call>, c: Call, i: nat)
    requires w.Valid() && c.Put? && After(w, front) && NoGap(w, i) && GoodCalls(front + [c], i)
    modifies w`mdatSize, w`hasMoov, w`fragmentId, w`done, w`trailing, w`logs, w.io, w.tracks
    ensures w.Valid() && After(w, front + [c]) && NoGap(w, i)
  {
    hide FWriter.Valid, FWriter.Turned, Seamless, First, Steady, SamplesPut, TracksAdded;
    CallsSnoc(front, c);
    GoodFront(front, c, i);
    if 0 <= c.track < |w.tracks| {
      if i < |w.tracks| {
        WriteSeamless(w, i, c.track, c.data, c.pts, c.dts, c.flags);
      } else {
        var r := w.Write(c.track, c.data, c.pts, c.dts, c.flags);
      }
    } else {
      var r := w.Write(c.track, c.data, c.pts, c.dts, c.flags);
    }
  }

  /** Over a whole run, from an empty file: wherever a fragment holds samples of the video track, the next
      one, or what is queued, goes on at the very time where its durations end. */
  method WriteRun(io: Io, created: uint32, calls: seq<Call>, i: nat) returns (w: FWriter)
    requires io.error == 0 && io.data == [] && io.pos == 0 && GoodCalls(calls, i)
    modifies io
    ensures w.Valid() && w.io == io && |w.tracks| == |w.logs| == |TracksAdded(calls)|
    ensures forall k :: 0 <= k < |w.tracks| ==> w.logs[k] == SamplesPut(calls, k)
    ensures i < |w.tracks| ==> Seamless(w.done, i, w.tracks[i].samples, First(w.logs[i]))
  {
    hide FWriter.Valid, Seamless, First, GoodCalls;
    w := new FWriter(io, created);
    assert calls[..0] == [];
    for n := 0 to |calls|
      invariant w.Valid() && w.io == io && After(w, calls[..n]) && NoGap(w, i) && fresh(w)
      invariant forall k :: 0 <= k < |w.tracks| ==> fresh(w.tracks[k])
    {
      var c := calls[n];
      GoodUpTo(calls, n + 1, i);
      assert calls[..n + 1] == calls[..n] + [c];
      match c
      case Add(header) =>
        FewTracks(calls[..n]);
        DoAdd(w, calls[..n], header, i);
      case Udta(data) => DoUdta(w, calls[..n], data, i);
      case Put(_, _, _, _, _) => DoPut(w, calls[..n], c, i);
    }
    assert calls[..|calls|] == calls;
  }

  lemma {:induction false} GoodUpTo(calls: seq<Call>, n: nat, i: nat)
    requires GoodCalls(calls, i) && n <= |calls|
    ensures GoodCalls(calls[..n], i) && |calls| < UINT32_MAX - 1
    decreases |calls| - n
  {
    hide Steady, SamplesPut, TracksAdded;
    if n < |calls| {
      GoodUpTo(calls, n + 1, i);
      assert calls[..n + 1] == calls[..n] + [calls[n]];
      GoodFront(calls[..n], calls[n], i);
    } else {
      assert calls[..n] == calls;
    }
  }
}
