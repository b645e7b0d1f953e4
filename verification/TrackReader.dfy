/** A track as it is read: the table readers fill it in, the apply passes work out its samples in place. */
module TrackReader {
  import opened Bytes
  import opened IoUtil
  import opened Runs
  import opened SampleTables
  import opened Timing
  import opened TrackBoxes
  import opened Options
  import opened BoxParser
  import opened IndexBoxes
  import opened Passes

  function SizesFrom(ms: seq<Media>, count: nat): (xs: seq<uint32>) {
    Sizes(ms[..if count <= |ms| then count else 0])
  }

  class Stream {
    const id: uint32
    var count: nat
    var samples: seq<Media>  // one spare behind the `count` samples
    var stts: seq<Run>
    var ctts: seq<Run>
    var stsc: seq<Stsc>
    var stco: seq<nat>
    var stss: seq<nat>
    var elst: seq<Elst>
    var applied: bool
    var next: nat            // the sample to be read next

    // For movie fragments.
    var clock: int           // when the next sample is decoded
    var trex: Defaults
    var tfhd: Tfhd
    var frags: seq<Mark>     // where the index says that fragments stand

    ghost predicate Valid()
      reads this
    {
      && |samples| == (if count == 0 then 0 else count + 1)
      && (!applied ==> forall i :: 0 <= i < |samples| ==> samples[i].flags == 0)
    }

    function V(): Tables
      reads this
    {
      Tables(id, SizesFrom(samples, count), stts, ctts, stsc, stco, stss, elst,
             if applied && count <= |samples| then samples[..count] else [], clock, trex, tfhd, frags)
    }

    constructor (id: uint32)
      ensures Valid() && this.id == id && !applied && V() == NewTrack(id)
    {
      this.id := id;
      clock, trex, tfhd := 0, Defaults(0, 0, 0, 0), Tfhd(0, 0, Defaults(0, 0, 0, 0));
      count, samples, applied, next := 0, [], false, 0;
      stts, ctts, stsc, stco, stss, elst, frags := [], [], [], [], [], [], [];
    }

    lemma IdOf()
      ensures V().id == id
    {
    }

    lemma Shape()
      requires Valid()
      ensures |V().sizes| == count && (count > 0 ==> (V().samples == [] <==> !applied))
    {
    }

    lemma Known()
      ensures V().elst == elst && V().trex == trex && V().tfhd == tfhd && V().clock == clock
    {
    }

    lemma Last()
      requires Valid() && applied && count > 0
      ensures |V().samples| == count && V().samples[count - 1] == samples[count - 1]
    {
    }

    method SetClock(t: int)
      modifies this`clock
      ensures V() == old(V()).(clock := t) && (old(Valid()) ==> Valid())
    {
      clock := t;
    }

    method SetTrex(defs: Defaults)
      modifies this`trex
      ensures V() == old(V()).(trex := defs) && (old(Valid()) ==> Valid())
    {
      trex := defs;
    }

    method SetTfhd(t: Tfhd)
      modifies this`tfhd
      ensures V() == old(V()).(tfhd := t) && (old(Valid()) ==> Valid())
    {
      tfhd := t;
    }

    method SetFrags(xs: seq<Mark>)
      modifies this`frags
      ensures V() == old(V()).(frags := xs) && (old(Valid()) ==> Valid())
    {
      frags := xs;
    }

    // ---- Reading the tables ----

    /** Version, flags and entry count of a table box. */
    static method ReadHead(io: Io) returns (version: byte, n: uint32)
      modifies io`pos, io`error
      ensures old(io.error) == 0 && old(io.pos) + 8 <= |io.data| ==>
        io.error == 0 && io.pos == old(io.pos) + 8 && version == io.data[old(io.pos)]
        && n == Get32(io.data, old(io.pos) + 4)
    {
      hide Get32, Get24;
      version := io.R8();
      var flags := io.R24();
      n := io.R32();
    }

    /** The entries of a run table, as many as its head says. */
    static method ReadRuns(io: Io, ghost q: nat) returns (rs: seq<Run>)
      modifies io`pos, io`error
      ensures old(io.error) == 0 && ParseCounted(io.data, old(io.pos), q, 8).Some? ==>
        var n := ParseCounted(io.data, old(io.pos), q, 8).value;
        io.error == 0 && io.pos == q && rs == ParseRuns(io.data, old(io.pos) + 8, n)
    {
      hide Get32;
      ghost var p := io.pos;
      var version, n := ReadHead(io);
      ghost var fits := old(io.error) == 0 && p + 8 + 8 * n <= |io.data| && n == Get32(io.data, p + 4);
      rs := [];
      var i: nat := 0;
      while i < n
        invariant i <= n
        invariant fits ==> io.error == 0 && io.pos == p + 8 + 8 * i && rs == ParseRuns(io.data, p + 8, i)
      {
        var count := io.R32();
        var value := io.R32();
        rs := rs + [Run(count, value)];
        i := i + 1;
      }
    }

    method ReadStts(io: Io, ghost q: nat)
      requires Valid()
      modifies this`stts, io`pos, io`error
      ensures Valid()
      ensures old(io.error) == 0 && ParseCounted(io.data, old(io.pos), q, 8).Some? ==>
        var n := ParseCounted(io.data, old(io.pos), q, 8).value;
        io.error == 0 && io.pos == q && V() == old(V()).(stts := ParseRuns(io.data, old(io.pos) + 8, n))
    {
      stts := ReadRuns(io, q);
    }

    method ReadCtts(io: Io, ghost q: nat)
      requires Valid()
      modifies this`ctts, io`pos, io`error
      ensures Valid()
      ensures old(io.error) == 0 && ParseCounted(io.data, old(io.pos), q, 8).Some? ==>
        var n := ParseCounted(io.data, old(io.pos), q, 8).value;
        io.error == 0 && io.pos == q && V() == old(V()).(ctts := ParseRuns(io.data, old(io.pos) + 8, n))
    {
      ctts := ReadRuns(io, q);
    }

    method ReadStsc(io: Io, ghost q: nat)
      requires Valid()
      modifies this`stsc, io`pos, io`error
      ensures Valid()
      ensures old(io.error) == 0 && ParseCounted(io.data, old(io.pos), q, 12).Some? ==>
        var n := ParseCounted(io.data, old(io.pos), q, 12).value;
        io.error == 0 && io.pos == q && V() == old(V()).(stsc := ParseStsc(io.data, old(io.pos) + 8, n))
    {
      hide Get32;
      ghost var p := io.pos;
      var version, n := ReadHead(io);
      ghost var fits := old(io.error) == 0 && p + 8 + 12 * n <= |io.data| && n == Get32(io.data, p + 4);
      stsc := [];
      var i: nat := 0;
      while i < n
        invariant i <= n
        invariant fits ==> io.error == 0 && io.pos == p + 8 + 12 * i && stsc == ParseStsc(io.data, p + 8, i)
      {
        var first := io.R32();
        var count := io.R32();
        var sdi := io.R32();
        stsc := stsc + [Stsc(first, count, sdi)];
        i := i + 1;
      }
    }

    method ReadStco(io: Io, large: bool, ghost q: nat)
      requires Valid()
      modifies this`stco, io`pos, io`error
      ensures Valid()
      ensures old(io.error) == 0 && ParseCounted(io.data, old(io.pos), q, if large then 8 else 4).Some? ==>
        var n := ParseCounted(io.data, old(io.pos), q, if large then 8 else 4).value;
        io.error == 0 && io.pos == q
        && V() == old(V()).(stco := if large then Parse64(io.data, old(io.pos) + 8, n)
                                    else Parse32(io.data, old(io.pos) + 8, n))
    {
      hide Get32, Get64;
      ghost var p := io.pos;
      var version, n := ReadHead(io);
      ghost var entry := if large then 8 else 4;
      ghost var fits := old(io.error) == 0 && p + 8 + entry * n <= |io.data| && n == Get32(io.data, p + 4);
      stco := [];
      var i: nat := 0;
      while i < n
        invariant i <= n
        invariant fits ==> io.error == 0 && io.pos == p + 8 + entry * i
        invariant fits ==> stco == if large then Parse64(io.data, p + 8, i) else Parse32(io.data, p + 8, i)
      {
        if large {
          var offset := io.R64();
          stco := stco + [offset];
        } else {
          var offset := io.R32();
          stco := stco + [offset];
        }
        i := i + 1;
      }
    }

    method ReadStss(io: Io, ghost q: nat)
      requires Valid()
      modifies this`stss, io`pos, io`error
      ensures Valid()
      ensures old(io.error) == 0 && ParseCounted(io.data, old(io.pos), q, 4).Some? ==>
        var n := ParseCounted(io.data, old(io.pos), q, 4).value;
        io.error == 0 && io.pos == q && V() == old(V()).(stss := Parse32(io.data, old(io.pos) + 8, n))
    {
      hide Get32;
      ghost var p := io.pos;
      var version, n := ReadHead(io);
      ghost var fits := old(io.error) == 0 && p + 8 + 4 * n <= |io.data| && n == Get32(io.data, p + 4);
      stss := [];
      var i: nat := 0;
      while i < n
        invariant i <= n
        invariant fits ==> io.error == 0 && io.pos == p + 8 + 4 * i && stss == Parse32(io.data, p + 8, i)
      {
        var number := io.R32();
        stss := stss + [number];
        i := i + 1;
      }
    }

    method ReadElst(io: Io, ghost q: nat)
      requires Valid()
      modifies this`elst, io`pos, io`error
      ensures Valid()
      ensures old(io.error) == 0 && old(io.pos) < |io.data| ==>
        var v := io.data[old(io.pos)];
        var n := ParseCounted(io.data, old(io.pos), q, if v == 1 then 20 else 12);
        n.Some? ==> io.error == 0 && io.pos == q && V() == old(V()).(elst := ParseElst(io.data, old(io.pos) + 8, n.value, v))
    {
      hide Get32, Get64, Get16;
      ghost var p := io.pos;
      var version, n := ReadHead(io);
      ghost var entry := if version == 1 then 20 else 12;
      ghost var fits := old(io.error) == 0 && p + 8 + entry * n <= |io.data| && n == Get32(io.data, p + 4);
      elst := [];
      var i: nat := 0;
      while i < n
        invariant i <= n
        invariant fits ==> io.error == 0 && io.pos == p + 8 + entry * i
        invariant fits ==> elst == ParseElst(io.data, p + 8, i, version)
      {
        if version == 1 {
          var duration := io.R64();
          var time := io.R64();
          elst := elst + [Elst(duration, S64(time))];
        } else {
          var duration := io.R32();
          var time := io.R32();
          elst := elst + [Elst(duration, S32(time))];
        }
        var rate := io.R16();
        var fraction := io.R16();
        i := i + 1;
      }
    }

    /** Allocates the samples, all zero but for their sizes. */
    method ReadStsz(io: Io, ghost q: nat)
      modifies this`count, this`samples, this`applied, io`pos, io`error
      ensures Valid()
      ensures old(io.error) == 0 && ParseStsz(io.data, old(io.pos), q).Some? ==>
        io.error == 0 && io.pos == q
        && V() == old(V()).(sizes := ParseStsz(io.data, old(io.pos), q).value, samples := [])
    {
      hide Get32;
      ghost var p := io.pos;
      var version, size := ReadHead(io);
      count := io.R32();
      samples, applied := seq(if count == 0 then 0 else count + 1, _ => Media(0, 0, 0, 0, 0, 0)), false;
      ghost var at := io.pos;
      ReadSizes(io, size);
      if old(io.error) == 0 && ParseStsz(io.data, p, q).Some? {
        assert at == p + 12;
        assert V().sizes == ParseStsz(io.data, p, q).value;
      }
    }

    /** The size of every sample: the one given, or if that is 0 one from the table. */
    method ReadSizes(io: Io, size: uint32)
      requires Valid() && !applied
      modifies this`samples, io`pos, io`error
      ensures Valid() && |samples| == old(|samples|)
      ensures var at := old(io.pos);
        old(io.error) == 0 && at + (if size == 0 then 4 * count else 0) <= |io.data| ==>
          io.error == 0 && io.pos == at + (if size == 0 then 4 * count else 0)
          && forall k :: 0 <= k < count ==> samples[k].bytes == if size == 0 then Get32(io.data, at + 4 * k) else size
    {
      hide Get32;
      ghost var at := io.pos;
      ghost var fits := io.error == 0 && at + (if size == 0 then 4 * count else 0) <= |io.data|;
      var i: nat := 0;
      while i < count
        invariant i <= count && Valid() && |samples| == old(|samples|)
        invariant fits ==> io.error == 0 && io.pos == at + (if size == 0 then 4 * i else 0)
        invariant fits ==> forall k :: 0 <= k < i ==>
          samples[k].bytes == if size == 0 then Get32(io.data, at + 4 * k) else size
      {
        var bytes := size;
        if size == 0 {
          bytes := io.R32();
        }
        samples := samples[i := samples[i].(bytes := bytes)];
        i := i + 1;
      }
    }

    // ---- Applying the tables ----

    /** The samples of one chunk, one behind the other. */
    method PlaceSamples(n0: nat, chunkOffset: nat, perChunk: nat, sdi: uint32, ghost plan: seq<Chunk>, ghost c: nat)
      returns (n: nat)
      requires Valid() && c < |plan| && Total(plan) == count && n0 == Total(plan[..c])
      requires plan[c].offset == chunkOffset && plan[c].count == perChunk && plan[c].sdi == sdi
      modifies this`samples
      ensures Valid() && n == n0 + perChunk == Total(plan[..c + 1]) <= count
      ensures |samples| == old(|samples|)
      ensures SizesFrom(samples, count) == old(SizesFrom(samples, count))
      ensures forall x :: 0 <= x < |samples| ==> samples[x] == if n0 <= x < n
        then SetSpot(old(samples)[x], Place(plan, old(SizesFrom(samples, count)))[x]) else old(samples)[x]
    {
      hide Place, Total, Sum;
      ghost var sizes := SizesFrom(samples, count);
      ghost var was := samples;
      ghost var spots := Place(plan, sizes);
      TotalFront(plan, c);
      TotalUp(plan, c + 1);
      n := n0;
      var offset := chunkOffset;
      var k: nat := 0;
      assert Sum(sizes[n0..n0]) == 0 by { SumNone(); assert sizes[n0..n0] == []; }
      while k < perChunk
        invariant k <= perChunk && n == n0 + k && |samples| == |was|
        invariant offset == chunkOffset + Sum(sizes[n0..n0 + k])
        invariant forall x :: 0 <= x < |samples| ==>
          samples[x] == if n0 <= x < n then SetSpot(was[x], spots[x]) else was[x]
      {
        PlaceAt(plan, sizes, c, k);
        SumNext(sizes, n0, k);
        samples := samples[n := samples[n].(sdi := sdi, offset := offset)];
        offset := offset + samples[n].bytes;
        k := k + 1;
        n := n + 1;
      }
    }

    method ApplyStco()
      requires Valid() && count > 0 && Consistent(V())
      modifies this`samples
      ensures Valid() && |samples| == old(|samples|)
      ensures forall x :: 0 <= x < |samples| ==> samples[x] == if x < count
        then SetSpot(old(samples)[x], Place(old(PlanOf(V())), old(V().sizes))[x]) else old(samples)[x]
    {
      hide Place, Total, Governing, Expand, Counts;
      ghost var t, was := V(), samples;
      ghost var plan := PlanOf(t);
      ghost var spots := Place(plan, t.sizes);
      var table := stsc + [Stsc(|stco| + 1, 0, 0)];  // the spare entry: one behind the last chunk
      var i: nat, n: nat := 0, 0;
      assert Total(plan[..0]) == 0 by { TotalNone(); }
      while i < |stsc|
        invariant i <= |stsc| && |samples| == |was| && SizesFrom(samples, count) == t.sizes
        invariant 1 <= table[i].first <= |stco| + 1 && n == Total(plan[..table[i].first - 1]) <= count
        invariant forall x :: 0 <= x < |samples| ==> samples[x] == if x < n then SetSpot(was[x], spots[x]) else was[x]
      {
        TableUp(stsc, |stco|, i);
        var j := table[i].first;
        while j < table[i + 1].first
          invariant table[i].first <= j <= table[i + 1].first && |samples| == |was| && SizesFrom(samples, count) == t.sizes
          invariant n == Total(plan[..j - 1]) <= count
          invariant forall x :: 0 <= x < |samples| ==> samples[x] == if x < n then SetSpot(was[x], spots[x]) else was[x]
        {
          GoverningIs(stsc, i, j, |stco|);
          n := PlaceSamples(n, stco[j - 1], stsc[i].count, stsc[i].sdi, plan, j - 1);
          j := j + 1;
        }
        i := i + 1;
      }
      assert plan[..|stco|] == plan;
    }

    method ApplyElst()
      requires Valid() && count > 0
      modifies this`samples
      ensures Valid() && samples == old(samples)[0 := SetDts(old(samples)[0], BaseTime(elst))]
    {
      samples := samples[0 := samples[0].(dts := 0, pts := 0)];
      var i := 0;
      while i < |elst|
        invariant i <= |elst| && Valid()
        invariant samples == old(samples)[0 := SetDts(old(samples)[0], BaseTime(elst[..i]))]
      {
        assert elst[..i + 1][..i] == elst[..i];
        if elst[i].time == -1 {
          samples := samples[0 := samples[0].(dts := elst[i].duration, pts := elst[i].duration)];
        }
        i := i + 1;
      }
      assert elst[..i] == elst;
    }

    /** Counts on from the first sample into the spare one. */
    method ApplyStts()
      requires Valid() && count > 0 && Counts(stts) == count && samples[0].pts == samples[0].dts
      modifies this`samples
      ensures Valid() && |samples| == old(|samples|) && |Expand(stts)| == count
      ensures forall x :: 0 <= x < |samples| ==>
        samples[x] == SetDts(old(samples)[x], DtsFrom(old(samples)[0].dts, Expand(stts))[x])
    {
      hide Expand, Counts, DtsFrom;
      ExpandLength(stts);
      ghost var was := samples;
      ghost var ds := Expand(stts);
      ghost var ts := DtsFrom(was[0].dts, ds);
      var i, n := 0, 1;
      assert Counts(stts[..0]) == 0 by { CountsNone(); }
      assert ts[0] == was[0].dts by { DtsFromFirst(was[0].dts, ds); }
      while i < |stts|
        invariant i <= |stts| && |samples| == |was|
        invariant n == 1 + Counts(stts[..i]) <= |samples|
        invariant forall x :: 0 <= x < |samples| ==> samples[x] == if x < n then SetDts(was[x], ts[x]) else was[x]
      {
        CountsFront(stts, i);
        var j: nat := 0;
        while j < stts[i].count
          invariant j <= stts[i].count && |samples| == |was|
          invariant n == 1 + Counts(stts[..i]) + j <= |samples|
          invariant forall x :: 0 <= x < |samples| ==> samples[x] == if x < n then SetDts(was[x], ts[x]) else was[x]
        {
          ExpandAt(stts, i, j);
          DtsFromStep(was[0].dts, ds, n - 1);
          samples := samples[n := samples[n].(dts := samples[n - 1].dts + stts[i].value)];
          samples := samples[n := samples[n].(pts := samples[n].dts)];
          n := n + 1;
          j := j + 1;
        }
        i := i + 1;
      }
      assert stts[..i] == stts;
    }

    method ApplyCtts()
      requires Valid() && (ctts == [] || Counts(ctts) == count)
      modifies this`samples
      ensures Valid() && |samples| == old(|samples|) && (ctts != [] ==> |Expand(ctts)| == count)
      ensures forall x :: 0 <= x < |samples| ==> samples[x] == if ctts != [] && x < count
        then old(samples)[x].(pts := PtsFrom(old(samples)[x].pts, Expand(ctts)[x], ShiftOf(ctts))) else old(samples)[x]
    {
      hide Expand, Counts, ShiftOf;
      ExpandLength(ctts);
      ghost var was := samples;
      ghost var os := Expand(ctts);
      var shift: int32 := 0;
      var i := 0;
      assert ShiftOf(ctts[..0]) == 0 && Counts(ctts[..0]) == 0 by { CountsNone(); ShiftNone(); }
      while i < |ctts|
        invariant i <= |ctts| && shift == ShiftOf(ctts[..i]) && samples == was
      {
        var delta := S32(ctts[i].value);
        if delta < 0 && shift > delta && delta != -1 {
          shift := delta;
        }
        assert ctts[..i + 1] == ctts[..i] + [ctts[i]];
        ShiftSnoc(ctts[..i], ctts[i]);
        i := i + 1;
      }
      assert ctts[..i] == ctts;
      var n: nat := 0;
      i := 0;
      while i < |ctts|
        invariant i <= |ctts| && |samples| == |was| && n == Counts(ctts[..i]) <= |os|
        invariant forall x :: 0 <= x < |samples| ==> samples[x] == if x < n
          then was[x].(pts := PtsFrom(was[x].pts, os[x], shift)) else was[x]
      {
        CountsFront(ctts, i);
        var j: nat := 0;
        while j < ctts[i].count
          invariant j <= ctts[i].count && |samples| == |was| && n == Counts(ctts[..i]) + j <= |os|
          invariant forall x :: 0 <= x < |samples| ==> samples[x] == if x < n
            then was[x].(pts := PtsFrom(was[x].pts, os[x], shift)) else was[x]
        {
          ExpandAt(ctts, i, j);
          samples := samples[n := samples[n].(pts := samples[n].pts + (S32(ctts[i].value) - shift))];
          n := n + 1;
          j := j + 1;
        }
        i := i + 1;
      }
      assert ctts[..i] == ctts;
    }

    method ApplyStss()
      requires |samples| >= count
      modifies this`samples
      ensures |samples| == old(|samples|)
      ensures forall x :: 0 <= x < |samples| ==> samples[x] == if x < count && x + 1 in stss
        then old(samples)[x].(flags := MarkKey(old(samples)[x].flags)) else old(samples)[x]
    {
      ghost var was := samples;
      var i := 0;
      while i < |stss|
        invariant i <= |stss| && |samples| == |was|
        invariant forall x :: 0 <= x < |samples| ==> samples[x] == if x < count && x + 1 in stss[..i]
          then was[x].(flags := MarkKey(was[x].flags)) else was[x]
      {
        var j := stss[i];
        if 0 < j <= count {
          samples := samples[j - 1 := samples[j - 1].(flags := MarkKey(samples[j - 1].flags))];
        }
        assert stss[..i + 1] == stss[..i] + [j];
        i := i + 1;
      }
      assert stss[..i] == stss;
    }

    /** More samples behind those that are there, and one spare again. */
    method Append(more: seq<Media>)
      requires Valid()
      modifies this`count, this`samples, this`applied
      ensures Valid()
      ensures old(|V().samples| == |V().sizes|) ==>
        V() == old(V()).(samples := old(V().samples) + more, sizes := old(V().sizes) + Sizes(more))
    {
      ghost var was := V();
      if more != [] {
        ghost var front := samples[..count];
        samples := samples[..count] + more + [Media(0, 0, 0, 0, 0, 0)];
        count := count + |more|;
        applied := true;
        assert samples[..count] == front + more;
        assert Sizes(front + more) == Sizes(front) + Sizes(more);
        if |was.samples| == |was.sizes| {
          assert was.samples == front;
        }
      } else {
        assert was.samples + more == was.samples && was.sizes + Sizes(more) == was.sizes;
      }
    }

    /** The passes in the order they depend on one another. */
    method Apply()
      requires Valid() && count > 0 && !applied && Consistent(V())
      modifies this`samples, this`applied
      ensures Valid() && applied && V() == old(V()).(samples := Rebuild(old(V())))
    {
      hide Place, Total, Governing, Expand, Counts, ShiftOf, DtsFrom, PlanOf;
      ghost var t, was := V(), samples;
      ApplyStco();
      ApplyElst();
      ApplyStts();
      ApplyCtts();
      ApplyStss();
      applied := true;
      forall x | 0 <= x < count
        ensures samples[x] == Rebuild(t)[x]
      {
        assert was[x].bytes == t.sizes[x] && was[x].flags == 0;
      }
      assert V().samples == Rebuild(t);
      assert V().sizes == t.sizes;
    }
  }
}
