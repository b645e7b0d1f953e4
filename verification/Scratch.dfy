/** How the two scratch fields of a sample carry a run-length table: heads of runs have a non-zero
    `firstChunk`. The three builders differ only in what they store in the two fields. */
module Scratch {
  import opened Bytes
  import opened Runs
  import opened SampleTables

  /** The samples that head a run, in order. */
  function Heads(ss: seq<Sample>): (hs: seq<Sample>)
    ensures |hs| <= |ss|
  {
    if ss == [] then [] else
      var n := |ss| - 1;
      Heads(ss[..n]) + (if ss[n].firstChunk == 0 then [] else [ss[n]])
  }

  /** The table that stts and ctts writers read off the scratch fields: count, then value. */
  function RunsIn(hs: seq<Sample>): (rs: seq<Run>)
    ensures |rs| == |hs|
  {
    seq(|hs|, i requires 0 <= i < |hs| => Run(hs[i].firstChunk, hs[i].samplesPerChunk))
  }

  lemma {:induction false} HeadsTail(ss: seq<Sample>, h: nat)
    requires h < |ss| && ss[h].firstChunk != 0
    requires forall k :: h < k < |ss| ==> ss[k].firstChunk == 0
    ensures Heads(ss) == Heads(ss[..h]) + [ss[h]]
    decreases |ss|
  {
    if h < |ss| - 1 {
      HeadsTail(ss[..|ss| - 1], h);
      assert ss[..|ss| - 1][..h] == ss[..h];
    }
  }

  lemma {:induction false} HeadsSnoc(ss: seq<Sample>, s: Sample)
    ensures Heads(ss + [s]) == if s.firstChunk == 0 then Heads(ss) else Heads(ss) + [s]
  {
    assert (ss + [s])[..|ss|] == ss;
  }

  lemma HeadsStep(ss: seq<Sample>, i: nat)
    requires i < |ss|
    ensures Heads(ss[..i + 1]) == if ss[i].firstChunk == 0 then Heads(ss[..i]) else Heads(ss[..i]) + [ss[i]]
  {
    assert ss[..i + 1][..i] == ss[..i];
  }

  lemma {:induction false} HeadAt(ss: seq<Sample>, i: nat)
    requires i < |ss| && ss[i].firstChunk != 0
    ensures |Heads(ss[..i])| < |Heads(ss)| && Heads(ss)[|Heads(ss[..i])|] == ss[i]
    decreases |ss|
  {
    if i < |ss| - 1 {
      HeadAt(ss[..|ss| - 1], i);
      assert ss[..|ss| - 1][..i] == ss[..i];
    }
  }

  /** The last head seen so far, and nothing but members of its run behind it. */
  ghost predicate LastHead(ss: seq<Sample>, i: nat, h: int) {
    && i <= |ss|
    && (i > 0 ==>
          && 0 <= h < i
          && 0 < ss[h].firstChunk
          && 0 < ss[0].firstChunk
          && forall k :: h < k < i ==> ss[k].firstChunk == 0)
  }

  function Mark(s: Sample, first: uint32, per: uint32): Sample {
    s.(firstChunk := first, samplesPerChunk := per)
  }

  /** Sample `i` made a head. */
  function Open(ss: seq<Sample>, i: nat, first: uint32, per: uint32): seq<Sample>
    requires i < |ss|
  {
    ss[i := Mark(ss[i], first, per)]
  }

  /** Sample `i` made a member of the run headed at `h`, whose fields change to match. */
  function Join(ss: seq<Sample>, i: nat, h: nat, first: uint32, per: uint32): seq<Sample>
    requires h < i < |ss|
  {
    ss[i := ss[i].(firstChunk := 0)][h := Mark(ss[h], first, per)]
  }

  lemma OpenHeads(ss: seq<Sample>, i: nat, h: int, first: uint32, per: uint32)
    requires i < |ss| && LastHead(ss, i, h) && first > 0
    ensures Medias(Open(ss, i, first, per)) == Medias(ss)
    ensures LastHead(Open(ss, i, first, per), i + 1, i)
    ensures Heads(Open(ss, i, first, per)[..i + 1]) == Heads(ss[..i]) + [Mark(ss[i], first, per)]
  {
    hide Heads;
    var r := Open(ss, i, first, per);
    assert r[..i + 1] == ss[..i] + [Mark(ss[i], first, per)];
    HeadsSnoc(ss[..i], Mark(ss[i], first, per));
  }

  lemma JoinHeads(ss: seq<Sample>, i: nat, h: nat, first: uint32, per: uint32)
    requires i < |ss| && i > 0 && LastHead(ss, i, h) && first > 0
    ensures Medias(Join(ss, i, h, first, per)) == Medias(ss)
    ensures LastHead(Join(ss, i, h, first, per), i + 1, h)
    ensures Heads(ss[..i]) == Heads(ss[..h]) + [ss[h]]
    ensures Heads(Join(ss, i, h, first, per)[..i + 1]) == Heads(ss[..h]) + [Mark(ss[h], first, per)]
  {
    hide Heads;
    var r := Join(ss, i, h, first, per);
    HeadsTail(ss[..i], h);
    assert ss[..i][..h] == ss[..h];
    HeadsTail(r[..i + 1], h);
    assert r[..i + 1][..h] == ss[..h];
  }

  // ---- Runs of equal keys ----

  /** After `i` samples the scratch fields say the run-length table of the first `i` keys. */
  ghost predicate RunsDone(ss: seq<Sample>, keys: seq<uint32>, i: nat, h: int) {
    && |keys| == |ss| && LastHead(ss, i, h)
    && (i > 0 ==> ss[h].firstChunk <= i)
    && RunsIn(Heads(ss[..i])) == Compress(keys[..i])
  }

  lemma RunsInSnoc(hs: seq<Sample>, s: Sample)
    ensures RunsIn(hs + [s]) == RunsIn(hs) + [Run(s.firstChunk, s.samplesPerChunk)]
  {
  }

  lemma OpenRun(ss: seq<Sample>, keys: seq<uint32>, i: nat, h: int)
    requires i < |ss| && RunsDone(ss, keys, i, h)
    requires i > 0 ==> ss[h].samplesPerChunk != keys[i]
    ensures Medias(Open(ss, i, 1, keys[i])) == Medias(ss)
    ensures RunsDone(Open(ss, i, 1, keys[i]), keys, i + 1, i)
    ensures Open(ss, i, 1, keys[i])[i].samplesPerChunk == keys[i]
    ensures |Compress(keys[..i + 1])| == |Compress(keys[..i])| + 1
  {
    hide Heads, RunsIn, Compress;
    OpenHeads(ss, i, h, 1, keys[i]);
    RunsInSnoc(Heads(ss[..i]), Mark(ss[i], 1, keys[i]));
    assert keys[..i + 1] == keys[..i] + [keys[i]];
    CompressSnoc(keys[..i], keys[i]);
    if i > 0 {
      HeadsTail(ss[..i], h);
      RunsInSnoc(Heads(ss[..i][..h]), ss[h]);
    } else {
      assert keys[..i] == [];
      CompressNone();
    }
  }

  lemma CompressNone()
    ensures Compress([]) == []
  {
  }

  lemma JoinRun(ss: seq<Sample>, keys: seq<uint32>, i: nat, h: nat)
    requires 0 < i < |ss| <= UINT32_MAX && RunsDone(ss, keys, i, h)
    requires ss[h].samplesPerChunk == keys[i]
    ensures var r := Join(ss, i, h, ss[h].firstChunk + 1, keys[i]);
      Medias(r) == Medias(ss) && RunsDone(r, keys, i + 1, h) && r[h].samplesPerChunk == keys[i]
    ensures |Compress(keys[..i + 1])| == |Compress(keys[..i])|
  {
    hide Heads, RunsIn, Compress;
    var first := ss[h].firstChunk;
    JoinHeads(ss, i, h, first + 1, keys[i]);
    RunsInSnoc(Heads(ss[..h]), ss[h]);
    RunsInSnoc(Heads(ss[..h]), Mark(ss[h], first + 1, keys[i]));
    assert keys[..i + 1] == keys[..i] + [keys[i]];
    CompressSnoc(keys[..i], keys[i]);
  }

  lemma RunsStart(ss: seq<Sample>, keys: seq<uint32>)
    requires |keys| == |ss|
    ensures RunsDone(ss, keys, 0, -1) && |Compress(keys[..0])| == 0
  {
  }

  lemma RunsHead(ss: seq<Sample>, keys: seq<uint32>, i: nat, h: int)
    requires RunsDone(ss, keys, i, h)
    ensures |keys| == |ss| && i <= |ss|
    ensures i > 0 ==> 0 <= h < i && ss[h].firstChunk <= i
  {
  }

  lemma RunsEnd(ss: seq<Sample>, keys: seq<uint32>, h: int)
    requires RunsDone(ss, keys, |ss|, h)
    ensures RunsIn(Heads(ss)) == Compress(keys) && keys[..|ss|] == keys
    ensures ss != [] ==> ss[0].firstChunk != 0
  {
    assert ss[..|ss|] == ss && keys[..|ss|] == keys;
  }

  // ---- Chunks ----

  /** The scratch fields say the chunks: number from 1, then samples per chunk. */
  ghost predicate ChunksIn(hs: seq<Sample>, cs: seq<Chunk>) {
    && |hs| == |cs|
    && forall j :: 0 <= j < |cs| ==>
      && hs[j].firstChunk == j + 1
      && hs[j].samplesPerChunk == cs[j].count
      && hs[j].m.offset == cs[j].offset
      && hs[j].m.sdi == cs[j].sdi
  }

  ghost predicate ChunksDone(ss: seq<Sample>, i: nat, h: int, count: nat, bytes: nat) {
    && LastHead(ss, i, h)
    && ChunksIn(Heads(ss[..i]), Chunks(Medias(ss)[..i]))
    && count == |Chunks(Medias(ss)[..i])| <= i
    && (i > 0 ==>
          && count > 0
          && ss[h].samplesPerChunk <= i
          && bytes == Chunks(Medias(ss)[..i])[count - 1].size)
  }

  lemma ChunksSnoc(ms: seq<Media>, i: nat)
    requires i < |ms|
    ensures Chunks(ms[..i + 1]) == AddToChunks(Chunks(ms[..i]), ms[i])
  {
    assert ms[..i + 1][..i] == ms[..i];
  }

  lemma OpenChunk(ss: seq<Sample>, i: nat, h: int, count: nat, bytes: nat)
    requires i < |ss| <= UINT32_MAX && ChunksDone(ss, i, h, count, bytes)
    requires i > 0 ==> ss[h].m.offset + bytes != ss[i].m.offset || ss[h].m.sdi != ss[i].m.sdi
    ensures Medias(Open(ss, i, count + 1, 1)) == Medias(ss)
    ensures ChunksDone(Open(ss, i, count + 1, 1), i + 1, i, count + 1, ss[i].m.bytes)
  {
    hide Heads, Chunks;
    OpenHeads(ss, i, h, count + 1, 1);
    ChunksSnoc(Medias(ss), i);
    if i > 0 {
      HeadsTail(ss[..i], h);
    } else {
      HeadsNone();
      assert ss[..0] == [] && Medias(ss)[..0] == [];
    }
  }

  lemma HeadsNone()
    ensures Heads([]) == [] && Chunks([]) == []
  {
  }

  lemma JoinChunk(ss: seq<Sample>, i: nat, h: nat, count: nat, bytes: nat)
    requires 0 < i < |ss| <= UINT32_MAX && ChunksDone(ss, i, h, count, bytes)
    requires ss[h].m.offset + bytes == ss[i].m.offset && ss[h].m.sdi == ss[i].m.sdi
    ensures var r := Join(ss, i, h, ss[h].firstChunk, ss[h].samplesPerChunk + 1);
      Medias(r) == Medias(ss) && ChunksDone(r, i + 1, h, count, bytes + ss[i].m.bytes)
  {
    hide Heads, Chunks;
    JoinHeads(ss, i, h, ss[h].firstChunk, ss[h].samplesPerChunk + 1);
    ChunksSnoc(Medias(ss), i);
    var cs := Chunks(Medias(ss)[..i]);
    var r := Join(ss, i, h, ss[h].firstChunk, ss[h].samplesPerChunk + 1);
    var cs' := Chunks(Medias(r)[..i + 1]);
    var hs := Heads(ss[..i]);
    assert hs[count - 1] == ss[h];
    assert ss[h].m.offset == cs[count - 1].offset && ss[h].m.sdi == cs[count - 1].sdi;
    assert cs' == AddToChunks(cs, ss[i].m) && Joins(cs[count - 1], ss[i].m);
    forall j | 0 <= j < count
      ensures var h' := Heads(r[..i + 1])[j];
        h'.firstChunk == j + 1 && h'.samplesPerChunk == cs'[j].count
        && h'.m.offset == cs'[j].offset && h'.m.sdi == cs'[j].sdi
    {
      assert hs[j].firstChunk == j + 1 && hs[j].samplesPerChunk == cs[j].count
             && hs[j].m.offset == cs[j].offset && hs[j].m.sdi == cs[j].sdi;
    }
    assert ChunksIn(Heads(r[..i + 1]), cs');
    assert LastHead(r, i + 1, h);
    assert count == |cs'| <= i + 1;
    assert r[h].samplesPerChunk <= i + 1;
    assert bytes + ss[i].m.bytes == cs'[count - 1].size;
  }

  lemma ChunksStart(ss: seq<Sample>)
    ensures ChunksDone(ss, 0, -1, 0, 0)
  {
  }

  lemma ChunksHead(ss: seq<Sample>, i: nat, h: int, count: nat, bytes: nat)
    requires ChunksDone(ss, i, h, count, bytes)
    ensures count <= i
    ensures i > 0 ==> 0 <= h < i && ss[h].samplesPerChunk <= i
  {
  }

  lemma ChunksEnd(ss: seq<Sample>, h: int, count: nat, bytes: nat)
    requires ChunksDone(ss, |ss|, h, count, bytes)
    ensures ChunksIn(Heads(ss), Chunks(Medias(ss))) && count == |Chunks(Medias(ss))|
  {
    assert ss[..|ss|] == ss && Medias(ss)[..|ss|] == Medias(ss);
  }
}
