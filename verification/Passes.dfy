/** Single steps of the passes that turn tables into samples, next to the functions that say the outcome. */
module Passes {
  import opened Bytes
  import opened Runs
  import opened SampleTables
  import opened Timing
  import opened TrackBoxes
  import opened Options
  import opened BoxParser

  // ---- Chunk offsets ----

  lemma {:induction false} TotalFront(cs: seq<Chunk>, c: nat)
    requires c <= |cs|
    ensures Total(cs[..c]) <= Total(cs)
    ensures c < |cs| ==> Total(cs[..c + 1]) == Total(cs[..c]) + cs[c].count
    decreases |cs|
  {
    if c < |cs| {
      assert cs[..c + 1] == cs[..c] + [cs[c]];
      TotalSnoc(cs[..c], cs[c]);
      TotalUp(cs, c + 1);
    } else {
      assert cs[..c] == cs;
    }
  }

  lemma {:induction false} TotalUp(cs: seq<Chunk>, c: nat)
    requires c <= |cs|
    ensures Total(cs[..c]) <= Total(cs)
    decreases |cs|
  {
    if c < |cs| {
      TotalUp(cs[..|cs| - 1], c);
      assert cs[..|cs| - 1][..c] == cs[..c];
    } else {
      assert cs[..c] == cs;
    }
  }

  lemma {:induction false} PlaceChunkAt(offset: nat, sizes: seq<uint32>, sdi: uint32, k: nat)
    requires k < |sizes|
    ensures PlaceChunk(offset, sizes, sdi)[k] == Spot(offset + Sum(sizes[..k]), sdi)
    decreases |sizes|
  {
    var n := |sizes| - 1;
    if k < n {
      PlaceChunkAt(offset, sizes[..n], sdi, k);
      assert sizes[..n][..k] == sizes[..k];
    }
  }

  /** Sample `k` of chunk `c` lies behind the earlier samples of that chunk. */
  lemma {:induction false} PlaceAt(cs: seq<Chunk>, sizes: seq<uint32>, c: nat, k: nat)
    requires Total(cs) <= |sizes| && c < |cs| && k < cs[c].count
    ensures var t := Total(cs[..c]);
      t + cs[c].count <= Total(cs) && Place(cs, sizes)[t + k] == Spot(cs[c].offset + Sum(sizes[t..t + k]), cs[c].sdi)
    decreases |cs|
  {
    hide Sum, PlaceChunk;
    var n := |cs| - 1;
    TotalFront(cs, c);
    TotalUp(cs, c + 1);
    if c < n {
      PlaceAt(cs[..n], sizes, c, k);
      assert cs[..n][..c] == cs[..c];
    } else {
      var t := Total(cs[..n]);
      var own := sizes[t..t + cs[n].count];
      PlaceChunkAt(cs[n].offset, own, cs[n].sdi, k);
      assert own[..k] == sizes[t..t + k];
    }
  }

  lemma {:induction false} SumNext(sizes: seq<uint32>, t: nat, k: nat)
    requires t + k < |sizes|
    ensures Sum(sizes[t..t + k + 1]) == Sum(sizes[t..t + k]) + sizes[t + k]
  {
    var s := sizes[t..t + k + 1];
    assert s[..k] == sizes[t..t + k] && s[k] == sizes[t + k];
  }

  lemma SumNone()
    ensures Sum([]) == 0
  {
  }

  lemma TotalNone()
    ensures Total([]) == 0
  {
  }

  /** The first chunk of each entry, with one entry behind the last chunk. */
  lemma TableUp(es: seq<Stsc>, chunks: nat, i: nat)
    requires es != [] && StscUp(es, chunks) && i < |es|
    ensures var t := es + [Stsc(chunks + 1, 0, 0)];
      1 <= t[i].first <= t[i + 1].first <= chunks + 1
  {
    FirstsIncrease(es, 0, i, chunks);
    if i + 1 < |es| {
      FirstsIncrease(es, i + 1, |es| - 1, chunks);
    }
  }

  function SetSpot(m: Media, s: Spot): Media {
    m.(offset := s.offset, sdi := s.sdi)
  }

  // ---- Times ----

  /** Key number `j` of run `i`. */
  lemma {:induction false} ExpandAt(rs: seq<Run>, i: nat, j: nat)
    requires i < |rs| && j < rs[i].count
    ensures Counts(rs[..i]) + rs[i].count <= Counts(rs) == |Expand(rs)|
    ensures Expand(rs)[Counts(rs[..i]) + j] == rs[i].value
    decreases |rs|
  {
    var n := |rs| - 1;
    ExpandLength(rs);
    ExpandLength(rs[..n]);
    if i < n {
      ExpandAt(rs[..n], i, j);
      assert rs[..n][..i] == rs[..i];
    }
  }

  lemma {:induction false} CountsFront(rs: seq<Run>, i: nat)
    requires i < |rs|
    ensures Counts(rs[..i + 1]) == Counts(rs[..i]) + rs[i].count
    ensures Counts(rs[..i + 1]) <= Counts(rs)
  {
    assert rs[..i + 1][..i] == rs[..i];
    CountsUp(rs, i + 1);
  }

  lemma {:induction false} CountsUp(rs: seq<Run>, i: nat)
    requires i <= |rs|
    ensures Counts(rs[..i]) <= Counts(rs)
    decreases |rs|
  {
    if i < |rs| {
      CountsUp(rs[..|rs| - 1], i);
      assert rs[..|rs| - 1][..i] == rs[..i];
    } else {
      assert rs[..i] == rs;
    }
  }

  lemma CountsNone()
    ensures Counts([]) == 0
  {
  }

  lemma ShiftNone()
    ensures ShiftOf([]) == 0
  {
  }

  function SetDts(m: Media, t: int): Media {
    m.(dts := t, pts := t)
  }

  function MarkKey(flags: int): int {
    if flags % 2 == KEYFRAME then flags else flags + KEYFRAME
  }
}
