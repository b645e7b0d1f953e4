/** The boxes of a movie fragment as byte strings: the reference for the writers that run over them
    twice (sections 8.8.4 to 8.8.12 of ISO/IEC 14496-12). */
module FragmentBoxes {
  import opened Bytes
  import opened SampleTables
  import opened Timing
  import opened TrackBoxes

  // Flags of tfhd and trun.
  const TFHD_BASE_DATA_OFFSET := 0x1
  const TFHD_SAMPLE_DESCRIPTION_INDEX := 0x2
  const TFHD_DEFAULT_DURATION := 0x8
  const TFHD_DEFAULT_SIZE := 0x10
  const TFHD_DEFAULT_FLAGS := 0x20
  const TFHD_DEFAULT_BASE_IS_MOOF := 0x2_0000
  const TRUN_DATA_OFFSET := 0x1
  const TRUN_FIRST_SAMPLE_FLAGS := 0x4
  const TRUN_DURATION := 0x100
  const TRUN_SIZE := 0x200
  const TRUN_FLAGS := 0x400
  const TRUN_CTS := 0x800

  predicate Has(flags: nat, bit: nat)
    requires bit > 0
  {
    flags / bit % 2 == 1
  }

  // Sample flags.
  const NO_SYNC_SAMPLE := 0x1_0000
  const DEPENDS_ON_NOT_I_PICTURE := 0x100_0000
  const DEPENDS_ON_I_PICTURE := 0x200_0000

  /** A track as the writers of `traf` see it: its queue, its very first decode time, and the duration
      that is assumed for the last sample. */
  datatype TrackF = TrackF(id: uint32, handler: Handler, ms: seq<Media>, start: int, last: int)

  function Duration(v: TrackF, i: nat): uint32
    requires i < |v.ms|
  {
    U32(if i + 1 < |v.ms| then v.ms[i + 1].dts - v.ms[i].dts else v.last)
  }

  function DefaultFlags(handler: Handler): uint32 {
    if handler == Audio then DEPENDS_ON_I_PICTURE else NO_SYNC_SAMPLE + DEPENDS_ON_NOT_I_PICTURE
  }

  /** What tfhd sets for every track that has samples. */
  const TFHD_FLAGS: uint24 :=
    TFHD_DEFAULT_FLAGS + TFHD_SAMPLE_DESCRIPTION_INDEX + TFHD_DEFAULT_BASE_IS_MOOF + TFHD_DEFAULT_DURATION
    + TFHD_DEFAULT_SIZE

  function TfhdBox(v: TrackF): (b: seq<byte>)
    requires v.ms != []
    ensures |b| == 32
  {
    FullBox("tfhd", 0, TFHD_FLAGS,
            BE32(v.id) + BE32(1) + BE32(Duration(v, 0)) + BE32(v.ms[0].bytes) + BE32(DefaultFlags(v.handler)))
  }

  function BaseDecodeTime(v: TrackF): uint64
    requires v.ms != []
  {
    U64(v.ms[0].dts - v.start)
  }

  function TfdtBox(v: TrackF): (b: seq<byte>)
    requires v.ms != []
    ensures |b| == if BaseDecodeTime(v) > INT32_MAX then 20 else 16
  {
    if BaseDecodeTime(v) > INT32_MAX then FullBox("tfdt", 1, 0, BE64(BaseDecodeTime(v)))
    else FullBox("tfdt", 0, 0, BE32(BaseDecodeTime(v)))
  }

  /** The optional fields of a run. */
  datatype Choice = Choice(first: bool, durations: bool, sizes: bool, cts: bool) {
    function Flags(): uint24 {
      TRUN_DATA_OFFSET + (if first then TRUN_FIRST_SAMPLE_FLAGS else 0) + (if durations then TRUN_DURATION else 0)
      + (if sizes then TRUN_SIZE else 0) + (if cts then TRUN_CTS else 0)
    }

    function EntrySize(): nat {
      (if durations then 4 else 0) + (if sizes then 4 else 0) + (if cts then 4 else 0)
    }
  }

  /** A field is there when some sample of the run needs it. */
  function ChoiceOf(v: TrackF, from: nat, count: nat): Choice
    requires 0 < count && from + count <= |v.ms|
  {
    Choice(IsKey(v.ms[from]),
           exists i :: from <= i < from + count && Duration(v, i) != Duration(v, 0),
           exists i :: from <= i < from + count && v.ms[i].bytes != v.ms[0].bytes,
           exists i :: from <= i < from + count && v.ms[i].pts != v.ms[i].dts)
  }

  function TrunEntry(v: TrackF, i: nat, c: Choice): (b: seq<byte>)
    requires i < |v.ms|
    ensures |b| == c.EntrySize()
  {
    (if c.durations then BE32(Duration(v, i)) else [])
    + (if c.sizes then BE32(v.ms[i].bytes) else [])
    + (if c.cts then BE32(U32(v.ms[i].pts - v.ms[i].dts)) else [])
  }

  function TrunEntries(v: TrackF, from: nat, count: nat, c: Choice): (b: seq<byte>)
    requires from + count <= |v.ms|
  {
    if count == 0 then [] else TrunEntries(v, from, count - 1, c) + TrunEntry(v, from + count - 1, c)
  }

  lemma {:induction false} TrunEntriesLength(v: TrackF, from: nat, count: nat, c: Choice)
    requires from + count <= |v.ms|
    ensures |TrunEntries(v, from, count, c)| == count * c.EntrySize()
  {
    if count > 0 {
      TrunEntriesLength(v, from, count - 1, c);
      assert count * c.EntrySize() == (count - 1) * c.EntrySize() + c.EntrySize();
    }
  }

  function TrunHead(v: TrackF, from: nat, count: nat, moof: nat): (b: seq<byte>)
    requires 0 < count && from + count <= |v.ms|
  {
    BE32(U32(count)) + BE32(U32(moof + v.ms[from].offset))
    + (if IsKey(v.ms[from]) then BE32(DEPENDS_ON_I_PICTURE) else [])
  }

  function TrunBox(v: TrackF, from: nat, count: nat, moof: nat): (b: seq<byte>)
    requires 0 < count && from + count <= |v.ms|
  {
    var c := ChoiceOf(v, from, count);
    FullBox("trun", 1, c.Flags(), TrunHead(v, from, count, moof) + TrunEntries(v, from, count, c))
  }

  predicate Follows(a: Media, b: Media) { a.offset + a.bytes == b.offset }

  /** Where the contiguous run that ends with sample `i` starts. */
  function RunStart(ms: seq<Media>, i: nat): (s: nat)
    requires i < |ms|
    ensures s <= i
  {
    if i > 0 && Follows(ms[i - 1], ms[i]) then RunStart(ms, i - 1) else i
  }

  /** The runs that end before sample `i`, one trun each. */
  function TrunsBefore(v: TrackF, i: nat, moof: nat): (b: seq<byte>)
    requires 0 < i <= |v.ms|
  {
    if i == 1 then [] else
      TrunsBefore(v, i - 1, moof)
      + (if Follows(v.ms[i - 2], v.ms[i - 1]) then [] else
           var s := RunStart(v.ms, i - 2);
           TrunBox(v, s, i - 1 - s, moof))
  }

  function Truns(v: TrackF, moof: nat): (b: seq<byte>)
    requires v.ms != []
  {
    var n := |v.ms|;
    var s := RunStart(v.ms, n - 1);
    TrunsBefore(v, n, moof) + TrunBox(v, s, n - s, moof)
  }

  function TrafBody(v: TrackF, moof: nat): (b: seq<byte>)
    requires v.ms != []
  {
    TfhdBox(v) + TfdtBox(v) + Truns(v, moof)
  }

  function TrafBox(v: TrackF, moof: nat): (b: seq<byte>)
    requires v.ms != []
  {
    Box("traf", TrafBody(v, moof))
  }

  function Trafs(vs: seq<TrackF>, moof: nat): (b: seq<byte>) {
    if vs == [] then [] else
      var n := |vs| - 1;
      Trafs(vs[..n], moof) + (if vs[n].ms == [] then [] else TrafBox(vs[n], moof))
  }

  function MfhdBox(fragment: nat): (b: seq<byte>)
    ensures |b| == 16
  {
    FullBox("mfhd", 0, 0, BE32(U32(fragment)))
  }

  function MoofBox(vs: seq<TrackF>, fragment: nat, moof: nat): (b: seq<byte>) {
    Box("moof", MfhdBox(fragment) + Trafs(vs, moof))
  }

  // ---- The data offsets change no size: both passes are equally long ----

  lemma TrunSize(v: TrackF, from: nat, count: nat, a: nat, b: nat)
    requires 0 < count && from + count <= |v.ms|
    ensures |TrunBox(v, from, count, a)| == |TrunBox(v, from, count, b)|
  {
    hide TrunEntries, BE32;
  }

  lemma {:induction false} TrunsBeforeSize(v: TrackF, i: nat, a: nat, b: nat)
    requires 0 < i <= |v.ms|
    ensures |TrunsBefore(v, i, a)| == |TrunsBefore(v, i, b)|
  {
    hide TrunBox;
    if i > 1 {
      TrunsBeforeSize(v, i - 1, a, b);
      var s := RunStart(v.ms, i - 2);
      TrunSize(v, s, i - 1 - s, a, b);
    }
  }

  lemma TrunsSize(v: TrackF, a: nat, b: nat)
    requires v.ms != []
    ensures |Truns(v, a)| == |Truns(v, b)|
  {
    hide TrunBox, TrunsBefore;
    var s := RunStart(v.ms, |v.ms| - 1);
    TrunsBeforeSize(v, |v.ms|, a, b);
    TrunSize(v, s, |v.ms| - s, a, b);
  }

  lemma {:induction false} TrafsSize(vs: seq<TrackF>, a: nat, b: nat)
    ensures |Trafs(vs, a)| == |Trafs(vs, b)|
  {
    hide Truns, TfhdBox, TfdtBox;
    if vs != [] {
      var n := |vs| - 1;
      TrafsSize(vs[..n], a, b);
      if vs[n].ms != [] {
        TrunsSize(vs[n], a, b);
      }
    }
  }

  lemma MoofSize(vs: seq<TrackF>, fragment: nat, a: nat, b: nat)
    ensures |MoofBox(vs, fragment, a)| == |MoofBox(vs, fragment, b)|
  {
    hide Trafs, MfhdBox;
    TrafsSize(vs, a, b);
  }

  // ---- The offsets that moof gives to the samples: one track behind the other ----

  /** The samples laid out one behind the other from `n` on. */
  function Laid(ms: seq<Media>, n: nat): (r: seq<Media>)
    ensures |r| == |ms|
  {
    if ms == [] then [] else
      var k := |ms| - 1;
      Laid(ms[..k], n) + [ms[k].(offset := n + Sum(Sizes(ms[..k])))]
  }

  function LaidAll(vs: seq<TrackF>): (r: seq<TrackF>)
    ensures |r| == |vs|
  {
    if vs == [] then [] else
      var k := |vs| - 1;
      LaidAll(vs[..k]) + [vs[k].(ms := Laid(vs[k].ms, Bulk(vs[..k])))]
  }

  /** Bytes queued in all the tracks. */
  function Bulk(vs: seq<TrackF>): nat {
    if vs == [] then 0 else Bulk(vs[..|vs| - 1]) + Sum(Sizes(vs[|vs| - 1].ms))
  }

  lemma {:induction false} LaidAt(ms: seq<Media>, n: nat, i: nat)
    requires i < |ms|
    ensures Laid(ms, n)[i] == ms[i].(offset := n + Sum(Sizes(ms[..i])))
  {
    var k := |ms| - 1;
    if i < k {
      LaidAt(ms[..k], n, i);
      assert ms[..k][..i] == ms[..i];
    }
  }

  lemma {:induction false} LaidAllAt(vs: seq<TrackF>, i: nat)
    requires i < |vs|
    ensures LaidAll(vs)[i] == vs[i].(ms := Laid(vs[i].ms, Bulk(vs[..i])))
  {
    hide Laid;
    var k := |vs| - 1;
    if i < k {
      LaidAllAt(vs[..k], i);
      assert vs[..k][..i] == vs[..i];
    }
  }

  lemma LaidFollows(ms: seq<Media>, n: nat, i: nat)
    requires i + 1 < |ms|
    ensures Follows(Laid(ms, n)[i], Laid(ms, n)[i + 1])
  {
    LaidAt(ms, n, i);
    LaidAt(ms, n, i + 1);
    assert Sizes(ms[..i + 1]) == Sizes(ms[..i]) + [ms[i].bytes];
  }

  lemma {:induction false} OneRun(ms: seq<Media>, i: nat)
    requires i < |ms| && forall k :: 0 <= k < |ms| - 1 ==> Follows(ms[k], ms[k + 1])
    ensures RunStart(ms, i) == 0
  {
    if i > 0 {
      OneRun(ms, i - 1);
      assert Follows(ms[i - 1], ms[i - 1 + 1]);
    }
  }

  lemma {:induction false} NoTrunsBefore(v: TrackF, i: nat, moof: nat)
    requires 0 < i <= |v.ms| && forall k :: 0 <= k < |v.ms| - 1 ==> Follows(v.ms[k], v.ms[k + 1])
    ensures TrunsBefore(v, i, moof) == []
  {
    if i > 1 {
      NoTrunsBefore(v, i - 1, moof);
      assert Follows(v.ms[i - 2], v.ms[i - 2 + 1]);
    }
  }

  /** Laid-out samples make a single run. */
  lemma OneTrun(v: TrackF, n: nat, moof: nat)
    requires v.ms != []
    ensures var w := v.(ms := Laid(v.ms, n));
      Truns(w, moof) == TrunBox(w, 0, |w.ms|, moof)
  {
    hide TrunBox, Laid, Follows;
    var w := v.(ms := Laid(v.ms, n));
    forall k | 0 <= k < |w.ms| - 1
      ensures Follows(w.ms[k], w.ms[k + 1])
    {
      LaidFollows(v.ms, n, k);
    }
    OneRun(w.ms, |w.ms| - 1);
    NoTrunsBefore(w, |w.ms|, moof);
  }

  /** Two samples that do not lie one behind the other make two runs. */
  lemma TwoRuns(v: TrackF, moof: nat)
    requires |v.ms| == 2
    ensures Truns(v, moof) == if v.ms[0].offset + v.ms[0].bytes == v.ms[1].offset then TrunBox(v, 0, 2, moof)
                              else TrunBox(v, 0, 1, moof) + TrunBox(v, 1, 1, moof)
  {
    hide TrunBox;
    assert TrunsBefore(v, 1, moof) == [] && RunStart(v.ms, 0) == 0;
    assert RunStart(v.ms, 1) == if Follows(v.ms[0], v.ms[1]) then 0 else 1;
    assert TrunsBefore(v, 2, moof) == [] + if Follows(v.ms[0], v.ms[1]) then [] else TrunBox(v, 0, 1, moof);
  }

  lemma LaidSizes(ms: seq<Media>, n: nat)
    ensures Sizes(Laid(ms, n)) == Sizes(ms)
  {
    hide Laid, Sum;
    forall i | 0 <= i < |ms|
      ensures Sizes(Laid(ms, n))[i] == Sizes(ms)[i]
    {
      LaidAt(ms, n, i);
    }
  }

  lemma {:induction false} LaidBulk(vs: seq<TrackF>)
    ensures Bulk(LaidAll(vs)) == Bulk(vs)
  {
    hide Laid, Sum, Sizes;
    if vs != [] {
      var k := |vs| - 1;
      LaidBulk(vs[..k]);
      LaidSizes(vs[k].ms, Bulk(vs[..k]));
      assert LaidAll(vs)[..k] == LaidAll(vs[..k]);
    }
  }

  /** Laying out what has been laid out changes nothing. */
  lemma {:induction false} LaidAgain(ms: seq<Media>, n: nat)
    ensures Laid(Laid(ms, n), n) == Laid(ms, n)
  {
    if ms != [] {
      var k := |ms| - 1;
      LaidAgain(ms[..k], n);
      LaidSizes(ms[..k], n);
      assert Laid(ms, n)[..k] == Laid(ms[..k], n);
    }
  }

  lemma {:induction false} LaidAllAgain(vs: seq<TrackF>)
    ensures LaidAll(LaidAll(vs)) == LaidAll(vs)
  {
    hide Laid, Sum, Sizes, Bulk;
    if vs != [] {
      var k := |vs| - 1;
      LaidAllAgain(vs[..k]);
      LaidBulk(vs[..k]);
      LaidAgain(vs[k].ms, Bulk(vs[..k]));
      assert LaidAll(vs)[..k] == LaidAll(vs[..k]);
    }
  }

  // ---- Times ----

  /** The durations of the first `j` samples added up. */
  function Elapsed(v: TrackF, j: nat): nat
    requires j <= |v.ms|
  {
    if j == 0 then 0 else Elapsed(v, j - 1) + Duration(v, j - 1)
  }

  /** The duration assumed for the last sample fits its field. */
  predicate LastFits(v: TrackF) { 0 <= v.last <= UINT32_MAX }

  /** Durations add up to distances. */
  lemma {:induction false} ElapsedIs(v: TrackF, j: nat)
    requires v.ms != [] && DtsOrdered(v.ms) && j < |v.ms|
    ensures Elapsed(v, j) == v.ms[j].dts - v.ms[0].dts
  {
    if j > 0 {
      ElapsedIs(v, j - 1);
      assert 0 <= v.ms[j - 1 + 1].dts - v.ms[j - 1].dts <= UINT32_MAX;
    }
  }

  function BeginTime(v: TrackF): int
    requires v.ms != []
  {
    v.ms[0].dts - v.start
  }

  function EndTime(v: TrackF): int
    requires v.ms != []
  {
    BeginTime(v) + Elapsed(v, |v.ms|)
  }

  lemma EndTimeIs(v: TrackF)
    requires v.ms != [] && DtsOrdered(v.ms) && LastFits(v)
    ensures EndTime(v) == v.ms[|v.ms| - 1].dts + v.last - v.start
  {
    ElapsedIs(v, |v.ms| - 1);
  }
}
