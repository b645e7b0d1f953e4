/** Decode and composition times: the keys behind stts and ctts, the times a reader rebuilds from
    them, and exactly when those are the times that were written. */
module Timing {
  import opened Bytes
  import opened Runs
  import opened SampleTables

  // ---- Decode times ----

  /** The step to the next sample; 1 where it does not go up, and for the last sample. */
  function Delta(ms: seq<Media>, i: nat): uint32
    requires i < |ms|
  {
    U32(if i + 1 < |ms| && ms[i + 1].dts > ms[i].dts then ms[i + 1].dts - ms[i].dts else 1)
  }

  function Deltas(ms: seq<Media>): (ds: seq<uint32>)
    ensures |ds| == |ms|
  {
    seq(|ms|, i requires 0 <= i < |ms| => Delta(ms, i))
  }

  /** Decode times as a reader adds them up; one more than there are deltas. */
  function DtsFrom(first: int, ds: seq<uint32>): (r: seq<int>)
    ensures |r| == |ds| + 1
  {
    if ds == [] then [first] else
      var n := |ds| - 1;
      var r := DtsFrom(first, ds[..n]);
      r + [r[n] + ds[n]]
  }

  /** No sample is decoded before the one in front of it. */
  ghost predicate NeverBack(ms: seq<Media>) {
    forall i :: 0 <= i < |ms| - 1 ==> ms[i].dts <= ms[i + 1].dts
  }

  /** Nor so much later that the step does not fit its field. */
  ghost predicate DtsOrdered(ms: seq<Media>) {
    forall i :: 0 <= i < |ms| - 1 ==> 0 <= ms[i + 1].dts - ms[i].dts <= UINT32_MAX
  }

  /** How many of the first `i` steps stand still. */
  function Stalls(ms: seq<Media>, i: nat): nat
    requires i < |ms|
  {
    if i == 0 then 0 else Stalls(ms, i - 1) + (if ms[i].dts == ms[i - 1].dts then 1 else 0)
  }

  lemma {:induction false} DtsFromPrefix(first: int, ds: seq<uint32>, i: nat)
    requires i <= |ds|
    ensures DtsFrom(first, ds)[i] == DtsFrom(first, ds[..i])[i]
    decreases |ds|
  {
    if i < |ds| {
      DtsFromPrefix(first, ds[..|ds| - 1], i);
      assert ds[..|ds| - 1][..i] == ds[..i];
    } else {
      assert ds[..i] == ds;
    }
  }

  lemma {:induction false} DtsFromStep(first: int, ds: seq<uint32>, i: nat)
    requires i < |ds|
    ensures DtsFrom(first, ds)[i + 1] == DtsFrom(first, ds)[i] + ds[i]
  {
    DtsFromPrefix(first, ds, i);
    DtsFromPrefix(first, ds, i + 1);
    assert ds[..i + 1][..i] == ds[..i];
  }

  /** Rebuilt decode times keep every distance but gain one tick at every standstill. */
  lemma {:induction false} DtsRebuilt(ms: seq<Media>, first: int, i: nat)
    requires DtsOrdered(ms) && i < |ms|
    ensures DtsFrom(first, Deltas(ms))[i] == first + (ms[i].dts - ms[0].dts) + Stalls(ms, i)
  {
    if i == 0 {
      DtsFromPrefix(first, Deltas(ms), 0);
    } else {
      DtsRebuilt(ms, first, i - 1);
      DtsFromStep(first, Deltas(ms), i - 1);
    }
  }

  /** Every step goes up, and fits its field. */
  ghost predicate StepsKept(ms: seq<Media>) {
    forall i :: 0 <= i < |ms| - 1 ==> 0 < ms[i + 1].dts - ms[i].dts <= UINT32_MAX
  }

  lemma {:induction false} StallsZero(ms: seq<Media>, i: nat)
    requires StepsKept(ms) && i < |ms|
    ensures Stalls(ms, i) == 0
  {
    if i > 0 {
      StallsZero(ms, i - 1);
      assert ms[i - 1].dts < ms[i - 1 + 1].dts;
    }
  }

  /** All decode times come back exactly when the base is right, no step stands still or goes back,
      and each fits 32 bits. */
  lemma DtsExact(ms: seq<Media>, first: int)
    requires ms != []
    ensures (forall i :: 0 <= i < |ms| ==> DtsFrom(first, Deltas(ms))[i] == ms[i].dts)
        <==> first == ms[0].dts && StepsKept(ms)
  {
    hide DtsFrom;
    var r := DtsFrom(first, Deltas(ms));
    DtsFromFirst(first, Deltas(ms));
    if first == ms[0].dts && StepsKept(ms) {
      forall i | 0 <= i < |ms|
        ensures r[i] == ms[i].dts
      {
        DtsRebuilt(ms, first, i);
        StallsZero(ms, i);
      }
    }
    if forall i :: 0 <= i < |ms| ==> r[i] == ms[i].dts {
      assert r[0] == ms[0].dts;
      forall i | 0 <= i < |ms| - 1
        ensures 0 < ms[i + 1].dts - ms[i].dts <= UINT32_MAX
      {
        DtsFromStep(first, Deltas(ms), i);
        assert r[i] == ms[i].dts && r[i + 1] == ms[i + 1].dts;
      }
    }
  }

  /** Two samples decoded at the same time: the second comes back one tick late. */
  lemma StandstillMoved(m: Media)
    ensures DtsFrom(m.dts, Deltas([m, m]))[1] == m.dts + 1
  {
    DtsFromStep(m.dts, Deltas([m, m]), 0);
    DtsFromFirst(m.dts, Deltas([m, m]));
  }

  lemma {:induction false} DtsFromFirst(first: int, ds: seq<uint32>)
    ensures DtsFrom(first, ds)[0] == first
  {
    DtsFromPrefix(first, ds, 0);
  }

  // ---- Composition offsets ----

  function Cts(m: Media): int { m.pts - m.dts }

  function Offsets(ms: seq<Media>): (os: seq<uint32>)
    ensures |os| == |ms|
  {
    seq(|ms|, i requires 0 <= i < |ms| => U32(Cts(ms[i])))
  }

  /** Every composition offset fits the signed 32-bit field. */
  ghost predicate CtsFit(ms: seq<Media>) {
    forall i :: 0 <= i < |ms| ==> -0x8000_0000 <= Cts(ms[i]) < 0x8000_0000
  }

  /** One more table entry in the search for the shift: -1 does not count. */
  function MinShift(shift: int32, v: uint32): (s: int32) {
    var d := S32(v);
    if d < 0 && shift > d && d != -1 then d else shift
  }

  /** The shift over a whole table, and over the single offsets it stands for. */
  function ShiftOf(rs: seq<Run>): (s: int32) {
    if rs == [] then 0 else MinShift(ShiftOf(rs[..|rs| - 1]), rs[|rs| - 1].value)
  }

  function ShiftOver(os: seq<uint32>): (s: int32) {
    if os == [] then 0 else MinShift(ShiftOver(os[..|os| - 1]), os[|os| - 1])
  }

  lemma {:induction false} ShiftSnoc(rs: seq<Run>, r: Run)
    ensures ShiftOf(rs + [r]) == MinShift(ShiftOf(rs), r.value)
  {
    assert (rs + [r])[..|rs|] == rs;
  }

  lemma {:induction false} ShiftCompress(os: seq<uint32>)
    ensures ShiftOf(Compress(os)) == ShiftOver(os)
  {
    if os != [] {
      var n := |os| - 1;
      ShiftCompress(os[..n]);
      var rs := Compress(os[..n]);
      if rs != [] && rs[|rs| - 1].value == os[n] {
        var f, c := rs[..|rs| - 1], rs[|rs| - 1].count;
        assert rs == f + [Run(c, os[n])];
        ShiftSnoc(f, Run(c, os[n]));
        ShiftSnoc(f, Run(c + 1, os[n]));
      } else {
        ShiftSnoc(rs, Run(1, os[n]));
      }
    }
  }

  /** The shift is the least offset below -1, or 0 when there is none. */
  lemma {:induction false} ShiftIsLeast(ms: seq<Media>)
    requires CtsFit(ms)
    ensures ShiftOver(Offsets(ms)) <= 0
    ensures forall i :: 0 <= i < |ms| && Cts(ms[i]) < -1 ==> ShiftOver(Offsets(ms)) <= Cts(ms[i])
    ensures ShiftOver(Offsets(ms)) < 0 ==>
      exists i :: 0 <= i < |ms| && Cts(ms[i]) == ShiftOver(Offsets(ms)) && Cts(ms[i]) < -1
  {
    if ms != [] {
      var n := |ms| - 1;
      ShiftIsLeast(ms[..n]);
      assert Offsets(ms)[..n] == Offsets(ms[..n]);
      CtsCode(ms[n]);
      var s := ShiftOver(Offsets(ms));
      if s < 0 {
        if s == Cts(ms[n]) && s < -1 {
        } else {
          var i :| 0 <= i < n && Cts(ms[..n][i]) == s && Cts(ms[..n][i]) < -1;
          assert ms[i] == ms[..n][i];
        }
      }
      forall i | 0 <= i < |ms| && Cts(ms[i]) < -1
        ensures s <= Cts(ms[i])
      {
        if i < n {
          assert ms[..n][i] == ms[i];
        }
      }
    }
  }

  lemma CtsCode(m: Media)
    requires -0x8000_0000 <= Cts(m) < 0x8000_0000
    ensures S32(U32(Cts(m))) == Cts(m)
  {
  }

  /** A presentation time as the reader rebuilds it on top of the rebuilt decode time. */
  function PtsFrom(dts: int, offset: uint32, shift: int32): int {
    dts + (S32(offset) - shift)
  }

  /** Every offset comes back, up to one shift shared by the whole track. */
  lemma CtsRebuilt(ms: seq<Media>, dts: int, i: nat)
    requires CtsFit(ms) && i < |ms|
    ensures PtsFrom(dts, Offsets(ms)[i], ShiftOf(Compress(Offsets(ms))))
         == dts + Cts(ms[i]) - ShiftOver(Offsets(ms))
  {
    CtsCode(ms[i]);
    ShiftCompress(Offsets(ms));
  }

  /** The shift brings every presentation time up to its decode time exactly when an offset below -1
      made it move, or there was no offset of -1 to move. */
  lemma ShiftedNotNegative(ms: seq<Media>)
    requires CtsFit(ms)
    ensures (forall i :: 0 <= i < |ms| ==> Cts(ms[i]) - ShiftOver(Offsets(ms)) >= 0)
        <==> (exists i :: 0 <= i < |ms| && Cts(ms[i]) < -1) || (forall i :: 0 <= i < |ms| ==> Cts(ms[i]) != -1)
  {
    ShiftIsLeast(ms);
    var s := ShiftOver(Offsets(ms));
    if i :| 0 <= i < |ms| && Cts(ms[i]) < -1 {
      assert s < -1;
    } else if j :| 0 <= j < |ms| && Cts(ms[j]) == -1 {
      assert s == 0;
      assert Cts(ms[j]) - s < 0;
    }
  }

  /** A sample presented one tick before it is decoded, alone in its track, stays there. */
  lemma OneTickEarly(m: Media)
    requires m.pts == m.dts - 1
    ensures Cts(m) - ShiftOver(Offsets([m])) == -1
  {
    ShiftIsLeast([m]);
    assert Cts([m][0]) == -1;
  }

  /** The offsets themselves come back exactly when none is below -1. */
  lemma ShiftZero(ms: seq<Media>)
    requires CtsFit(ms)
    ensures ShiftOver(Offsets(ms)) == 0 <==> forall i :: 0 <= i < |ms| ==> Cts(ms[i]) >= -1
  {
    ShiftIsLeast(ms);
  }
}
