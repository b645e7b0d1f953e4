/** How much `moov` grows when it is moved in front of the media data: the growth pushes chunk
    offsets past 32 bits, and wider offsets are themselves part of the growth. */
module Co64 {
  import opened Bytes
  import opened Runs
  import opened SampleTables
  import opened Timing
  import opened TrackBoxes

  /** By how much the chunk offset table of a track widens when all offsets go up by `up`. */
  function Grow(v: TrackV, up: nat): nat {
    if v.ms == [] then 0 else
      var last := v.ms[|v.ms| - 1].offset + v.shift;
      if last > UINT32_MAX || last + up <= UINT32_MAX then 0 else 4 * |Chunks(v.ms)|
  }

  function TotalGrow(vs: seq<TrackV>, up: nat): nat {
    if vs == [] then 0 else TotalGrow(vs[..|vs| - 1], up) + Grow(vs[|vs| - 1], up)
  }

  /** How many tracks switch from 32-bit to 64-bit offsets. */
  function Switching(vs: seq<TrackV>, up: nat): (n: nat)
    ensures n <= |vs|
  {
    if vs == [] then 0 else
      Switching(vs[..|vs| - 1], up) + (if Grow(vs[|vs| - 1], up) > 0 then 1 else 0)
  }

  lemma GrowMonotone(v: TrackV, a: nat, b: nat)
    requires a <= b
    ensures Grow(v, a) == 0 || Grow(v, a) == Grow(v, b)
  {
  }

  lemma {:induction false} TotalGrowMonotone(vs: seq<TrackV>, a: nat, b: nat)
    requires a <= b
    ensures TotalGrow(vs, a) <= TotalGrow(vs, b)
    ensures Switching(vs, a) <= Switching(vs, b)
    ensures TotalGrow(vs, a) < TotalGrow(vs, b) ==> Switching(vs, a) < Switching(vs, b)
    ensures TotalGrow(vs, a) > 0 ==> Switching(vs, a) > 0
  {
    if vs != [] {
      TotalGrowMonotone(vs[..|vs| - 1], a, b);
      GrowMonotone(vs[|vs| - 1], a, b);
    }
  }

  /** `g` is the growth that accounts for itself, on top of moving by the unwidened size. */
  ghost predicate Settled(vs: seq<TrackV>, moov: nat, g: nat) {
    TotalGrow(vs, moov + g) == g
  }

  ghost predicate LeastSettled(vs: seq<TrackV>, moov: nat, g: nat) {
    Settled(vs, moov, g) && forall f: nat :: Settled(vs, moov, f) ==> g <= f
  }

  /** From below any settled growth, one more round stays below it. */
  lemma RoundStaysBelow(vs: seq<TrackV>, moov: nat, sz: nat)
    requires forall f: nat :: Settled(vs, moov, f) ==> sz <= f
    ensures forall f: nat :: Settled(vs, moov, f) ==> TotalGrow(vs, moov + sz) <= f
  {
    forall f: nat | Settled(vs, moov, f)
      ensures TotalGrow(vs, moov + sz) <= f
    {
      TotalGrowMonotone(vs, moov + sz, moov + f);
    }
  }

  // ---- What moving does to the bytes of moov ----

  function ShiftBy(v: TrackV, up: nat): TrackV {
    v.(shift := v.shift + up)
  }

  function ShiftAll(vs: seq<TrackV>, up: nat): (r: seq<TrackV>)
    ensures |r| == |vs|
  {
    seq(|vs|, i requires 0 <= i < |vs| => ShiftBy(vs[i], up))
  }

  lemma StcoGrows(v: TrackV, up: nat)
    requires v.ms != []
    ensures |StcoBox(v.ms, v.shift + up)| == |StcoBox(v.ms, v.shift)| + Grow(v, up)
  {
  }

  lemma TrakGrows(v: TrackV, up: nat)
    requires v.ms != []
    ensures |TrakBox(ShiftBy(v, up))| == |TrakBox(v)| + Grow(v, up)
  {
    hide StcoBox, Grow, StscBox, StszBox, TimeTables, TkhdBox, EdtsBox, MdhdBox, HdlrBox, MediaHeaderBox, DinfBox, Box;
    StcoGrows(v, up);
    assert TimeTables(ShiftBy(v, up)) == TimeTables(v) by { SameTimeTables(v, ShiftBy(v, up)); }
    assert |StblBody(ShiftBy(v, up))| == |StblBody(v)| + Grow(v, up);
  }

  lemma SameTimeTables(a: TrackV, b: TrackV)
    requires b == a.(shift := b.shift)
    ensures TimeTables(b) == TimeTables(a)
  {
  }

  lemma {:induction false} TraksGrow(vs: seq<TrackV>, up: nat)
    ensures |Traks(ShiftAll(vs, up))| == |Traks(vs)| + TotalGrow(vs, up)
  {
    hide TrakBox;
    if vs != [] {
      var n := |vs| - 1;
      TraksGrow(vs[..n], up);
      assert ShiftAll(vs, up)[..n] == ShiftAll(vs[..n], up);
      if vs[n].ms != [] {
        TrakGrows(vs[n], up);
      }
    }
  }

  /** moov written with all offsets moved is longer by exactly the growth of the tables. */
  lemma MoovGrows(m: MovieV, vs: seq<TrackV>, up: nat)
    ensures |MoovBox(m, ShiftAll(vs, up))| == |MoovBox(m, vs)| + TotalGrow(vs, up)
  {
    hide MvhdBox, Traks, UdtaBox;
    TraksGrow(vs, up);
  }

  /** When the growth has settled, moov moved by its own final size has that size. */
  lemma SettledSize(m: MovieV, vs: seq<TrackV>, g: nat)
    requires Settled(vs, |MoovBox(m, vs)|, g)
    ensures |MoovBox(m, ShiftAll(vs, |MoovBox(m, vs)| + g))| == |MoovBox(m, vs)| + g
  {
    hide MoovBox;
    MoovGrows(m, vs, |MoovBox(m, vs)| + g);
  }
}
