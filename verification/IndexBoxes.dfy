/** The random access index behind a segment, printed front to back: mfra, with a tfra for every track,
    and mfro. */
module IndexBoxes {
  import opened Bytes

  /** A fragment of a track in the index: the decode time of its first sample, and where its moof stands. */
  datatype Mark = Mark(time: uint64, offset: uint64)

  /** What one mfra says, track by track; ids count from 1. */
  type Index = seq<seq<Mark>>

  function MarkBytes(x: Mark): (b: seq<byte>)
    ensures |b| == 19
  {
    BE64(x.time) + BE64(x.offset) + [1, 1, 1]
  }

  function AllMarks(xs: seq<Mark>): (b: seq<byte>)
    ensures |b| == 19 * |xs|
  {
    if xs == [] then [] else AllMarks(xs[..|xs| - 1]) + MarkBytes(xs[|xs| - 1])
  }

  function TfraBox(id: uint32, xs: seq<Mark>): (b: seq<byte>)
    ensures |b| == 24 + 19 * |xs|
  {
    FullBox("tfra", 1, 0, BE32(id) + BE32(0) + BE32(U32(|xs|)) + AllMarks(xs))
  }

  function Tfras(m: Index): (b: seq<byte>)
    ensures |b| >= 24 * |m|
  {
    if m == [] then [] else Tfras(m[..|m| - 1]) + TfraBox(U32(|m|), m[|m| - 1])
  }

  /** The last box of a file says how far back the index starts. */
  function MfroBox(size: nat): (b: seq<byte>)
    ensures |b| == 16
  {
    FullBox("mfro", 0, 0, BE32(U32(size)))
  }

  function MfraBody(m: Index): (b: seq<byte>)
    ensures |b| == |Tfras(m)| + 16
  {
    Tfras(m) + MfroBox(|Tfras(m)| + 24)
  }

  function MfraBox(m: Index): (b: seq<byte>)
    ensures |b| == |Tfras(m)| + 24
  {
    Box("mfra", MfraBody(m))
  }

  function Mfras(ms: seq<Index>): (b: seq<byte>) {
    if ms == [] then [] else Mfras(ms[..|ms| - 1]) + MfraBox(ms[|ms| - 1])
  }

  lemma MfrasSnoc(ms: seq<Index>, m: Index)
    ensures Mfras(ms + [m]) == Mfras(ms) + MfraBox(m)
  {
    hide MfraBox;
    assert (ms + [m])[..|ms|] == ms;
  }

  lemma TfrasSnoc(m: Index, i: nat)
    requires i < |m|
    ensures Tfras(m[..i + 1]) == Tfras(m[..i]) + TfraBox(U32(i + 1), m[i])
  {
    hide TfraBox;
    assert m[..i + 1][..i] == m[..i];
  }

  lemma MarksSnoc(xs: seq<Mark>, i: nat)
    requires i < |xs|
    ensures AllMarks(xs[..i + 1]) == AllMarks(xs[..i]) + MarkBytes(xs[i])
  {
    hide MarkBytes;
    assert xs[..i + 1][..i] == xs[..i];
  }

  /** No index names more than the first `n` tracks. */
  predicate AllWithin(ms: seq<Index>, n: nat) {
    forall k :: 0 <= k < |ms| ==> |ms[k]| <= n
  }

  lemma NoneWithin(n: nat)
    ensures AllWithin([], n)
  {
  }

  lemma WithinSnoc(ms: seq<Index>, m: Index, n: nat)
    ensures AllWithin(ms + [m], n) <==> AllWithin(ms, n) && |m| <= n
  {
    var all := ms + [m];
    assert all[|ms|] == m && forall k :: 0 <= k < |ms| ==> all[k] == ms[k];
  }

  lemma WithinMore(ms: seq<Index>, n: nat, n': nat)
    requires AllWithin(ms, n) && n <= n'
    ensures AllWithin(ms, n')
  {
  }
}
