/** Run-length tables: the form of stts and ctts (sections 8.6.1.2 and 8.6.1.3 of ISO/IEC 14496-12). */
module Runs {
  import opened Bytes

  datatype Run = Run(count: nat, value: uint32)

  function Repeat(v: uint32, n: nat): (s: seq<uint32>)
    ensures |s| == n && forall i :: 0 <= i < n ==> s[i] == v
  {
    seq(n, _ => v)
  }

  function Expand(rs: seq<Run>): seq<uint32> {
    if rs == [] then [] else
      var n := |rs| - 1;
      Expand(rs[..n]) + Repeat(rs[n].value, rs[n].count)
  }

  /** One more key: the last run grows, or a new one starts. */
  function AddKey(rs: seq<Run>, k: uint32): (r: seq<Run>)
    ensures r != []
  {
    if rs != [] && rs[|rs| - 1].value == k
    then rs[..|rs| - 1] + [Run(rs[|rs| - 1].count + 1, k)]
    else rs + [Run(1, k)]
  }

  /** Equal neighbours counted together, first to last. */
  function Compress(keys: seq<uint32>): (rs: seq<Run>)
    ensures keys != [] ==> rs != []
  {
    if keys == [] then [] else AddKey(Compress(keys[..|keys| - 1]), keys[|keys| - 1])
  }

  /** No empty run, and no two neighbours that could have been one run. */
  ghost predicate Canonical(rs: seq<Run>) {
    && (forall j :: 0 <= j < |rs| ==> rs[j].count > 0)
    && (forall j :: 0 <= j < |rs| - 1 ==> rs[j].value != rs[j + 1].value)
  }

  lemma {:induction false} ExpandSnoc(rs: seq<Run>, r: Run)
    ensures Expand(rs + [r]) == Expand(rs) + Repeat(r.value, r.count)
  {
    assert (rs + [r])[..|rs|] == rs;
  }

  lemma {:induction false} ExpandAddKey(rs: seq<Run>, k: uint32)
    ensures Expand(AddKey(rs, k)) == Expand(rs) + [k]
  {
    if rs != [] && rs[|rs| - 1].value == k {
      var front, last := rs[..|rs| - 1], rs[|rs| - 1];
      assert rs == front + [last];
      ExpandSnoc(front, last);
      ExpandSnoc(front, Run(last.count + 1, k));
      assert Repeat(k, last.count + 1) == Repeat(k, last.count) + [k];
    } else {
      ExpandSnoc(rs, Run(1, k));
      assert Repeat(k, 1) == [k];
    }
  }

  /** Nothing is lost: expanding the table gives back every key. */
  lemma {:induction false} ExpandCompress(keys: seq<uint32>)
    ensures Expand(Compress(keys)) == keys
  {
    hide AddKey;
    if keys != [] {
      var n := |keys| - 1;
      ExpandCompress(keys[..n]);
      ExpandAddKey(Compress(keys[..n]), keys[n]);
      assert keys == keys[..n] + [keys[n]];
    }
  }

  /** The table is as short as it can be, and its counts fit where the number of keys does. */
  lemma {:induction false} CompressCanonical(keys: seq<uint32>)
    ensures Canonical(Compress(keys))
    ensures forall j :: 0 <= j < |Compress(keys)| ==> Compress(keys)[j].count <= |keys|
    ensures |Compress(keys)| <= |keys|
  {
    hide AddKey, Canonical;
    if keys == [] {
      NoneCanonical();
    } else {
      var n := |keys| - 1;
      CompressCanonical(keys[..n]);
      AddCanonical(Compress(keys[..n]), keys[n], n);
    }
  }

  lemma NoneCanonical()
    ensures Canonical([])
  {
  }

  lemma AddCanonical(rs: seq<Run>, key: uint32, n: nat)
    requires Canonical(rs) && |rs| <= n && forall j :: 0 <= j < |rs| ==> rs[j].count <= n
    ensures var r := AddKey(rs, key);
      Canonical(r) && |r| <= n + 1 && forall j :: 0 <= j < |r| ==> r[j].count <= n + 1
  {
  }

  /** The compressed table is the only canonical one for its keys. */
  lemma {:induction false} CompressUnique(rs: seq<Run>)
    requires Canonical(rs)
    ensures Compress(Expand(rs)) == rs
    decreases |rs|, if rs == [] then 0 else rs[|rs| - 1].count
  {
    if rs != [] {
      var n := |rs| - 1;
      var r := rs[n];
      var less := if r.count == 1 then rs[..n] else rs[..n] + [Run(r.count - 1, r.value)];
      assert Canonical(less) && AddKey(less, r.value) == rs by {
        assert rs == rs[..n] + [r];
        assert r.count > 1 ==> less[..n] == rs[..n];
      }
      CompressUnique(less);
      ExpandAddKey(less, r.value);
      CompressSnoc(Expand(less), r.value);
    }
  }

  lemma {:induction false} CompressSnoc(keys: seq<uint32>, k: uint32)
    ensures Compress(keys + [k]) == AddKey(Compress(keys), k)
  {
    assert (keys + [k])[..|keys|] == keys;
  }

  function Counts(rs: seq<Run>): nat {
    if rs == [] then 0 else Counts(rs[..|rs| - 1]) + rs[|rs| - 1].count
  }

  lemma {:induction false} ExpandLength(rs: seq<Run>)
    ensures |Expand(rs)| == Counts(rs)
  {
    if rs != [] {
      ExpandLength(rs[..|rs| - 1]);
    }
  }

  // The table as bytes, and as it is read back from bytes.

  function RunBytes(rs: seq<Run>): (b: seq<byte>)
    ensures |b| == 8 * |rs|
  {
    if rs == [] then [] else
      var n := |rs| - 1;
      RunBytes(rs[..n]) + BE32(U32(rs[n].count)) + BE32(rs[n].value)
  }

  function ParseRuns(d: seq<byte>, p: nat, n: nat): (rs: seq<Run>)
    requires p + 8 * n <= |d|
    ensures |rs| == n
  {
    seq(n, i requires 0 <= i < n => Run(Get32(d, p + 8 * i), Get32(d, p + 8 * i + 4)))
  }

  lemma ParseRun(d: seq<byte>, q: nat, r: Run)
    requires At(d, q, BE32(U32(r.count)) + BE32(r.value))
    requires r.count <= UINT32_MAX
    ensures Get32(d, q) == r.count && Get32(d, q + 4) == r.value
  {
    AtConcat(d, q, BE32(U32(r.count)), BE32(r.value));
    Get32Of(d, q, r.count);
    Get32Of(d, q + 4, r.value);
  }

  /** A table read back from the bytes it was written as. */
  lemma {:induction false} ParseRunBytes(d: seq<byte>, p: nat, rs: seq<Run>)
    requires At(d, p, RunBytes(rs))
    requires forall j :: 0 <= j < |rs| ==> rs[j].count <= UINT32_MAX
    ensures ParseRuns(d, p, |rs|) == rs
  {
    hide BE32, Get32, U32;
    if rs != [] {
      var n := |rs| - 1;
      var last := BE32(U32(rs[n].count)) + BE32(rs[n].value);
      assert RunBytes(rs) == RunBytes(rs[..n]) + last;
      AtConcat(d, p, RunBytes(rs[..n]), last);
      ParseRunBytes(d, p, rs[..n]);
      ParseRun(d, p + 8 * n, rs[n]);
      assert ParseRuns(d, p, |rs|) == ParseRuns(d, p, n) + [rs[n]];
    }
  }
}
