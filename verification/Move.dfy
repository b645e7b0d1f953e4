/** mov_writer_move: the tail of a file moved in front of the bytes between `to` and `from`, in
    place, with two buffers of the tail's size. */
module Move {
  import opened Bytes
  import opened IoUtil

  /** The last |d| - from bytes rotated in front of d[to..from]. */
  function Rotated(d: seq<byte>, to: nat, from: nat): (r: seq<byte>)
    requires to <= from <= |d|
    ensures |r| == |d|
  {
    d[..to] + d[from..] + d[to..from]
  }

  /** The two buffers share one allocation. */
  function Buffer(ptr: seq<byte>, j: int, bytes: nat): (b: seq<byte>)
    requires |ptr| == 2 * bytes
    ensures |b| == bytes
  {
    if j == 0 then ptr[..bytes] else ptr[bytes..]
  }

  /** fread into buffer[j]; a short read leaves the rest of it as it was, and the other one alone. */
  method ReadBuffer(io: Io, ptr: array<byte>, j: int, bytes: nat)
    requires ptr.Length == 2 * bytes && (j == 0 || j == 1)
    modifies io`pos, io`error, ptr
    ensures Buffer(ptr[..], 1 - j, bytes) == old(Buffer(ptr[..], 1 - j, bytes))
    ensures old(io.error) == 0 && old(io.pos) + bytes <= |io.data| ==>
      Buffer(ptr[..], j, bytes) == io.data[old(io.pos)..old(io.pos) + bytes]
  {
    var at := if j == 0 then 0 else bytes;
    var bs := io.Read(bytes);
    forall k | 0 <= k < |bs| {
      ptr[at + k] := bs[k];
    }
    assert ptr[..][at..at + |bs|] == bs;
  }

  /** How much of a block at `i` still lies inside a file of `end` bytes. */
  function Room(i: nat, bytes: nat, end: nat): nat
    requires i <= end
  {
    if i + bytes <= end then bytes else end - i
  }

  lemma Front(d: seq<byte>, to: nat, from: nat)
    requires to <= from <= |d|
    ensures Rotated(d, to, from)[..to] == d[..to]
    ensures Rotated(d, to, from)[to..to + (|d| - from)] == d[from..]
  {
  }

  /** Behind the moved tail, the rotated file is the old one, delayed by the size of the tail. */
  lemma Delayed(d: seq<byte>, to: nat, from: nat, i: nat, n: nat)
    requires to <= from <= |d| && to <= i && i + n <= from
    ensures Rotated(d, to, from)[i + (|d| - from)..i + (|d| - from) + n] == d[i..i + n]
  {
    var b := |d| - from;
    var r := Rotated(d, to, from);
    forall x | i + b <= x < i + b + n
      ensures r[x] == d[x - b]
    {
      assert r[x] == d[to..from][x - b - to];
    }
  }

  /** Done up to `i`, untouched from there on. */
  ghost predicate Progress(data: seq<byte>, t: seq<byte>, d: seq<byte>, i: nat) {
    i <= |data| == |t| == |d| && data[..i] == t[..i] && data[i..] == d[i..]
  }

  lemma ProgressStep(data: seq<byte>, t: seq<byte>, d: seq<byte>, i: nat, n: nat)
    requires Progress(data, t, d, i) && i + n <= |t|
    ensures Progress(Splice(data, i, t[i..i + n]), t, d, i + n)
  {
    var r := Splice(data, i, t[i..i + n]);
    assert r[..i + n] == t[..i] + t[i..i + n] == t[..i + n];
    assert r[i + n..] == data[i..][n..] == d[i..][n..] == d[i + n..];
  }

  /** The buffer that is about to be written holds what belongs at `i`; the other one holds what the
      previous write would have destroyed. */
  ghost predicate Buffered(cur: seq<byte>, other: seq<byte>, t: seq<byte>, d: seq<byte>,
                           i: nat, bytes: nat, from: nat)
  {
    && |cur| == |other| == bytes && |t| == |d| == from + bytes && i < from + bytes
    && cur[..Room(i, bytes, |d|)] == t[i..i + Room(i, bytes, |d|)]
    && (i <= from ==> other == d[i..i + bytes])
  }

  lemma BufferedStep(cur: seq<byte>, other: seq<byte>, next: seq<byte>, d: seq<byte>,
                     to: nat, i: nat, bytes: nat, from: nat)
    requires to <= i < from && |d| == from + bytes && |next| == bytes
    requires Buffered(cur, other, Rotated(d, to, from), d, i, bytes, from)
    requires i + bytes <= from ==> next == d[i + bytes..i + bytes + bytes]
    ensures cur == Rotated(d, to, from)[i..i + bytes]
    ensures Buffered(other, next, Rotated(d, to, from), d, i + bytes, bytes, from)
  {
    var room := Room(i + bytes, bytes, |d|);
    Delayed(d, to, from, i, room);
    assert other[..room] == d[i..i + room];
  }

  /** For every relation of the gap to the tail. Reads that meet the end of the file fill a buffer
      that is never written back, and the seek behind them clears their error. */
  method MoveTail(io: Io, to: nat, from: nat, bytes: nat) returns (r: int)
    requires to <= from && bytes > 0 && |io.data| == from + bytes
    modifies io`data, io`pos, io`error, io`out
    ensures io.data == Rotated(old(io.data), to, from)
    ensures r == 0 && io.error == 0
  {
    hide Rotated, Buffer, Progress, Buffered, Splice, Io.Tracking;
    ghost var d := io.data;
    ghost var t := Rotated(d, to, from);
    var ptr := new byte[bytes * 2];
    io.Seek(from);
    ReadBuffer(io, ptr, 0, bytes);
    io.Seek(to);
    ReadBuffer(io, ptr, 1, bytes);
    Start(d, to, from, bytes);
    var j := 0;
    var i := to;
    while i < from
      invariant to <= i < from + bytes && (j == 0 || j == 1) && |io.data| == from + bytes
      invariant Progress(io.data, t, d, i)
      invariant Buffered(Buffer(ptr[..], j, bytes), Buffer(ptr[..], 1 - j, bytes), t, d, i, bytes, from)
    {
      ghost var data := io.data;
      var cur := Buffer(ptr[..], j, bytes);
      ghost var other := Buffer(ptr[..], 1 - j, bytes);
      io.Seek(i);
      io.Write(cur);
      io.Seek(i + bytes);
      ReadBuffer(io, ptr, j, bytes);
      CurrentIs(cur, other, t, d, i, bytes, from);
      ProgressStep(data, t, d, i, bytes);
      ProgressRest(io.data, t, d, i + bytes, bytes);
      BufferedStep(cur, other, Buffer(ptr[..], j, bytes), d, to, i, bytes, from);
      j := 1 - j;
      i := i + bytes;
    }
    ghost var data := io.data;
    var cur := Buffer(ptr[..], j, bytes);
    io.Seek(i);
    io.Write(cur[..bytes - (i - from)]);
    Finish(data, cur, Buffer(ptr[..], 1 - j, bytes), t, d, i, bytes, from);
    r := io.error;
  }

  lemma Start(d: seq<byte>, to: nat, from: nat, bytes: nat)
    requires to <= from && |d| == from + bytes && bytes > 0
    ensures Progress(d, Rotated(d, to, from), d, to)
    ensures Buffered(d[from..from + bytes], d[to..to + bytes], Rotated(d, to, from), d, to, bytes, from)
  {
    Front(d, to, from);
  }

  lemma CurrentIs(cur: seq<byte>, other: seq<byte>, t: seq<byte>, d: seq<byte>, i: nat, bytes: nat, from: nat)
    requires Buffered(cur, other, t, d, i, bytes, from) && i < from
    ensures |cur| == bytes && |t| == |d| == from + bytes && cur == t[i..i + bytes]
  {
  }

  lemma ProgressRest(data: seq<byte>, t: seq<byte>, d: seq<byte>, i: nat, n: nat)
    requires Progress(data, t, d, i)
    ensures |data| == |d| && i <= |d|
    ensures i + n <= |d| ==> data[i..i + n] == d[i..i + n]
  {
    if i + n <= |d| {
      assert data[i..i + n] == data[i..][..n] == d[i..][..n] == d[i..i + n];
    }
  }

  lemma Finish(data: seq<byte>, cur: seq<byte>, other: seq<byte>, t: seq<byte>, d: seq<byte>,
               i: nat, bytes: nat, from: nat)
    requires Progress(data, t, d, i) && from <= i
    requires Buffered(cur, other, t, d, i, bytes, from)
    ensures |cur| == bytes && Splice(data, i, cur[..bytes - (i - from)]) == t
  {
    assert cur[..bytes - (i - from)] == t[i..];
    assert t == t[..i] + t[i..];
  }
}
