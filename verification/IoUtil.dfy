/** A file seen through mov-ioutil.h: contents, position and sticky error. */
module IoUtil {
  import opened Bytes

  /** `d` with `b` laid over it at `p`, longer if `b` runs past the end. */
  function Splice(d: seq<byte>, p: nat, b: seq<byte>): (r: seq<byte>)
    requires p <= |d|
  {
    d[..p] + b + (if p + |b| <= |d| then d[p + |b|..] else [])
  }

  lemma SpliceAppend(d: seq<byte>, p: nat, a: seq<byte>, b: seq<byte>)
    requires p <= |d|
    ensures Splice(Splice(d, p, a), p + |a|, b) == Splice(d, p, a + b)
  {
    var m := Splice(d, p, a);
    assert m[..p + |a|] == d[..p] + a;
    if p + |a| + |b| <= |d| {
      assert m[p + |a| + |b|..] == d[p + |a| + |b|..];
    }
  }

  /** `o` with the bytes at `k` replaced by `w`. */
  function Patch(o: seq<byte>, k: nat, w: seq<byte>): (r: seq<byte>)
    requires k + |w| <= |o|
  {
    o[..k] + w + o[k + |w|..]
  }

  lemma SplicePatch(d: seq<byte>, p: nat, o: seq<byte>, k: nat, w: seq<byte>)
    requires p <= |d| && k + |w| <= |o|
    ensures Splice(Splice(d, p, o), p + k, w) == Splice(d, p, Patch(o, k, w))
  {
    var m := Splice(d, p, o);
    assert m[..p + k] == d[..p] + o[..k];
    assert m[p + k + |w|..] == o[k + |w|..] + (if p + |o| <= |d| then d[p + |o|..] else []);
  }

  lemma PatchAt(head: seq<byte>, old_: seq<byte>, new_: seq<byte>, tail: seq<byte>)
    requires |old_| == |new_|
    ensures Patch(head + old_ + tail, |head|, new_) == head + new_ + tail
  {
    var o := head + old_ + tail;
    assert o[..|head|] == head && o[|head| + |new_|..] == tail;
  }

  class Io {
    var data: seq<byte>
    var pos: nat
    var error: int

    // What has been written since Begin, and over what: while Tracking(), the file is
    // `base` with `out` laid over it at `start` and the position is right behind `out`.
    ghost var base: seq<byte>
    ghost var start: nat
    ghost var out: seq<byte>

    ghost predicate Tracking()
      reads this
    {
      error == 0 && start <= |base| && data == Splice(base, start, out) && pos == start + |out|
    }

    constructor ()
      ensures data == [] && pos == 0 && error == 0
    {
      data, pos, error := [], 0, 0;
      base, start, out := [], 0, [];
    }

    ghost method Begin()
      requires error == 0 && pos <= |data|
      modifies this`base, this`start, this`out
      ensures Tracking() && base == data && start == pos && out == []
    {
      base, start, out := data, pos, [];
    }

    ghost method Resume(o: seq<byte>)
      requires error == 0 && start <= |base| && data == Splice(base, start, o) && pos == start + |o|
      modifies this`out
      ensures Tracking() && out == o
    {
      out := o;
    }

    method Tell() returns (p: nat)
      ensures p == pos
      ensures Tracking() ==> p == start + |out|
    {
      p := pos;
    }

    /** Overwrites the error whatever it was; a negative offset counts from the end. */
    method Seek(offset: int)
      modifies this`pos, this`error
      ensures offset >= 0 ==> error == 0 && pos == offset
      ensures offset < 0 && |data| + offset >= 0 ==> error == 0 && pos == |data| + offset
      ensures |data| + offset < 0 ==> error != 0 && pos == old(pos)
    {
      if offset >= 0 {
        pos, error := offset, 0;
      } else if |data| + offset >= 0 {
        pos, error := |data| + offset, 0;
      } else {
        error := -1;
      }
    }

    method Skip(bytes: nat)
      modifies this`pos, this`error
      ensures error == old(error)
      ensures pos == if old(error) == 0 then old(pos) + bytes else old(pos)
    {
      if error == 0 {
        Seek(pos + bytes);
      }
    }

    /** Does nothing once an error is pending. */
    method Write(bs: seq<byte>)
      requires pos <= |data|
      modifies this`data, this`pos, this`out
      ensures old(error) != 0 ==> data == old(data) && pos == old(pos)
      ensures old(error) == 0 ==> data == Splice(old(data), old(pos), bs) && pos == old(pos) + |bs| <= |data|
      ensures old(Tracking()) ==> Tracking() && out == old(out) + bs
      ensures !old(Tracking()) ==> out == old(out)
    {
      if error == 0 {
        ghost var tracking := Tracking();
        if tracking {
          SpliceAppend(base, start, out, bs);
        }
        data, pos := Splice(data, pos, bs), pos + |bs|;
        out := if tracking then out + bs else out;
      }
    }

    /** Write, where no error can be pending. */
    method Put(bs: seq<byte>)
      requires Tracking()
      modifies this`data, this`pos, this`out
      ensures Tracking() && out == old(out) + bs
    {
      Write(bs);
    }

    method W8(v: byte)
      requires Tracking()
      modifies this`data, this`pos, this`out
      ensures Tracking() && out == old(out) + [v]
    {
      Write([v]);
    }

    method W16(v: uint16)
      requires Tracking()
      modifies this`data, this`pos, this`out
      ensures Tracking() && out == old(out) + BE16(v)
    {
      W8(v / 0x100);
      W8(v % 0x100);
    }

    method W24(v: uint24)
      requires Tracking()
      modifies this`data, this`pos, this`out
      ensures Tracking() && out == old(out) + BE24(v)
    {
      W8(v / 0x1_0000);
      W16(v % 0x1_0000);
    }

    method W32(v: uint32)
      requires Tracking()
      modifies this`data, this`pos, this`out
      ensures Tracking() && out == old(out) + BE32(v)
    {
      W16(v / 0x1_0000);
      W16(v % 0x1_0000);
    }

    method W64(v: uint64)
      requires Tracking()
      modifies this`data, this`pos, this`out
      ensures Tracking() && out == old(out) + BE64(v)
    {
      W32(v / 0x1_0000_0000);
      W32(v % 0x1_0000_0000);
    }

    /** Seeks back to `offset`, writes a 32-bit number over a placeholder, and returns to the end. */
    method PatchW32(offset: nat, v: uint32)
      requires Tracking() && start <= offset && offset + 4 <= start + |out|
      modifies this`data, this`pos, this`error, this`base, this`start, this`out
      ensures Tracking() && base == old(base) && start == old(start)
      ensures out == Patch(old(out), offset - start, BE32(v))
    {
      ghost var base0, start0, out0 := base, start, out;
      var offset2 := pos;
      Seek(offset);
      Begin();
      W32(v);
      Seek(offset2);
      SplicePatch(base0, start0, out0, offset - start0, BE32(v));
      base, start := base0, start0;
      Resume(Patch(out0, offset - start0, BE32(v)));
    }

    /** A read that meets the end of the file delivers what is there and leaves an error. */
    method Read(bytes: nat) returns (bs: seq<byte>)
      modifies this`pos, this`error
      ensures old(error) == 0 && old(pos) + bytes <= |data| ==>
        bs == data[old(pos)..old(pos) + bytes] && pos == old(pos) + bytes && error == 0
      ensures old(error) == 0 && old(pos) + bytes > |data| ==>
        error != 0 && bs == (if old(pos) <= |data| then data[old(pos)..] else [])
      ensures old(error) != 0 ==> bs == [] && pos == old(pos) && error == old(error)
    {
      if error != 0 {
        bs := [];
      } else if pos + bytes <= |data| {
        bs := data[pos..pos + bytes];
        pos := pos + bytes;
      } else {
        bs := if pos <= |data| then data[pos..] else [];
        pos, error := if pos <= |data| then |data| else pos, -1;
      }
    }

    // Reading a number is reading its bytes one by one. Where all of them are there they are the number;
    // an unreadable byte counts as 0.

    method R8() returns (v: byte)
      modifies this`pos, this`error
      ensures old(error) == 0 && old(pos) + 1 <= |data| ==> error == 0 && pos == old(pos) + 1 && v == data[old(pos)]
      ensures old(error) != 0 || old(pos) >= |data| ==> error != 0 && v == 0
    {
      var bs := Read(1);
      v := if |bs| == 1 then bs[0] else 0;
    }

    method R16() returns (v: uint16)
      modifies this`pos, this`error
      ensures old(error) == 0 && old(pos) + 2 <= |data| ==>
        error == 0 && pos == old(pos) + 2 && v == Get16(data, old(pos))
      ensures old(error) != 0 || old(pos) + 2 > |data| ==> error != 0
      ensures old(error) != 0 || old(pos) >= |data| ==> v == 0
    {
      var hi := R8();
      var lo := R8();
      v := hi as int * 0x100 + lo;
    }

    method R24() returns (v: uint24)
      modifies this`pos, this`error
      ensures old(error) == 0 && old(pos) + 3 <= |data| ==>
        error == 0 && pos == old(pos) + 3 && v == Get24(data, old(pos))
      ensures old(error) != 0 || old(pos) + 3 > |data| ==> error != 0
    {
      var hi := R8();
      var lo := R16();
      v := hi as int * 0x1_0000 + lo;
    }

    method R32() returns (v: uint32)
      modifies this`pos, this`error
      ensures old(error) == 0 && old(pos) + 4 <= |data| ==>
        error == 0 && pos == old(pos) + 4 && v == Get32(data, old(pos))
      ensures old(error) != 0 || old(pos) + 4 > |data| ==> error != 0
      ensures old(error) != 0 || old(pos) >= |data| ==> v == 0
    {
      var hi := R16();
      var lo := R16();
      v := hi as int * 0x1_0000 + lo;
    }

    method R64() returns (v: uint64)
      modifies this`pos, this`error
      ensures old(error) == 0 && old(pos) + 8 <= |data| ==>
        error == 0 && pos == old(pos) + 8 && v == Get64(data, old(pos))
      ensures old(error) != 0 || old(pos) + 8 > |data| ==> error != 0
    {
      var hi := R32();
      var lo := R32();
      v := hi as int * 0x1_0000_0000 + lo;
    }
  }
}
