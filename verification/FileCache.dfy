/** The cached file of mk_mov_file_buffer.c next to the plain file it speeds up. */
module FileCache {
  import opened Bytes
  import opened IoUtil

  const CACHE := 800

  /** What a plain file makes of a write at `p`: a gap behind the end is filled with zeros. */
  function WriteAt(d: seq<byte>, p: nat, b: seq<byte>): seq<byte> {
    if b == [] then d
    else if p <= |d| then Splice(d, p, b)
    else d + seq(p - |d|, _ => 0) + b
  }

  lemma ConcatBehind(d: seq<byte>, p: nat, a: seq<byte>, b: seq<byte>)
    requires p > |d| && a != [] && b != []
    ensures WriteAt(WriteAt(d, p, a), p + |a|, b) == WriteAt(d, p, a + b)
  {
    var front := d + seq(p - |d|, _ => 0);
    assert WriteAt(d, p, a) == front + a;
    AppendAtEnd(front + a, b);
    assert front + a + b == front + (a + b);
  }

  lemma AppendAtEnd(d: seq<byte>, b: seq<byte>)
    ensures Splice(d, |d|, b) == d + b
  {
  }

  /** Writing in two parts is writing at once. */
  lemma WriteAtConcat(d: seq<byte>, p: nat, a: seq<byte>, b: seq<byte>)
    ensures WriteAt(WriteAt(d, p, a), p + |a|, b) == WriteAt(d, p, a + b)
  {
    hide Splice;
    if b == [] {
      assert a + b == a;
    } else if a == [] {
      assert a + b == b;
    } else if p <= |d| {
      SpliceAppend(d, p, a, b);
      SpliceLength(d, p, a);
    } else {
      ConcatBehind(d, p, a, b);
    }
  }

  lemma SpliceLength(d: seq<byte>, p: nat, a: seq<byte>)
    requires p <= |d|
    ensures p + |a| <= |Splice(d, p, a)|
  {
  }

  lemma WriteNothing(d: seq<byte>, p: nat)
    ensures WriteAt(d, p, []) == d
  {
  }

  lemma Adjoin(d: seq<byte>, i: nat, j: nat, k: nat)
    requires i <= j <= k <= |d|
    ensures d[i..j] + d[j..k] == d[i..k]
  {
  }

  /** Where a seek leads: from the start, or from the end if negative; nowhere before the start. */
  function Target(offset: int, size: nat): int {
    if offset >= 0 then offset else size + offset
  }

  /** A stdio file without its own buffering. */
  class Disk {
    var data: seq<byte>
    var pos: nat

    constructor (data: seq<byte>)
      ensures this.data == data && pos == 0
    {
      this.data, pos := data, 0;
    }

    /** As many bytes as there are, up to `n`. */
    method Fread(n: nat) returns (b: seq<byte>)
      modifies this`pos
      ensures old(pos) <= |data| ==> b == data[old(pos)..if old(pos) + n <= |data| then old(pos) + n else |data|]
      ensures old(pos) > |data| ==> b == []
      ensures pos == old(pos) + |b|
    {
      if pos >= |data| {
        return [];
      }
      b := data[pos..if pos + n <= |data| then pos + n else |data|];
      pos := pos + |b|;
    }

    method Fwrite(b: seq<byte>)
      modifies this
      ensures data == WriteAt(old(data), old(pos), b) && pos == old(pos) + |b|
    {
      data := WriteAt(data, pos, b);
      pos := pos + |b|;
    }

    method Fseek(offset: int) returns (r: int)
      modifies this`pos
      ensures Target(offset, |data|) >= 0 ==> r == 0 && pos == Target(offset, |data|)
      ensures Target(offset, |data|) < 0 ==> r != 0 && pos == old(pos)
    {
      if Target(offset, |data|) < 0 {
        return -1;
      }
      pos := Target(offset, |data|);
      r := 0;
    }
  }

  class CachedFile {
    const fp: Disk
    const ptr: array<byte>
    var len: nat
    var off: nat
    var tell: nat

    /** The disk position is always tell + len - off. */
    ghost predicate Placed()
      reads this, fp
    {
      ptr.Length == CACHE && fp.pos == tell + len - off
    }

    /** While reading: what is left in the buffer lies right in front of the disk position. */
    ghost predicate Reading()
      reads this, fp, ptr
    {
      && Placed() && off <= len <= CACHE
      && (off < len ==> fp.pos <= |fp.data| && ptr[off..len] == fp.data[tell..fp.pos])
    }

    /** While writing: the buffer holds what is still to be written at the disk position. */
    ghost predicate Writing()
      reads this, fp
    {
      Placed() && len == 0 && off < CACHE
    }

    /** The file as it will be: what is pending laid over the disk. */
    ghost function View(): seq<byte>
      reads this, fp, ptr
    {
      if off > len && off <= ptr.Length then WriteAt(fp.data, fp.pos, ptr[..off]) else fp.data
    }

    constructor (fp: Disk)
      ensures Reading() && Writing() && this.fp == fp && tell == fp.pos && View() == fp.data
    {
      this.fp := fp;
      ptr := new byte[CACHE];
      len, off, tell := 0, 0, fp.pos;
    }

    /** Refills an empty buffer. */
    method Fill() returns (ok: bool)
      requires Reading() && off == len
      modifies this`len, this`off, fp`pos, ptr
      ensures Reading() && (ok <==> tell < |fp.data|)
      ensures ok ==> off < len
    {
      off := 0;
      var b := fp.Fread(CACHE);
      len := |b|;
      forall i | 0 <= i < |b| {
        ptr[i] := b[i];
      }
      assert ptr[..len] == b && ptr[0..len] == b;
      ok := len >= 1;
    }

    /** The next bytes of the buffer, as many as are wanted. */
    method Take(bytes: nat) returns (b: seq<byte>)
      requires Reading() && off < len && bytes > 0
      modifies this`off, this`tell
      ensures Reading() && 0 < |b| <= bytes && tell == old(tell) + |b| <= |fp.data|
      ensures b == fp.data[old(tell)..tell]
    {
      var k := len - off;
      k := if k > bytes then bytes else k;
      ghost var left := ptr[off..len];
      b := ptr[off..off + k];
      assert b == left[..k] && ptr[off + k..len] == left[k..];
      assert left[..k] == fp.data[tell..tell + k] && left[k..] == fp.data[tell + k..fp.pos];
      tell := tell + k;
      off := off + k;
    }

    /** Succeeds exactly when that many bytes are left, and then delivers them. */
    method Read(n: nat) returns (r: int, b: seq<byte>)
      requires Reading()
      modifies this`len, this`off, this`tell, fp`pos, ptr
      ensures r == 0 <==> n == 0 || old(tell) + n <= |fp.data|
      ensures r == 0 ==> Reading() && tell == old(tell) + n && |b| == n
      ensures r == 0 && n > 0 ==> b == fp.data[old(tell)..tell]
    {
      b := [];
      var bytes: nat := n;
      while bytes > 0
        invariant bytes <= n && |b| == n - bytes && Reading() && tell == old(tell) + |b|
        invariant |b| > 0 ==> tell <= |fp.data| && b == fp.data[old(tell)..tell]
        decreases bytes
      {
        if off >= len {
          if bytes >= CACHE {
            var rest := fp.Fread(bytes);
            if bytes == |rest| {
              if |b| > 0 {
                Adjoin(fp.data, old(tell), tell, tell + bytes);
              }
              tell := tell + bytes;
              b := b + rest;
              return 0, b;
            }
            return -1, b;
          } else {
            var ok := Fill();
            if !ok {
              return -1, b;
            }
          }
        }
        ghost var from := tell;
        var piece := Take(bytes);
        if |b| > 0 {
          Adjoin(fp.data, old(tell), from, tell);
        }
        b := b + piece;
        bytes := bytes - |piece|;
      }
      r := 0;
    }

    method Gather(b: seq<byte>)
      requires ptr.Length == CACHE && off + |b| <= CACHE
      modifies this`off, ptr
      ensures off == old(off) + |b| && ptr[..off] == old(ptr[..off]) + b
    {
      forall i | 0 <= i < |b| {
        ptr[off + i] := b[i];
      }
      off := off + |b|;
    }

    /** Gathers small writes; a write that does not fit goes to the disk behind what is pending. */
    method Write(b: seq<byte>)
      requires Writing()
      modifies this`off, this`tell, fp, ptr
      ensures Writing() && tell == old(tell) + |b|
      ensures View() == WriteAt(old(View()), old(tell), b)
    {
      hide WriteAt;
      ghost var pending := ptr[..off];
      tell := tell + |b|;
      WriteNothing(fp.data, fp.pos);
      WriteAtConcat(fp.data, fp.pos, pending, b);
      if off + |b| < CACHE {
        Gather(b);
        return;
      }
      if off > 0 {
        fp.Fwrite(ptr[..off]);
        off := 0;
      }
      fp.Fwrite(b);
    }

    /** A seek to where the file is does nothing at all; any other one writes out what is pending. A seek
        that leads nowhere stays, but for the bytes that had been read ahead. */
    method Seek(offset: int) returns (r: int)
      requires Reading() || Writing()
      modifies this, fp
      ensures Placed() && View() == old(View())
      ensures old(Reading()) ==> Reading()
      ensures old(Writing()) ==> Writing()
      ensures offset != old(tell) ==> off == len == 0 && fp.data == old(View())
      ensures Target(offset, |old(View())|) >= 0 ==> r == 0 && tell == Target(offset, |old(View())|)
      ensures Target(offset, |old(View())|) < 0 ==>
        r != 0 && tell == old(tell) + (if old(Reading()) then old(len) - old(off) else 0)
    {
      if offset != tell {
        if off > len {
          fp.Fwrite(ptr[..off]);
        }
        off, len := 0, 0;
        r := fp.Fseek(offset);
        tell := fp.pos;
        return r;
      }
      r := 0;
    }

    /** What tell reports; the disk position never has to be asked. */
    method Tell() returns (p: nat)
      requires Placed()
      ensures p == tell && fp.pos == p + len - off
    {
      p := tell;
    }
  }

  // ---- Whole traces ----

  datatype Op = Fetch(n: nat) | Goto(offset: int)

  /** What a plain file delivers over a trace, and where it ends up; Failed once an operation fails. */
  datatype Trace = Failed | Done(pos: nat, got: seq<seq<byte>>)

  function PlainTrace(d: seq<byte>, pos: nat, ops: seq<Op>): Trace {
    if ops == [] then Done(pos, []) else
      var n := |ops| - 1;
      match PlainTrace(d, pos, ops[..n])
      case Failed => Failed
      case Done(p, got) =>
        match ops[n]
        case Fetch(k) =>
          if k == 0 then Done(p, got + [[]])
          else if p + k <= |d| then Done(p + k, got + [d[p..p + k]]) else Failed
        case Goto(o) => if Target(o, |d|) >= 0 then Done(Target(o, |d|), got + [[]]) else Failed
  }

  /** A read behind a seek delivers the bytes from where the seek says, counted from the start, or from the
      end if negative; it fails when there are fewer. */
  lemma ReadBehindSeek(d: seq<byte>, pos: nat, o: int, n: nat)
    requires -|d| <= o && n > 0
    ensures var p: nat := if o >= 0 then o else |d| + o;
      PlainTrace(d, pos, [Goto(o), Fetch(n)]) == if p + n <= |d| then Done(p + n, [[], d[p..p + n]]) else Failed
  {
    var ops := [Goto(o), Fetch(n)];
    assert ops[..1] == [Goto(o)] && ops[..1][..0] == [];
    var p: nat := if o >= 0 then o else |d| + o;
    assert PlainTrace(d, pos, []) == Done(pos, []);
    assert PlainTrace(d, pos, ops[..1]) == Done(p, [[]]);
    assert forall x: seq<byte> :: [[]] + [x] == [[], x];
  }

  /** The first operation that fails ends a trace. */
  lemma {:induction false} FailsFor(d: seq<byte>, pos: nat, ops: seq<Op>, n: nat)
    requires n <= |ops| && PlainTrace(d, pos, ops[..n]) == Failed
    ensures PlainTrace(d, pos, ops) == Failed
    decreases |ops|
  {
    if n < |ops| {
      assert ops[..|ops| - 1][..n] == ops[..n];
      FailsFor(d, pos, ops[..|ops| - 1], n);
    } else {
      assert ops[..n] == ops;
    }
  }

  /** Reads and seeks through the cache do what they do on the plain file, operation by operation. */
  method Replay(f: CachedFile, ops: seq<Op>) returns (t: Trace)
    requires f.Reading()
    modifies f, f.fp, f.ptr
    ensures t == PlainTrace(old(f.fp.data), old(f.tell), ops)
    ensures t.Done? ==> f.Reading() && f.tell == t.pos
  {
    ghost var d, p := f.fp.data, f.tell;
    t := Done(f.tell, []);
    var i := 0;
    while i < |ops|
      invariant i <= |ops| && f.Reading() && f.fp.data == d
      invariant t.Done? && t.pos == f.tell && t == PlainTrace(d, p, ops[..i])
    {
      assert ops[..i + 1][..i] == ops[..i];
      match ops[i] {
        case Fetch(n) =>
          var r, b := f.Read(n);
          if r != 0 {
            FailsFor(d, p, ops, i + 1);
            return Failed;
          }
          assert n == 0 ==> b == [];
          t := Done(f.tell, t.got + [b]);
        case Goto(o) =>
          var r := f.Seek(o);
          if r != 0 {
            FailsFor(d, p, ops, i + 1);
            return Failed;
          }
          t := Done(f.tell, t.got + [[]]);
      }
      i := i + 1;
    }
    assert ops[..i] == ops;
  }

  datatype Change = Store(b: seq<byte>) | Jump(offset: int)

  /** A plain file and its position. */
  datatype Plain = Plain(data: seq<byte>, pos: nat)

  /** What a plain file makes of a trace of writes and seeks. A seek that leads nowhere changes nothing. */
  function PlainWrites(f: Plain, ops: seq<Change>): Plain {
    if ops == [] then f else
      var n := |ops| - 1;
      var g := PlainWrites(f, ops[..n]);
      match ops[n]
      case Store(b) => Plain(WriteAt(g.data, g.pos, b), g.pos + |b|)
      case Jump(o) => if Target(o, |g.data|) >= 0 then g.(pos := Target(o, |g.data|)) else g
  }

  /** A write behind a seek lands where the seek says, counted from the start, or from the end if negative. */
  lemma WriteBehindSeek(f: Plain, o: int, b: seq<byte>)
    requires -|f.data| <= o
    ensures PlainWrites(f, [Jump(o), Store(b)])
         == if o >= 0 then Plain(WriteAt(f.data, o, b), o + |b|)
            else Plain(WriteAt(f.data, |f.data| + o, b), |f.data| + o + |b|)
  {
    hide WriteAt;
    var ops := [Jump(o), Store(b)];
    assert ops[..1] == [Jump(o)] && ops[..1][..0] == [];
    assert PlainWrites(f, []) == f;
    assert PlainWrites(f, ops[..1]) == f.(pos := if o >= 0 then o else |f.data| + o);
  }

  /** Writes and seeks through the cache: the disk, overlaid with what is pending, is the plain file. */
  method ReplayWrites(f: CachedFile, ops: seq<Change>)
    requires f.Writing()
    modifies f, f.fp, f.ptr
    ensures f.Writing() && Plain(f.View(), f.tell) == PlainWrites(Plain(old(f.View()), old(f.tell)), ops)
    ensures f.off == 0 ==> f.fp.data == f.View()
  {
    ghost var was := Plain(f.View(), f.tell);
    var i := 0;
    while i < |ops|
      invariant i <= |ops| && f.Writing()
      invariant Plain(f.View(), f.tell) == PlainWrites(was, ops[..i])
    {
      assert ops[..i + 1][..i] == ops[..i];
      match ops[i] {
        case Store(b) =>
          f.Write(b);
        case Jump(o) =>
          var r := f.Seek(o);
      }
      i := i + 1;
    }
    assert ops[..i] == ops;
  }
}
