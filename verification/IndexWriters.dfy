/** The writers of the index behind a segment: mov-tfra.c and fmp4_write_mfra. */
module IndexWriters {
  import opened Bytes
  import opened IoUtil
  import opened TrackBoxes
  import opened IndexBoxes
  import opened FragmentWriters
  import opened NestWriters

  /** What an index written now says. */
  ghost function IndexOf(ts: seq<FTrack>): (m: Index)
    reads ts`frags
    ensures |m| == |ts|
  {
    if ts == [] then [] else IndexOf(ts[..|ts| - 1]) + [ts[|ts| - 1].frags]
  }

  lemma {:induction false} IndexAt(ts: seq<FTrack>)
    ensures forall i :: 0 <= i < |ts| ==> IndexOf(ts)[i] == ts[i].frags
  {
    if ts != [] {
      IndexAt(ts[..|ts| - 1]);
    }
  }

  method WriteMark(io: Io, x: Mark)
    requires io.Tracking()
    modifies io`data, io`pos, io`out
    ensures io.Tracking() && io.out == old(io.out) + MarkBytes(x)
  {
    hide BE64, Io.Tracking;
    ghost var head := io.out;
    io.W64(x.time);
    io.W64(x.offset);
    io.W8(1);
    io.W8(1);
    io.W8(1);
    assert io.out == head + MarkBytes(x);
  }

  /** The size of a tfra, which its number of entries gives, and its fields. */
  method WriteTfraHead(io: Io, id: uint32, n: nat)
    requires io.Tracking()
    modifies io`data, io`pos, io`out
    ensures io.Tracking()
    ensures io.out == old(io.out)
      + (BE32(U32(24 + 19 * n)) + Tag("tfra") + ([1] + BE24(0) + (BE32(id) + BE32(0) + BE32(U32(n)))))
  {
    hide BE32, BE24, Tag, Io.Tracking;
    ghost var head := io.out;
    io.W32(U32(24 + n * 19));
    io.Put(Tag("tfra"));
    io.W8(1);
    io.W24(0);
    io.W32(id);
    io.W32(0);
    io.W32(U32(n));
    assert io.out == head + (BE32(U32(24 + 19 * n)) + Tag("tfra")
                             + ([1] + BE24(0) + (BE32(id) + BE32(0) + BE32(U32(n)))));
  }

  /** mov_write_tfra */
  method WriteTfra(io: Io, t: FTrack) returns (size: nat)
    requires io.Tracking()
    modifies io`data, io`pos, io`out
    ensures io.Tracking() && io.out == old(io.out) + TfraBox(t.header.id, t.frags) && size == |TfraBox(t.header.id, t.frags)|
  {
    hide BE32, BE24, Tag, MarkBytes, Io.Tracking, AllMarks;
    ghost var head := io.out;
    var n := |t.frags|;
    size := 24 + n * 19;
    WriteTfraHead(io, t.header.id, n);
    ghost var front := io.out;
    var i := 0;
    NoMarks();
    assert t.frags[..0] == [];
    while i < n
      invariant i <= n && io.Tracking() && io.out == front + AllMarks(t.frags[..i])
    {
      MarksSnoc(t.frags, i);
      WriteMark(io, t.frags[i]);
      i := i + 1;
    }
    assert t.frags[..n] == t.frags;
    assert io.out == head + TfraBox(t.header.id, t.frags);
  }

  lemma NoMarks()
    ensures AllMarks([]) == [] && Tfras([]) == []
  {
  }

  /** fmp4_write_mfra: the tracks in their order, mfro with the distance back to the start, and the size
      patched in. */
  method WriteMfra(io: Io, ts: seq<FTrack>)
    requires io.Tracking() && |ts| < UINT32_MAX && forall i :: 0 <= i < |ts| ==> ts[i].header.id == i + 1
    modifies io`data, io`pos, io`error, io`base, io`start, io`out
    ensures io.Tracking() && io.base == old(io.base) && io.start == old(io.start)
    ensures io.out == old(io.out) + MfraBox(IndexOf(ts))
  {
    hide BE32, BE24, Tag, Io.Tracking, Box, TfraBox, Tfras;
    ghost var out0, m := io.out, IndexOf(ts);
    IndexAt(ts);
    var mfraOffset := OpenBox(io, "mfra");
    ghost var head := io.out;
    var i := 0;
    NoMarks();
    assert m[..0] == [];
    while i < |ts|
      invariant i <= |ts| && io.Tracking() && io.base == old(io.base) && io.start == old(io.start)
      invariant io.out == head + Tfras(m[..i])
    {
      TfrasSnoc(m, i);
      var n := WriteTfra(io, ts[i]);
      i := i + 1;
    }
    assert m[..i] == m;
    var mfroOffset := TellOut(io);
    WriteMfro(io, mfroOffset - mfraOffset + 16);
    assert io.out == head + MfraBody(m);
    WriteSize(io, mfraOffset, mfroOffset - mfraOffset + 16, out0, "mfra", MfraBody(m));
  }

  method TellOut(io: Io) returns (p: nat)
    requires io.Tracking()
    ensures p == io.start + |io.out|
  {
    p := io.Tell();
  }

  method WriteMfro(io: Io, size: nat)
    requires io.Tracking()
    modifies io`data, io`pos, io`out
    ensures io.Tracking() && io.out == old(io.out) + MfroBox(size)
  {
    hide BE32, BE24, Tag, Io.Tracking;
    ghost var head := io.out;
    io.W32(16);
    io.Put(Tag("mfro"));
    io.W32(0);
    io.W32(U32(size));
    ZeroWord();
    assert io.out == head + MfroBox(size);
  }

  lemma ZeroWord()
    ensures BE32(0) == [0] + BE24(0)
  {
  }
}
