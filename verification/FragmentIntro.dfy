/** What stands in front of the fragments: ftyp, and a moov whose tracks have no samples. */
module FragmentIntro {
  import opened Bytes
  import opened SampleTables
  import opened TrackBoxes
  import opened MovTrack
  import opened IoUtil
  import opened NestWriters

  /** The tracks as they are when the boxes are written. */
  datatype Intro = Intro(created: uint32, nextId: uint32, udta: seq<byte>, headers: seq<Header>)

  function FtypBox(): (b: seq<byte>) {
    Box("ftyp", Brands())
  }

  function Brands(): (b: seq<byte>)
    ensures |b| == 28
  {
    Tag("isom") + BE32(1) + Tag("isom") + Tag("mp42") + Tag("avc1") + Tag("dash") + Tag("iso5")
  }

  /** A track with its sample count set to 0. */
  function Unfilled(h: Header): TrackV { TrackV(h, 0, [], 0, false) }

  function EmptyTraks(hs: seq<Header>): (b: seq<byte>) {
    if hs == [] then [] else EmptyTraks(hs[..|hs| - 1]) + TrakBox(Unfilled(hs[|hs| - 1]))
  }

  function TrexBox(id: uint32): (b: seq<byte>)
    ensures |b| == 32
  {
    FullBox("trex", 0, 0, List32([id, 1, 0, 0, 0]))
  }

  function Trexes(hs: seq<Header>): (b: seq<byte>) {
    if hs == [] then [] else Trexes(hs[..|hs| - 1]) + TrexBox(hs[|hs| - 1].id)
  }

  function MoovBody(m: Intro): (b: seq<byte>)
    ensures |b| >= 108
  {
    MvhdBox(m.created, 0, m.nextId) + EmptyTraks(m.headers) + Box("mvex", Trexes(m.headers)) + UdtaBox(m.udta)
  }

  function IntroBytes(m: Intro): (b: seq<byte>) {
    FtypBox() + Box("moov", MoovBody(m))
  }

  /** A track in front of the fragments: no duration, no edit list, empty tables. */
  lemma EmptyTrak(h: Header)
    ensures TrakBox(Unfilled(h))
         == Box("trak", TkhdBox(h, 0) + Box("mdia", MdhdBox(h, 0) + HdlrBox(h.handler) + Box("minf", MinfBody(TrackV(h, 0, [], 0, false)))))
  {
    assert TkhdBox(h, 0) + [] == TkhdBox(h, 0);
  }

  lemma TraksSnoc(hs: seq<Header>, i: nat)
    requires i < |hs|
    ensures EmptyTraks(hs[..i + 1]) == EmptyTraks(hs[..i]) + TrakBox(Unfilled(hs[i]))
    ensures Trexes(hs[..i + 1]) == Trexes(hs[..i]) + TrexBox(hs[i].id)
  {
    hide TrakBox, TrexBox;
    assert hs[..i + 1][..i] == hs[..i];
  }

  lemma NoTraks()
    ensures EmptyTraks([]) == [] && Trexes([]) == []
  {
  }

  method WriteTraks(io: Io, hs: seq<Header>) returns (size: nat)
    requires io.Tracking()
    modifies io`data, io`pos, io`error, io`base, io`start, io`out
    ensures io.Tracking() && io.base == old(io.base) && io.start == old(io.start)
    ensures io.out == old(io.out) + EmptyTraks(hs) && size == |EmptyTraks(hs)|
  {
    hide Io.Tracking, TrakBox, EmptyTraks, ChunksMarked, NegativeRun, TrexBox;
    size := 0;
    var i := 0;
    NoTraks();
    assert hs[..0] == [];
    while i < |hs|
      invariant i <= |hs| && io.Tracking() && io.base == old(io.base) && io.start == old(io.start)
      invariant io.out == old(io.out) + EmptyTraks(hs[..i]) && size == |EmptyTraks(hs[..i])|
    {
      TraksSnoc(hs, i);
      var track := new Track(hs[i]);
      var n := WriteTrak(io, track);
      size := size + n;
      i := i + 1;
    }
    assert hs[..i] == hs;
  }

  method WriteMvex(io: Io, hs: seq<Header>) returns (size: nat)
    requires io.Tracking()
    modifies io`data, io`pos, io`error, io`base, io`start, io`out
    ensures io.Tracking() && io.base == old(io.base) && io.start == old(io.start)
    ensures io.out == old(io.out) + Box("mvex", Trexes(hs)) && size == |Box("mvex", Trexes(hs))|
  {
    hide BE32, Tag, Io.Tracking, Box, Trexes, TrexBox, TrakBox;
    ghost var out0 := io.out;
    var offset := OpenBox(io, "mvex");
    ghost var head := io.out;
    size := 8;
    var i := 0;
    NoTraks();
    assert hs[..0] == [];
    while i < |hs|
      invariant i <= |hs| && io.Tracking() && io.base == old(io.base) && io.start == old(io.start)
      invariant io.out == head + Trexes(hs[..i]) && size == 8 + |Trexes(hs[..i])|
    {
      TraksSnoc(hs, i);
      io.Put(TrexBox(hs[i].id));
      size := size + 32;
      i := i + 1;
    }
    assert hs[..i] == hs;
    WriteSize(io, offset, size, out0, "mvex", Trexes(hs));
    BoxLength("mvex", Trexes(hs));
  }

  /** ftyp, then moov through placeholders as in a progressive file. */
  method WriteIntro(io: Io, m: Intro)
    requires io.Tracking()
    modifies io`data, io`pos, io`error, io`base, io`start, io`out
    ensures io.Tracking() && io.base == old(io.base) && io.start == old(io.start)
    ensures io.out == old(io.out) + IntroBytes(m)
  {
    hide BE32, Tag, Io.Tracking, Box, Trexes, EmptyTraks, MvhdBox, UdtaBox, FtypBox;
    io.Put(FtypBox());
    ghost var out0 := io.out;
    var offset := OpenBox(io, "moov");
    ghost var head := io.out;
    ghost var mvhd := MvhdBox(m.created, 0, m.nextId);
    io.Put(MvhdBox(m.created, 0, m.nextId));
    var size := 8 + |MvhdBox(m.created, 0, m.nextId)|;
    var n := WriteTraks(io, m.headers);
    size := size + n;
    n := WriteMvex(io, m.headers);
    size := size + n;
    io.Put(UdtaBox(m.udta));
    size := size + |UdtaBox(m.udta)|;
    assert io.out == head + MoovBody(m);
    WriteSize(io, offset, size, out0, "moov", MoovBody(m));
  }
}
