/** The writers of a movie fragment: mov-tfhd.c, mov-tfdt.c, mov-trun.c and the nest in fmp4-writer.c. */
module FragmentWriters {
  import opened Bytes
  import opened IoUtil
  import opened SampleTables
  import opened TrackBoxes
  import opened FragmentBoxes
  import opened IndexBoxes
  import opened NestWriters

  const INT64_MIN := -0x8000_0000_0000_0000  // "no time yet"

  /** A queued sample. */
  datatype Packet = Packet(m: Media, data: seq<byte>)

  function MediasOf(ps: seq<Packet>): (ms: seq<Media>)
    ensures |ms| == |ps|
  {
    seq(|ps|, i requires 0 <= i < |ps| => ps[i].m)
  }

  class FTrack {
    const header: Header
    var samples: seq<Packet>
    var cursor: nat
    var startDts: int
    var lastDts: int
    var turnLast: int
    var frags: seq<Mark>  // its fragments since the last index

    // tfhd
    var tfhdFlags: uint24
    var defaultDuration: uint32
    var defaultSize: uint32
    var defaultFlags: uint32

    constructor (header: Header)
      ensures this.header == header && samples == [] && cursor == 0
      ensures startDts == lastDts == INT64_MIN && turnLast == 0 && frags == []
    {
      this.header := header;
      samples, cursor, startDts, lastDts, turnLast, frags := [], 0, INT64_MIN, INT64_MIN, 0, [];
      tfhdFlags, defaultDuration, defaultSize, defaultFlags := 0, 0, 0, 0;
    }

    ghost function V(): TrackF
      reads this`samples, this`startDts, this`turnLast
    {
      TrackF(header.id, header.handler, MediasOf(samples), startDts, turnLast)
    }

    /** The tfhd fields are those of the queue. */
    ghost predicate Headed()
      reads this
    {
      && samples != [] && tfhdFlags == TFHD_FLAGS
      && defaultDuration == Duration(V(), 0) && defaultSize == samples[0].m.bytes
      && defaultFlags == DefaultFlags(header.handler)
    }
  }

  /** The fields that the flags of tfhd announce. */
  method WriteTfhdFields(io: Io, t: FTrack) returns (size: nat)
    requires io.Tracking() && t.tfhdFlags == TFHD_FLAGS
    modifies io`data, io`pos, io`out
    ensures io.Tracking() && size == 16
    ensures io.out == old(io.out) + (BE32(1) + BE32(t.defaultDuration) + BE32(t.defaultSize) + BE32(t.defaultFlags))
  {
    hide BE32, Io.Tracking;
    ghost var head := io.out;
    size := 0;
    if Has(t.tfhdFlags, TFHD_SAMPLE_DESCRIPTION_INDEX) {
      io.W32(1);
      size := size + 4;
    }
    if Has(t.tfhdFlags, TFHD_DEFAULT_DURATION) {
      io.W32(t.defaultDuration);
      size := size + 4;
    }
    if Has(t.tfhdFlags, TFHD_DEFAULT_SIZE) {
      io.W32(t.defaultSize);
      size := size + 4;
    }
    if Has(t.tfhdFlags, TFHD_DEFAULT_FLAGS) {
      io.W32(t.defaultFlags);
      size := size + 4;
    }
    assert io.out == head + BE32(1) + BE32(t.defaultDuration) + BE32(t.defaultSize) + BE32(t.defaultFlags);
  }

  method WriteTfhd(io: Io, t: FTrack) returns (size: nat)
    requires io.Tracking() && t.Headed()
    modifies io`data, io`pos, io`error, io`base, io`start, io`out
    ensures io.Tracking() && io.base == old(io.base) && io.start == old(io.start)
    ensures io.out == old(io.out) + TfhdBox(t.V()) && size == |TfhdBox(t.V())|
  {
    hide BE32, BE24, Tag, Io.Tracking, Box, Duration, DefaultFlags;
    ghost var head := io.out;
    var offset := OpenBox(io, "tfhd");
    io.W8(0);
    io.W24(t.tfhdFlags);
    io.W32(t.header.id);
    size := WriteTfhdFields(io, t);
    size := size + 12 + 4;
    ghost var v := t.V();
    ghost var fields := BE32(v.id) + BE32(1) + BE32(Duration(v, 0)) + BE32(v.ms[0].bytes) + BE32(DefaultFlags(v.handler));
    ghost var body := [0] + BE24(TFHD_FLAGS) + fields;
    assert io.out == head + BE32(0) + Tag("tfhd") + body;
    WriteSize(io, offset, size, head, "tfhd", body);
  }

  method WriteTfdt(io: Io, t: FTrack) returns (size: nat)
    requires io.Tracking() && t.samples != []
    modifies io`data, io`pos, io`out
    ensures io.Tracking() && io.out == old(io.out) + TfdtBox(t.V()) && size == |TfdtBox(t.V())|
  {
    hide BE32, BE24, BE64, Tag, Io.Tracking, TfdtBox;
    ghost var head := io.out;
    var base := U64(t.samples[0].m.dts - t.startDts);
    var version := if base > INT32_MAX then 1 else 0;
    io.W32(if version == 0 then 16 else 20);
    io.Put(Tag("tfdt"));
    io.W8(version);
    io.W24(0);
    if version == 1 {
      io.W64(base);
    } else {
      io.W32(base);
    }
    size := if version == 0 then 16 else 20;
    TfdtBytes(t.V());
    if version == 1 {
      assert io.out == head + (BE32(20) + Tag("tfdt") + ([1] + BE24(0) + BE64(base)));
    } else {
      assert io.out == head + (BE32(16) + Tag("tfdt") + ([0] + BE24(0) + BE32(base)));
    }
  }

  lemma TfdtBytes(v: TrackF)
    requires v.ms != []
    ensures var base := U64(v.ms[0].dts - v.start);
      if base > INT32_MAX then TfdtBox(v) == BE32(20) + Tag("tfdt") + ([1] + BE24(0) + BE64(base))
      else TfdtBox(v) == BE32(16) + Tag("tfdt") + ([0] + BE24(0) + BE32(base))
  {
    hide BE32, BE24, BE64, Tag;
  }

  // ---- trun ----

  /** The optional fields, found by going over the samples once. */
  method Choose(t: FTrack, from: nat, count: nat) returns (c: Choice)
    requires t.Headed() && 0 < count && from + count <= |t.samples|
    ensures c == ChoiceOf(t.V(), from, count)
  {
    c := Choice(IsKey(t.samples[from].m), false, false, false);
    ghost var v := t.V();
    var i := from;
    while i < from + count
      invariant from <= i <= from + count && c.first == IsKey(v.ms[from])
      invariant c.durations <==> exists k :: from <= k < i && Duration(v, k) != Duration(v, 0)
      invariant c.sizes <==> exists k :: from <= k < i && v.ms[k].bytes != v.ms[0].bytes
      invariant c.cts <==> exists k :: from <= k < i && v.ms[k].pts != v.ms[k].dts
    {
      var m := t.samples[i].m;
      assert v.ms[i] == m;
      if m.bytes != t.defaultSize {
        c := c.(sizes := true);
      }
      var duration := SampleDuration(t, i);
      if duration != t.defaultDuration {
        c := c.(durations := true);
      }
      if m.pts != m.dts {
        c := c.(cts := true);
      }
      i := i + 1;
    }
  }

  method SampleDuration(t: FTrack, i: nat) returns (d: uint32)
    requires i < |t.samples|
    ensures d == Duration(t.V(), i)
  {
    d := U32(if i + 1 < |t.samples| then t.samples[i + 1].m.dts - t.samples[i].m.dts else t.turnLast);
  }

  method WriteTrunEntry(io: Io, t: FTrack, i: nat, c: Choice) returns (size: nat)
    requires io.Tracking() && i < |t.samples|
    modifies io`data, io`pos, io`out
    ensures io.Tracking() && io.out == old(io.out) + TrunEntry(t.V(), i, c) && size == c.EntrySize()
  {
    hide BE32, Io.Tracking;
    ghost var head := io.out;
    ghost var v := t.V();
    size := 0;
    if c.durations {
      var duration := SampleDuration(t, i);
      io.W32(duration);
      size := size + 4;
    }
    if c.sizes {
      io.W32(t.samples[i].m.bytes);
      size := size + 4;
    }
    if c.cts {
      io.W32(U32(t.samples[i].m.pts - t.samples[i].m.dts));
      size := size + 4;
    }
    assert io.out == head + TrunEntry(v, i, c);
  }

  method WriteTrunEntries(io: Io, t: FTrack, from: nat, count: nat, c: Choice) returns (size: nat)
    requires io.Tracking() && from + count <= |t.samples|
    modifies io`data, io`pos, io`out
    ensures io.Tracking() && io.out == old(io.out) + TrunEntries(t.V(), from, count, c)
    ensures size == |TrunEntries(t.V(), from, count, c)|
  {
    hide TrunEntry, Io.Tracking;
    var i: nat := from;
    size := 0;
    while i < from + count
      invariant from <= i <= from + count && io.Tracking()
      invariant io.out == old(io.out) + TrunEntries(t.V(), from, i - from, c)
      invariant size == |TrunEntries(t.V(), from, i - from, c)|
    {
      var n := WriteTrunEntry(io, t, i, c);
      size := size + n;
      i := i + 1;
    }
  }

  method WriteTrun(io: Io, t: FTrack, from: nat, count: nat, moof: nat) returns (size: nat)
    requires io.Tracking() && t.Headed() && from + count <= |t.samples|
    modifies io`data, io`pos, io`error, io`base, io`start, io`out
    ensures io.Tracking() && io.base == old(io.base) && io.start == old(io.start)
    ensures count == 0 ==> io.out == old(io.out) && size == 0
    ensures count > 0 ==>
      io.out == old(io.out) + TrunBox(t.V(), from, count, moof) && size == |TrunBox(t.V(), from, count, moof)|
  {
    hide BE32, BE24, Tag, Io.Tracking, TrunEntries, ChoiceOf, Box, FTrack.Headed, Choice.Flags, U32;
    if count < 1 {
      return 0;
    }
    ghost var head := io.out;
    ghost var v := t.V();
    var c := Choose(t, from, count);
    size := 12 + 4;
    var offset := OpenBox(io, "trun");
    io.W8(1);
    io.W24(c.Flags());
    io.W32(U32(count));
    io.W32(U32(moof + U32(t.samples[from].m.offset)));
    size := size + 4;
    if c.first {
      io.W32(DEPENDS_ON_I_PICTURE);
      size := size + 4;
    }
    var n := WriteTrunEntries(io, t, from, count, c);
    size := size + n;
    ghost var body := [1] + BE24(c.Flags()) + (TrunHead(v, from, count, moof) + TrunEntries(v, from, count, c));
    FirstIs(v, from, count);
    U32Sum(moof, t.samples[from].m.offset);
    assert io.out == head + BE32(0) + Tag("trun") + body;
    WriteSize(io, offset, size, head, "trun", body);
  }

  lemma FirstIs(v: TrackF, from: nat, count: nat)
    requires 0 < count && from + count <= |v.ms|
    ensures ChoiceOf(v, from, count).first == IsKey(v.ms[from])
  {
  }

  lemma U32Sum(a: nat, b: nat)
    ensures U32(a + U32(b)) == U32(a + b)
  {
  }

  // ---- The nest ----

  method SetTfhd(t: FTrack)
    requires t.samples != []
    modifies t`tfhdFlags, t`defaultDuration, t`defaultSize, t`defaultFlags
    ensures t.Headed()
  {
    t.tfhdFlags := TFHD_DEFAULT_FLAGS;
    t.tfhdFlags := t.tfhdFlags + TFHD_SAMPLE_DESCRIPTION_INDEX;
    t.tfhdFlags := t.tfhdFlags + TFHD_DEFAULT_BASE_IS_MOOF;
    t.defaultFlags := if t.header.handler == Audio then DEPENDS_ON_I_PICTURE else NO_SYNC_SAMPLE + DEPENDS_ON_NOT_I_PICTURE;
    t.tfhdFlags := t.tfhdFlags + TFHD_DEFAULT_DURATION + TFHD_DEFAULT_SIZE;
    t.defaultDuration := U32(if |t.samples| > 1 then t.samples[1].m.dts - t.samples[0].m.dts else t.turnLast);
    t.defaultSize := t.samples[0].m.bytes;
  }

  /** One trun for every contiguous run of samples. */
  method WriteTruns(io: Io, t: FTrack, moof: nat) returns (size: nat)
    requires io.Tracking() && t.Headed()
    modifies io`data, io`pos, io`error, io`base, io`start, io`out
    ensures io.Tracking() && io.base == old(io.base) && io.start == old(io.start)
    ensures io.out == old(io.out) + Truns(t.V(), moof) && size == |Truns(t.V(), moof)|
  {
    hide Io.Tracking, TrunBox, FTrack.Headed, TrunsBefore, RunStart, Truns;
    ghost var v := t.V();
    ghost var head := io.out;
    HeadedSome(t);
    TrunsStart(v, moof);
    var start: nat, i: nat := 0, 1;
    size := 0;
    while i < |t.samples|
      invariant 1 <= i <= |t.samples| && start == RunStart(v.ms, i - 1)
      invariant io.Tracking() && io.base == old(io.base) && io.start == old(io.start)
      invariant io.out == head + TrunsBefore(v, i, moof) && size == |TrunsBefore(v, i, moof)|
    {
      TrunsStep(v, i, moof);
      assert v.ms[i - 1] == t.samples[i - 1].m && v.ms[i] == t.samples[i].m;
      if t.samples[i - 1].m.offset + t.samples[i - 1].m.bytes != t.samples[i].m.offset {
        var n := WriteTrun(io, t, start, i - start, moof);
        size := size + n;
        start := i;
      }
      i := i + 1;
    }
    var n := WriteTrun(io, t, start, i - start, moof);
    size := size + n;
    TrunsAre(v, moof);
    assert io.out == head + (TrunsBefore(v, i, moof) + TrunBox(v, start, i - start, moof));
  }

  lemma TrunsStart(v: TrackF, moof: nat)
    requires v.ms != []
    ensures TrunsBefore(v, 1, moof) == [] && RunStart(v.ms, 0) == 0
  {
  }

  lemma TrunsStep(v: TrackF, i: nat, moof: nat)
    requires 0 < i < |v.ms|
    ensures var s := RunStart(v.ms, i - 1);
      if Follows(v.ms[i - 1], v.ms[i])
      then TrunsBefore(v, i + 1, moof) == TrunsBefore(v, i, moof) && RunStart(v.ms, i) == s
      else TrunsBefore(v, i + 1, moof) == TrunsBefore(v, i, moof) + TrunBox(v, s, i - s, moof) && RunStart(v.ms, i) == i
  {
    hide TrunBox;
  }

  lemma TrunsAre(v: TrackF, moof: nat)
    requires v.ms != []
    ensures var n := |v.ms|;
      var s := RunStart(v.ms, n - 1);
      Truns(v, moof) == TrunsBefore(v, n, moof) + TrunBox(v, s, n - s, moof)
  {
    hide TrunBox, TrunsBefore, RunStart;
  }

  lemma HeadedSome(t: FTrack)
    requires t.Headed()
    ensures t.samples != [] && t.V().ms != []
  {
  }

  method WriteTraf(io: Io, t: FTrack, moof: nat) returns (size: nat)
    requires io.Tracking() && t.samples != []
    modifies io`data, io`pos, io`error, io`base, io`start, io`out
    modifies t`tfhdFlags, t`defaultDuration, t`defaultSize, t`defaultFlags
    ensures io.Tracking() && io.base == old(io.base) && io.start == old(io.start)
    ensures t.V() == old(t.V())
    ensures io.out == old(io.out) + TrafBox(t.V(), moof) && size == |TrafBox(t.V(), moof)|
  {
    hide BE32, Tag, Io.Tracking, Truns, TfhdBox, TfdtBox, Box;
    ghost var head := io.out;
    ghost var v := t.V();
    size := 8;
    var offset := OpenBox(io, "traf");
    SetTfhd(t);
    var n := WriteTfhd(io, t);
    size := size + n;
    n := WriteTfdt(io, t);
    size := size + n;
    n := WriteTruns(io, t, moof);
    size := size + n;
    assert io.out == head + BE32(0) + Tag("traf") + TrafBody(v, moof);
    WriteSize(io, offset, size, head, "traf", TrafBody(v, moof));
  }
}
