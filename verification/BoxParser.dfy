/** What mov-reader.c makes of a file, as a function of its bytes: the tree of boxes, the tables of
    each track, the samples rebuilt from the tables, and those that movie fragments add. */
module BoxParser {
  import opened Options
  import opened Bytes
  import opened Runs
  import opened SampleTables
  import opened Timing
  import opened TrackBoxes
  import opened FragmentBoxes
  import opened IndexBoxes

  /** What the fields of a fragment are when it does not say. */
  datatype Defaults = Defaults(sdi: uint32, duration: uint32, size: uint32, flags: uint32)

  /** A track fragment header as read; `base` is where data offsets count from. */
  datatype Tfhd = Tfhd(flags: uint24, base: uint64, defs: Defaults)

  /** The tables of one track, and the samples once they have been applied. `clock` is when the next
      sample of a fragment is decoded; `frags` is where an index says that fragments stand. */
  datatype Tables = Tables(id: uint32, sizes: seq<uint32>, stts: seq<Run>, ctts: seq<Run>, stsc: seq<Stsc>,
                           stco: seq<nat>, stss: seq<nat>, elst: seq<Elst>, samples: seq<Media>,
                           clock: int, trex: Defaults, tfhd: Tfhd, frags: seq<Mark>)

  /** A track that has just been added: all fields zero. */
  function NewTrack(id: uint32): Tables {
    var none := Defaults(0, 0, 0, 0);
    Tables(id, [], [], [], [], [], [], [], [], 0, none, Tfhd(0, 0, none), [])
  }

  /** Tracks met so far, the one that table boxes belong to (-1 before its tkhd), and the two places
      that data offsets of fragments may count from. */
  datatype Reading = Reading(tracks: seq<Tables>, cur: int, moof: uint64, implicit: uint64) {
    predicate HasTrack() { 0 <= cur < |tracks| }

    function Track(): Tables
      requires HasTrack()
    {
      tracks[cur]
    }

    function With(t: Tables): Reading
      requires HasTrack()
    {
      this.(tracks := tracks[cur := t])
    }
  }

  /** Before anything has been read. */
  const START := Reading([], -1, 0, 0)

  /** What reading comes to: a state, the error that mov-reader.c returns for a fragment or an index of a
      track that no moov has announced, or bytes that no writer here produces. */
  datatype Outcome = Read(st: Reading) | Refused | Malformed

  datatype Kind = Root | Moov | Trak | Edts | Mdia | Minf | Dinf | Stbl | Mvex | Moof | Traf | Mfra

  /** A box type as the number it is read as. */
  function FourCC(s: string): uint32
    requires |s| == 4
  {
    (s[0] as int % 0x100) * 0x100_0000 + (s[1] as int % 0x100) * 0x1_0000
    + (s[2] as int % 0x100) * 0x100 + s[3] as int % 0x100
  }

  const MOOV: uint32 := 0x6D6F_6F76  // moov
  const TRAK: uint32 := 0x7472_616B  // trak
  const EDTS: uint32 := 0x6564_7473  // edts
  const MDIA: uint32 := 0x6D64_6961  // mdia
  const MINF: uint32 := 0x6D69_6E66  // minf
  const DINF: uint32 := 0x6469_6E66  // dinf
  const STBL: uint32 := 0x7374_626C  // stbl
  const TKHD: uint32 := 0x746B_6864  // tkhd
  const ELST: uint32 := 0x656C_7374  // elst
  const STTS: uint32 := 0x7374_7473  // stts
  const CTTS: uint32 := 0x6374_7473  // ctts
  const STSC: uint32 := 0x7374_7363  // stsc
  const STSZ: uint32 := 0x7374_737A  // stsz
  const STCO: uint32 := 0x7374_636F  // stco
  const CO64: uint32 := 0x636F_3634  // co64
  const STSS: uint32 := 0x7374_7373  // stss
  const MVEX: uint32 := 0x6D76_6578  // mvex
  const TREX: uint32 := 0x7472_6578  // trex
  const MOOF: uint32 := 0x6D6F_6F66  // moof
  const TRAF: uint32 := 0x7472_6166  // traf
  const TFHD: uint32 := 0x7466_6864  // tfhd
  const TFDT: uint32 := 0x7466_6474  // tfdt
  const TRUN: uint32 := 0x7472_756E  // trun
  const MFRA: uint32 := 0x6D66_7261  // mfra
  const TFRA: uint32 := 0x7466_7261  // tfra

  /** The parse table: boxes that hold boxes. At top level any entry applies. */
  function Container(code: uint32, parent: Kind): Option<Kind> {
    if code == MOOV && parent == Root then Some(Moov)
    else if code == TRAK && (parent == Moov || parent == Root) then Some(Trak)
    else if code == EDTS && (parent == Trak || parent == Root) then Some(Edts)
    else if code == MDIA && (parent == Trak || parent == Root) then Some(Mdia)
    else if code == MINF && (parent == Mdia || parent == Root) then Some(Minf)
    else if code == DINF && (parent == Minf || parent == Root) then Some(Dinf)
    else if code == STBL && (parent == Minf || parent == Root) then Some(Stbl)
    else if code == MVEX && (parent == Moov || parent == Root) then Some(Mvex)
    else if code == MOOF && parent == Root then Some(Moof)
    else if code == TRAF && (parent == Moof || parent == Root) then Some(Traf)
    else if code == MFRA && parent == Root then Some(Mfra)
    else None
  }

  // ---- Leaves ----

  function ParseCounted(d: seq<byte>, p: nat, q: nat, entry: nat): Option<nat>
  {
    if p + 8 <= q <= |d| && p + 8 + entry * Get32(d, p + 4) == q then Some(Get32(d, p + 4)) else None
  }

  function ParseStsc(d: seq<byte>, p: nat, n: nat): (es: seq<Stsc>)
    requires p + 12 * n <= |d|
    ensures |es| == n
  {
    seq(n, i requires 0 <= i < n =>
      Stsc(Get32(d, p + 12 * i), Get32(d, p + 12 * i + 4), Get32(d, p + 12 * i + 8)))
  }

  function ParseStsz(d: seq<byte>, p: nat, q: nat): Option<seq<uint32>> {
    if !(p + 12 <= q <= |d|) then None else
      var size, n := Get32(d, p + 4), Get32(d, p + 8);
      if size != 0 then
        if q == p + 12 then Some(seq(n, _ => size)) else None
      else
        if q == p + 12 + 4 * n then Some(seq(n, i requires 0 <= i < n => Get32(d, p + 12 + 4 * i))) else None
  }

  function ParseElst(d: seq<byte>, p: nat, n: nat, version: byte): (es: seq<Elst>)
    requires p + (if version == 1 then 20 * n else 12 * n) <= |d|
    ensures |es| == n
  {
    seq(n, i requires 0 <= i < n =>
      if version == 1 then Elst(Get64(d, p + 20 * i), S64(Get64(d, p + 20 * i + 8)))
      else Elst(Get32(d, p + 12 * i), S32(Get32(d, p + 12 * i + 4))))
  }

  /** mov_find_track: the first track with this id, or -1. */
  function FindTrack(ts: seq<Tables>, id: uint32): (i: int)
    ensures -1 <= i < |ts|
    ensures i >= 0 ==> ts[i].id == id && forall k :: 0 <= k < i ==> ts[k].id != id
    ensures i < 0 ==> forall k :: 0 <= k < |ts| ==> ts[k].id != id
  {
    if ts == [] then -1 else
      var i := FindTrack(ts[..|ts| - 1], id);
      if i >= 0 then i else if ts[|ts| - 1].id == id then |ts| - 1 else -1
  }

  /** mov_fetch_track: the track with this id, or a new one. */
  function FetchTrack(st: Reading, id: uint32): (r: Reading)
    ensures r.HasTrack()
  {
    var i := FindTrack(st.tracks, id);
    if i >= 0 then st.(cur := i) else st.(tracks := st.tracks + [NewTrack(id)], cur := |st.tracks|)
  }

  function ParseLeaf(d: seq<byte>, p: nat, q: nat, code: uint32, parent: Kind, st: Reading): Outcome {
    if code == TKHD && (parent == Trak || parent == Root) then
      if !(p + 24 <= q <= |d|) then Malformed
      else Read(FetchTrack(st, if d[p] == 1 then Get32(d, p + 20) else Get32(d, p + 12)))
    else if code == ELST && (parent == Edts || parent == Root) then
      if !st.HasTrack() then Malformed else
        match ParseCounted(d, p, q, if q <= |d| && p < q && d[p] == 1 then 20 else 12)
        case None => Malformed
        case Some(n) => Read(st.With(st.Track().(elst := ParseElst(d, p + 8, n, d[p]))))
    else if code == TREX && (parent == Mvex || parent == Root) then ParseTrex(d, p, q, st)
    else if code == TFHD && (parent == Traf || parent == Root) then ParseTfhd(d, p, q, st)
    else if code == TFDT && (parent == Traf || parent == Root) then ParseTfdt(d, p, q, st)
    else if code == TRUN && (parent == Traf || parent == Root) then ParseTrun(d, p, q, st)
    else if code == TFRA && (parent == Mfra || parent == Root) then ParseTfra(d, p, q, st)
    else if parent != Stbl && parent != Root then Read(st)
    else ParseTable(d, p, q, code, st)
  }

  function ParseTable(d: seq<byte>, p: nat, q: nat, code: uint32, st: Reading): Outcome {
    if code == STTS then
      match (ParseCounted(d, p, q, 8), st.HasTrack())
      case (Some(n), true) => Read(st.With(st.Track().(stts := ParseRuns(d, p + 8, n))))
      case _ => Malformed
    else if code == CTTS then
      match (ParseCounted(d, p, q, 8), st.HasTrack())
      case (Some(n), true) => Read(st.With(st.Track().(ctts := ParseRuns(d, p + 8, n))))
      case _ => Malformed
    else if code == STSC then
      match (ParseCounted(d, p, q, 12), st.HasTrack())
      case (Some(n), true) => Read(st.With(st.Track().(stsc := ParseStsc(d, p + 8, n))))
      case _ => Malformed
    else if code == STSZ then
      match (ParseStsz(d, p, q), st.HasTrack())
      case (Some(xs), true) => Read(st.With(st.Track().(sizes := xs, samples := [])))
      case _ => Malformed
    else if code == STCO then
      match (ParseCounted(d, p, q, 4), st.HasTrack())
      case (Some(n), true) => Read(st.With(st.Track().(stco := Parse32(d, p + 8, n))))
      case _ => Malformed
    else if code == CO64 then
      match (ParseCounted(d, p, q, 8), st.HasTrack())
      case (Some(n), true) => Read(st.With(st.Track().(stco := Parse64(d, p + 8, n))))
      case _ => Malformed
    else if code == STSS then
      match (ParseCounted(d, p, q, 4), st.HasTrack())
      case (Some(n), true) => Read(st.With(st.Track().(stss := Parse32(d, p + 8, n))))
      case _ => Malformed
    else Read(st)
  }

  // ---- Movie fragments: trex, tfhd, tfdt, trun ----

  function ParseTrex(d: seq<byte>, p: nat, q: nat, st: Reading): Outcome {
    if !(p + 24 == q <= |d|) then Malformed else
      var r := FetchTrack(st, Get32(d, p + 4));
      var defs := Defaults(Get32(d, p + 8), Get32(d, p + 12), Get32(d, p + 16), Get32(d, p + 20));
      Read(r.With(r.Track().(trex := defs)).(cur := st.cur))
  }

  function Width(flags: uint24, bit: nat, bytes: nat): nat
    requires bit > 0
  {
    if Has(flags, bit) then bytes else 0
  }

  function TfhdSize(flags: uint24): nat {
    8 + Width(flags, TFHD_BASE_DATA_OFFSET, 8) + Width(flags, TFHD_SAMPLE_DESCRIPTION_INDEX, 4)
    + Width(flags, TFHD_DEFAULT_DURATION, 4) + Width(flags, TFHD_DEFAULT_SIZE, 4) + Width(flags, TFHD_DEFAULT_FLAGS, 4)
  }

  function Field(d: seq<byte>, p: nat, flags: uint24, bit: nat, default_: uint32): uint32
    requires bit > 0 && p + Width(flags, bit, 4) <= |d|
  {
    if Has(flags, bit) then Get32(d, p) else default_
  }

  function ParseTfhd(d: seq<byte>, p: nat, q: nat, st: Reading): Outcome {
    if !(p + 8 <= q <= |d|) || q != p + TfhdSize(Get24(d, p + 1)) then Malformed else
      var f, i := Get24(d, p + 1), FindTrack(st.tracks, Get32(d, p + 4));
      if i < 0 then Refused else
        var t := st.tracks[i];
        var a := p + 8 + Width(f, TFHD_BASE_DATA_OFFSET, 8);
        var b := a + Width(f, TFHD_SAMPLE_DESCRIPTION_INDEX, 4);
        var c := b + Width(f, TFHD_DEFAULT_DURATION, 4);
        var e := c + Width(f, TFHD_DEFAULT_SIZE, 4);
        var base := if Has(f, TFHD_BASE_DATA_OFFSET) then Get64(d, p + 8)
                    else if Has(f, TFHD_DEFAULT_BASE_IS_MOOF) then st.moof else st.implicit;
        var defs := Defaults(Field(d, a, f, TFHD_SAMPLE_DESCRIPTION_INDEX, t.trex.sdi),
                             Field(d, b, f, TFHD_DEFAULT_DURATION, t.trex.duration),
                             Field(d, c, f, TFHD_DEFAULT_SIZE, t.trex.size),
                             Field(d, e, f, TFHD_DEFAULT_FLAGS, t.trex.flags));
        Read(st.(cur := i, tracks := st.tracks[i := t.(tfhd := Tfhd(f, base, defs))]))
  }

  /** The length of the empty edits, which a fragment's base time does not include. */
  function EmptyEdits(es: seq<Elst>): nat {
    if es == [] then 0 else
      EmptyEdits(es[..|es| - 1]) + (if es[|es| - 1].time == -1 then es[|es| - 1].duration else 0)
  }

  function ParseTfdt(d: seq<byte>, p: nat, q: nat, st: Reading): Outcome {
    if !(p + 8 <= q <= |d|) || q != p + (if d[p] == 1 then 12 else 8) || !st.HasTrack() then Malformed else
      var base := if d[p] == 1 then S64(Get64(d, p + 4)) else Get32(d, p + 4);
      Read(st.With(st.Track().(clock := base + EmptyEdits(st.Track().elst))))
  }

  /** What stays the same while the entries of a run are read. */
  datatype RunHead = RunHead(version: byte, flags: uint24, tfhd: Tfhd, first: uint32) {
    function EntrySize(): nat {
      Width(flags, TRUN_DURATION, 4) + Width(flags, TRUN_SIZE, 4) + Width(flags, TRUN_FLAGS, 4)
      + Width(flags, TRUN_CTS, 4)
    }
  }

  /** The samples of a run so far, where the next one lies, and when it is decoded. */
  datatype Progress = Progress(samples: seq<Media>, offset: uint64, dts: int)

  function KeyOf(flags: uint32): int {
    if Has(flags, NO_SYNC_SAMPLE) || Has(flags, DEPENDS_ON_NOT_I_PICTURE) then 0 else KEYFRAME
  }

  /** One entry, at `e`; `first` for the first of the run. */
  function AddEntry(d: seq<byte>, e: nat, h: RunHead, first: bool, r: Progress): Progress
    requires e + h.EntrySize() <= |d|
  {
    var b := e + Width(h.flags, TRUN_DURATION, 4);
    var c := b + Width(h.flags, TRUN_SIZE, 4);
    var g := c + Width(h.flags, TRUN_FLAGS, 4);
    var duration := Field(d, e, h.flags, TRUN_DURATION, h.tfhd.defs.duration);
    var size := Field(d, b, h.flags, TRUN_SIZE, h.tfhd.defs.size);
    var flags := Field(d, c, h.flags, TRUN_FLAGS, if first then h.first else h.tfhd.defs.flags);
    var offset := Field(d, g, h.flags, TRUN_CTS, 0);
    var cts := if h.version == 1 then S32(offset) else offset;
    Progress(r.samples + [Media(KeyOf(flags), r.dts + cts, r.dts, r.offset, size, h.tfhd.defs.sdi)],
             U64(r.offset + size), r.dts + duration)
  }

  function Entries(d: seq<byte>, e: nat, n: nat, h: RunHead, r: Progress): (r': Progress)
    requires e + n * h.EntrySize() <= |d|
    decreases n
  {
    if n == 0 then r else
      assert n * h.EntrySize() == (n - 1) * h.EntrySize() + h.EntrySize();
      AddEntry(d, e + (n - 1) * h.EntrySize(), h, n == 1, Entries(d, e, n - 1, h, r))
  }

  function TrunFront(flags: uint24): nat {
    8 + Width(flags, TRUN_DATA_OFFSET, 4) + Width(flags, TRUN_FIRST_SAMPLE_FLAGS, 4)
  }

  function HeadOf(d: seq<byte>, p: nat, tfhd: Tfhd): RunHead
    requires p + 8 <= |d| && p + TrunFront(Get24(d, p + 1)) <= |d|
  {
    var f := Get24(d, p + 1);
    RunHead(d[p], f, tfhd, Field(d, p + 8 + Width(f, TRUN_DATA_OFFSET, 4), f, TRUN_FIRST_SAMPLE_FLAGS, tfhd.flags))
  }

  /** The tables of a track have been applied by the time that fragments add to its samples. */
  function ParseTrun(d: seq<byte>, p: nat, q: nat, st: Reading): Outcome {
    if !(p + 8 <= q <= |d|) || !st.HasTrack() || q < p + TrunFront(Get24(d, p + 1)) then Malformed else
      var f, n, t := Get24(d, p + 1), Get32(d, p + 4), st.Track();
      var h := HeadOf(d, p, t.tfhd);
      var e := p + TrunFront(f);
      if q != e + n * h.EntrySize() || |t.samples| != |t.sizes| then Malformed else
        var start := U64(t.tfhd.base + (if Has(f, TRUN_DATA_OFFSET) then S32(Get32(d, p + 8)) else 0));
        var r := Entries(d, e, n, h, Progress([], start, t.clock));
        Read(st.With(t.(samples := t.samples + r.samples, sizes := t.sizes + Sizes(r.samples), clock := r.dts))
               .(implicit := r.offset))
  }

  // ---- The random access index: tfra ----

  /** The bytes of the numbers of traf, trun and sample in an entry. */
  function NumberSize(sizes: uint32): nat { sizes / 16 % 4 + sizes / 4 % 4 + sizes % 4 + 3 }

  function MarkSize(large: bool, sizes: uint32): nat { (if large then 16 else 8) + NumberSize(sizes) }

  function MarkAt(d: seq<byte>, e: nat, large: bool): Mark
    requires e + (if large then 16 else 8) <= |d|
  {
    if large then Mark(Get64(d, e), Get64(d, e + 8)) else Mark(Get32(d, e), Get32(d, e + 4))
  }

  function Marks(d: seq<byte>, e: nat, n: nat, large: bool, sizes: uint32): (xs: seq<Mark>)
    requires e + n * MarkSize(large, sizes) <= |d|
    ensures |xs| == n
    decreases n
  {
    if n == 0 then [] else
      assert n * MarkSize(large, sizes) == (n - 1) * MarkSize(large, sizes) + MarkSize(large, sizes);
      Marks(d, e, n - 1, large, sizes) + [MarkAt(d, e + (n - 1) * MarkSize(large, sizes), large)]
  }

  function ParseTfra(d: seq<byte>, p: nat, q: nat, st: Reading): Outcome {
    if !(p + 8 <= q <= |d|) then Malformed else
      var i := FindTrack(st.tracks, Get32(d, p + 4));
      if i < 0 then Refused
      else if q < p + 16 then Malformed else
        var large, sizes, n := d[p] == 1, Get32(d, p + 8), Get32(d, p + 12);
        if q != p + 16 + n * MarkSize(large, sizes) then Malformed
        else Read(st.(tracks := st.tracks[i := st.tracks[i].(frags := Marks(d, p + 16, n, large, sizes))]))
  }

  // ---- Applying the tables ----

  /** What the apply passes take for granted of a track with samples. */
  predicate Consistent(t: Tables) {
    && t.stsc != [] && StscUp(t.stsc, |t.stco|)
    && Total(PlanOf(t)) == |t.sizes|
    && Counts(t.stts) == |t.sizes|
    && (t.ctts == [] || Counts(t.ctts) == |t.sizes|)
  }

  predicate StscUp(es: seq<Stsc>, chunks: nat)
    requires es != []
  {
    && es[0].first == 1 && es[|es| - 1].first <= chunks
    && forall i :: 0 <= i < |es| - 1 ==> es[i].first < es[i + 1].first
  }

  /** The chunks as the tables describe them. */
  function PlanOf(t: Tables): (cs: seq<Chunk>)
    requires t.stsc != []
    ensures |cs| == |t.stco|
  {
    seq(|t.stco|, j requires 0 <= j < |t.stco| =>
      var e := t.stsc[Governing(t.stsc, j + 1)];
      Chunk(t.stco[j], e.count, e.sdi, 0))
  }

  /** Where the first sample starts: the length of the last empty edit, if there is one. */
  function BaseTime(es: seq<Elst>): nat {
    if es == [] then 0
    else if es[|es| - 1].time == -1 then es[|es| - 1].duration
    else BaseTime(es[..|es| - 1])
  }

  function Rebuild(t: Tables): (ms: seq<Media>)
    requires Consistent(t)
    ensures |ms| == |t.sizes|
  {
    ExpandLength(t.stts);
    ExpandLength(t.ctts);
    var spots := Place(PlanOf(t), t.sizes);
    var dts := DtsFrom(BaseTime(t.elst), Expand(t.stts));
    seq(|t.sizes|, i requires 0 <= i < |t.sizes| =>
      Media(if i + 1 in t.stss then KEYFRAME else 0,
            if t.ctts == [] then dts[i] else PtsFrom(dts[i], Expand(t.ctts)[i], ShiftOf(t.ctts)),
            dts[i], spots[i].offset, t.sizes[i], spots[i].sdi))
  }

  /** The end of a trak. */
  function ApplyTables(st: Reading): Outcome {
    if !st.HasTrack() then Malformed
    else if st.Track().sizes == [] then Read(st.With(st.Track().(clock := 0)))
    else if st.Track().samples == [] && Consistent(st.Track()) then
      var ms := Rebuild(st.Track());
      Read(st.With(st.Track().(samples := ms, clock := ms[|ms| - 1].dts)))
    else Malformed
  }

  // ---- The tree ----

  /** The size of the box at `p`, and of its header; a size that does not cover the header is malformed. */
  function BoxExtent(d: seq<byte>, p: nat, end: nat): Option<(nat, nat)>
    requires p + 8 <= |d|
  {
    var size := Get32(d, p);
    if size != 1 then
      if 8 <= size && p + size <= end then Some((size, 8)) else None
    else if p + 16 <= |d| && 16 <= Get64(d, p + 8) && p + Get64(d, p + 8) <= end then
      Some((Get64(d, p + 8), 16))
    else None
  }

  /** mov_reader_box over the boxes from `p` to `end`. A box that needs all of the last 8 bytes of its
      parent is not looked at. */
  function ParseBoxes(d: seq<byte>, p: nat, end: nat, parent: Kind, st: Reading): Outcome
    decreases if p <= end then end - p else 0, 1
  {
    if !(p + 8 < end) then Read(st)
    else if p + 8 > |d| then (if parent == Root && p == |d| then Read(st) else Malformed)
    else
      match BoxExtent(d, p, end)
      case None => Malformed
      case Some((size, n)) =>
        match ParseBox(d, p + n, p + size, Get32(d, p + 4), parent, st)
        case Read(st') => ParseBoxes(d, p + size, end, parent, st')
        case Refused => Refused
        case Malformed => Malformed
  }

  function ParseBox(d: seq<byte>, p: nat, q: nat, code: uint32, parent: Kind, st: Reading): Outcome
    requires 8 <= p <= q
    decreases q - p, 2
  {
    match Container(code, parent)
    case None => ParseLeaf(d, p, q, code, parent, st)
    case Some(kind) =>
      if kind == Moof then ParseBoxes(d, p, q, kind, st.(moof := U64(p - 8), implicit := U64(p - 8)))
      else if kind != Trak then ParseBoxes(d, p, q, kind, st)
      else
        match ParseBoxes(d, p, q, kind, st.(cur := -1))
        case Read(st') => ApplyTables(st')
        case Refused => Refused
        case Malformed => Malformed
  }

  /** A whole file. */
  function ReadingOf(d: seq<byte>): Outcome {
    ParseBoxes(d, 0, 0xFFFF_FFFF_FFFF_FFFF, Root, START)
  }

  /** Its tracks. */
  function ParseFile(d: seq<byte>): Option<seq<Tables>> {
    match ReadingOf(d)
    case Read(st) => Some(st.tracks)
    case Refused => None
    case Malformed => None
  }
}
