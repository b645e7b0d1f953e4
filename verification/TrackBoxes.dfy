/** The boxes of a `trak` as byte strings, written once and front to back: the reference that the
    placeholder-and-seek-back writers must reproduce. */
module TrackBoxes {
  import opened Bytes
  import opened Runs
  import opened SampleTables
  import opened Timing

  const TIMESCALE := 1000  // both mvhd.timescale and every mdhd.timescale

  datatype Handler = Video | Audio | Subtitle

  datatype Header = Header(handler: Handler, id: uint32, created: uint32, width: uint32, height: uint32,
                           stsd: seq<byte>)

  /** A track as the writers of `trak` see it. */
  datatype TrackV = TrackV(header: Header, duration: nat, ms: seq<Media>, shift: nat, cttsV1: bool)

  // ---- Header boxes with fixed fields ----

  function MvhdBox(created: uint32, duration: nat, nextId: uint32): (b: seq<byte>)
    ensures |b| == 108
  {
    FullBox("mvhd", 0, 0, List32([created, created, TIMESCALE, duration, 0x1_0000, 0x100_0000, 0, 0,
                                  0x1_0000, 0, 0, 0, 0x1_0000, 0, 0, 0, 0x4000_0000, 0, 0, 0, 0, 0, 0, nextId]))
  }

  function TkhdBox(h: Header, duration: nat): (b: seq<byte>)
    ensures |b| == 92
  {
    FullBox("tkhd", 0, 3, List32([h.created, h.created, h.id, 0, duration, 0, 0, 0,
                                  if h.handler == Audio then 0x100_0000 else 0,
                                  0x1_0000, 0, 0, 0, 0x1_0000, 0, 0, 0, 0x4000_0000, h.width, h.height]))
  }

  function MdhdBox(h: Header, duration: nat): (b: seq<byte>)
    ensures |b| == 32
  {
    FullBox("mdhd", 0, 0, List32([h.created, h.created, TIMESCALE, duration, 0x55C4_0000]))
  }

  function HdlrBox(handler: Handler): (b: seq<byte>) {
    FullBox("hdlr", 0, 0, List32([0]) + Tag(HandlerType(handler)) + List32([0, 0, 0])
                          + Text(HandlerName(handler)) + [0])
  }

  function HandlerType(handler: Handler): (s: string)
    ensures |s| == 4
  {
    match handler case Video => "vide" case Audio => "soun" case Subtitle => "sbtl"
  }

  function HandlerName(handler: Handler): (s: string)
    ensures |s| < 20
  {
    match handler case Video => "VideoHandler" case Audio => "SoundHandler" case Subtitle => "SubtitleHandler"
  }

  function Text(s: string): (b: seq<byte>)
    ensures |b| == |s|
  {
    seq(|s|, i requires 0 <= i < |s| => s[i] as int % 0x100)
  }

  function MediaHeaderBox(handler: Handler): (b: seq<byte>) {
    match handler
    case Video => FullBox("vmhd", 0, 1, List32([0, 0]))
    case Audio => FullBox("smhd", 0, 0, List32([0]))
    case Subtitle => FullBox("nmhd", 0, 0, [])
  }

  function DrefBox(): (b: seq<byte>)
    ensures |b| == 28
  {
    FullBox("dref", 0, 0, BE32(1) + FullBox("url ", 0, 1, []))
  }

  function DinfBox(): (b: seq<byte>)
    ensures |b| == 36
  {
    Box("dinf", DrefBox())
  }

  // ---- Sample table boxes ----

  function SttsBox(ms: seq<Media>): (b: seq<byte>) {
    var rs := Compress(Deltas(ms));
    FullBox("stts", 0, 0, BE32(U32(|rs|)) + RunBytes(rs))
  }

  function CttsBox(ms: seq<Media>, v1: bool): (b: seq<byte>) {
    var rs := Compress(Offsets(ms));
    FullBox("ctts", if v1 then 1 else 0, 0, BE32(U32(|rs|)) + RunBytes(rs))
  }

  /** The sample numbers, from 1, of the key frames. */
  function KeyNumbers(ms: seq<Media>): (ks: seq<nat>)
    ensures |ks| <= |ms|
  {
    if ms == [] then [] else
      var n := |ms| - 1;
      KeyNumbers(ms[..n]) + (if IsKey(ms[n]) then [n + 1] else [])
  }

  function StssBox(ms: seq<Media>): (b: seq<byte>) {
    FullBox("stss", 0, 0, BE32(U32(|KeyNumbers(ms)|)) + List32(KeyNumbers(ms)))
  }

  function StscEntry(e: Stsc): (b: seq<byte>)
    ensures |b| == 12
  {
    BE32(U32(e.first)) + BE32(U32(e.count)) + BE32(e.sdi)
  }

  function StscBytes(es: seq<Stsc>): (b: seq<byte>)
    ensures |b| == 12 * |es|
  {
    if es == [] then [] else
      var n := |es| - 1;
      StscBytes(es[..n]) + StscEntry(es[n])
  }

  function StscBox(ms: seq<Media>): (b: seq<byte>) {
    var es := StscOf(Chunks(ms));
    FullBox("stsc", 0, 0, BE32(U32(|es|)) + StscBytes(es))
  }

  predicate AllSame(xs: seq<uint32>) {
    forall i :: 0 < i < |xs| ==> xs[i] == xs[i - 1]
  }

  /** One size for all samples, or a table of sizes behind a zero. */
  function StszBody(xs: seq<uint32>): (b: seq<byte>) {
    if AllSame(xs)
    then BE32(if xs == [] then 0 else xs[0]) + BE32(U32(|xs|))
    else BE32(0) + BE32(U32(|xs|)) + List32(xs)
  }

  function StszBox(ms: seq<Media>): (b: seq<byte>) {
    FullBox("stsz", 0, 0, StszBody(Sizes(ms)))
  }

  /** The shifted offset of the last sample decides between 32-bit and 64-bit chunk offsets. */
  predicate NeedsCo64(ms: seq<Media>, shift: nat) {
    ms != [] && ms[|ms| - 1].offset + shift > UINT32_MAX
  }

  function ChunkOffsets(ms: seq<Media>, shift: nat): (xs: seq<nat>)
    ensures |xs| == |Chunks(ms)|
  {
    var cs := Chunks(ms);
    seq(|cs|, i requires 0 <= i < |cs| => cs[i].offset + shift)
  }

  function StcoBox(ms: seq<Media>, shift: nat): (b: seq<byte>)
    ensures |b| == 16 + |Chunks(ms)| * (if NeedsCo64(ms, shift) then 8 else 4)
  {
    var xs := ChunkOffsets(ms, shift);
    if NeedsCo64(ms, shift)
    then FullBox("co64", 0, 0, BE32(U32(|xs|)) + List64(xs))
    else FullBox("stco", 0, 0, BE32(U32(|xs|)) + List32(xs))
  }

  // ---- Edit list ----

  datatype Elst = Elst(duration: nat, time: int)

  function Delay(ms: seq<Media>): int
    requires ms != []
  {
    Quotient(ms[0].pts * TIMESCALE, TIMESCALE)
  }

  function ElstVersion(ms: seq<Media>, duration: nat): byte
    requires ms != []
  {
    if duration > UINT32_MAX || Delay(ms) > UINT32_MAX then 1 else 0
  }

  function ElstTime(ms: seq<Media>): nat
    requires ms != []
  {
    if Cts(ms[0]) < 0 then 0 else Cts(ms[0])
  }

  function ElstEntry(version: byte, duration: nat, time: int): (b: seq<byte>)
    ensures |b| == if version == 1 then 20 else 12
  {
    (if version == 1 then BE64(U64(duration)) + BE64(U64(time)) else BE32(U32(duration)) + BE32(U32(time)))
    + BE16(1) + BE16(0)
  }

  function ElstBox(ms: seq<Media>, duration: nat): (b: seq<byte>)
    requires ms != []
  {
    var v := ElstVersion(ms, duration);
    var entry := ElstEntry(v, duration, ElstTime(ms));
    FullBox("elst", v, 0,
            if Delay(ms) > 0 then BE32(2) + ElstEntry(v, Delay(ms), -1) + entry else BE32(1) + entry)
  }

  // ---- The nest ----

  function EdtsBox(ms: seq<Media>, duration: nat): (b: seq<byte>) {
    if ms == [] then [] else Box("edts", ElstBox(ms, duration))
  }

  /** `ctts` is left out when a single run of offset 0 covers the track. */
  predicate WritesCtts(ms: seq<Media>) {
    var rs := Compress(Offsets(ms));
    ms != [] && (|rs| > 1 || rs[0].value != 0)
  }

  predicate HasStss(h: Header) { h.width > 0 && h.height > 0 }

  /** The version-1 flag once the offsets have been scanned: a run that starts below its decode time. */
  function NegativeRun(ms: seq<Media>): bool {
    if ms == [] then false else
      var n := |ms| - 1;
      NegativeRun(ms[..n])
      || (Cts(ms[n]) < 0 && (n == 0 || U32(Cts(ms[n])) != U32(Cts(ms[n - 1]))))
  }

  function TimeTables(t: TrackV): (b: seq<byte>) {
    SttsBox(t.ms)
    + (if HasStss(t.header) then StssBox(t.ms) else [])
    + (if WritesCtts(t.ms) then CttsBox(t.ms, t.cttsV1 || NegativeRun(t.ms)) else [])
  }

  function ChunkTables(t: TrackV): (b: seq<byte>) {
    StscBox(t.ms) + StszBox(t.ms) + StcoBox(t.ms, t.shift)
  }

  function StblBody(t: TrackV): (b: seq<byte>) {
    t.header.stsd + TimeTables(t) + ChunkTables(t)
  }

  function MinfBody(t: TrackV): (b: seq<byte>) {
    MediaHeaderBox(t.header.handler) + DinfBox() + Box("stbl", StblBody(t))
  }

  function MdiaBody(t: TrackV): (b: seq<byte>) {
    MdhdBox(t.header, t.duration) + HdlrBox(t.header.handler) + Box("minf", MinfBody(t))
  }

  function TrakBody(t: TrackV): (b: seq<byte>) {
    TkhdBox(t.header, t.duration) + EdtsBox(t.ms, t.duration) + Box("mdia", MdiaBody(t))
  }

  function TrakBox(t: TrackV): (b: seq<byte>) {
    Box("trak", TrakBody(t))
  }

  /** All non-empty tracks. */
  function Traks(ts: seq<TrackV>): (b: seq<byte>) {
    if ts == [] then [] else
      var n := |ts| - 1;
      Traks(ts[..n]) + (if ts[n].ms == [] then [] else TrakBox(ts[n]))
  }

  datatype MovieV = MovieV(created: uint32, duration: nat, nextId: uint32, udta: seq<byte>)

  function UdtaBox(udta: seq<byte>): (b: seq<byte>) {
    if udta == [] then [] else Box("udta", udta)
  }

  function MoovBox(m: MovieV, ts: seq<TrackV>): (b: seq<byte>)
    ensures |b| >= 116
  {
    Box("moov", MvhdBox(m.created, m.duration, m.nextId) + Traks(ts) + UdtaBox(m.udta))
  }
}
