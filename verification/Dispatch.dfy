/** What becomes of the frames of a connection: packets are handed over or cached, and every receive
    buffer ends up in the pool or in one queue. */
module Dispatch {
  import opened Bytes
  import opened Options
  import opened RtpPacket
  import opened Depacketizer
  import opened FrameCache
  import opened RtspStream

  /** Payload types from the session description, and the number of frames in the cache. */
  datatype Config = Config(h264: nat, h265: nat, max: nat)

  /** The cache of a connection, the free buffers, and what has been handed to the client. */
  datatype World = World(frames: Frames, pool: seq<nat>, out: seq<Out>)

  /** The payload type's own place for the type of a unit; a packet without payload counts as 0. */
  function UnitType(codec: Codec, d: seq<byte>, head: nat): nat
    requires head <= |d|
  {
    var b := if head < |d| then d[head] else 0;
    if codec == H264 then b % 32 else b / 2 % 64
  }

  predicate IsFragment(codec: Codec, d: seq<byte>, head: nat)
    requires head <= |d|
  {
    UnitType(codec, d, head) == if codec == H264 then H264_FU_A else H265_FU
  }

  /** Everything between header and padding; nothing when the padding is said to be longer. */
  function Inside(d: seq<byte>): Option<seq<byte>> {
    match HeadLength(d)
    case None => None
    case Some(head) =>
      var tail := TailAfter(d, 0);
      if head + tail <= |d| then Some(d[head..|d| - tail]) else None
  }

  function CodecOf(c: Config, payloadType: nat): Option<Codec> {
    if c.h264 == payloadType then Some(H264) else if c.h265 == payloadType then Some(H265) else None
  }

  function AudioOf(payloadType: nat): Option<Codec> {
    if payloadType == PCMU then Some(G711U) else if payloadType == PCMA then Some(G711A) else None
  }

  /** What a handler has done with a packet in buffer `b`: true when it took care of the buffer. */
  datatype Handled = Handled(w: World, ok: bool)

  ghost predicate Fits(c: Config, w: World) { c.max > 0 && |w.frames| <= c.max }

  function PackOf(d: seq<byte>, b: nat): Pack
    requires |d| >= FIXED
  {
    Pack(SeqNo(d), Timestamp(d), Marked(d[1]), b, d)
  }

  function Handed(c: Config, out: seq<Out>, f: Option<FrameV>): seq<Out> {
    match f
    case None => out
    case Some(x) => More(out, DeliverAs(c.h264, c.h265, x.payloadType, x.queue))
  }

  /** A packet handed straight on; its buffer is free again. */
  function Direct(w: World, b: nat, o: Out): Handled {
    Handled(w.(pool := w.pool + [b], out := w.out + [o]), true)
  }

  ghost function Video(c: Config, w: World, b: nat, d: seq<byte>): Handled
    requires Fits(c, w)
  {
    match HeadLength(d)
    case None => Handled(w, false)
    case Some(head) =>
      match CodecOf(c, PayloadType(d[1]))
      case None => Handled(w, false)
      case Some(codec) =>
        if IsFragment(codec, d, head) then
          var s := Arrive(w.frames, c.max, PackOf(d, b), PayloadType(d[1]));
          Handled(World(s.frames, w.pool + s.released, Handed(c, w.out, s.finished)), s.ok)
        else
          match Inside(d)
          case None => Handled(w, false)
          case Some(p) => Direct(w, b, Out(codec, Timestamp(d), START_CODE + p))
  }

  function AudioPacket(w: World, b: nat, d: seq<byte>): Handled {
    match HeadLength(d)
    case None => Handled(w, false)
    case Some(head) =>
      match (AudioOf(PayloadType(d[1])), Inside(d))
      case (Some(codec), Some(p)) => Direct(w, b, Out(codec, Timestamp(d), p))
      case _ => Handled(w, false)
  }

  /** A frame from the wire: a buffer is taken for it, and freed unless the handler has it. Without a
      free buffer the frame is dropped. */
  ghost function HandleFrame(c: Config, w: World, f: Wire): World
    requires Fits(c, w)
  {
    if w.pool == [] then w else
      var b, w1 := w.pool[0], w.(pool := w.pool[1..]);
      var h := if f.channel == VIDEO_RTP then Video(c, w1, b, f.payload)
               else if f.channel == AUDIO_RTP then AudioPacket(w1, b, f.payload)
               else Handled(w1.(pool := w1.pool + [b]), true);
      if h.ok then h.w else h.w.(pool := h.w.pool + [b])
  }

  // ---- Ownership ----

  ghost predicate Sound(c: Config, w: World) {
    Fits(c, w) && Good(w.frames) && Apart(w.pool, w.frames)
  }

  lemma VideoOwns(c: Config, w: World, b: nat, d: seq<byte>)
    requires Sound(c, w) && b !in Owned(w.pool, w.frames)
    ensures var h := Video(c, w, b, d);
      var pool := if h.ok then h.w.pool else h.w.pool + [b];
      && Sound(c, h.w.(pool := pool)) && Owned(pool, h.w.frames) == Owned(w.pool, w.frames) + {b}
  {
    hide HeadLength, Apart, Owned, Good, Arrive, IsFragment, Inside;
    ReturnApart(w.pool, w.frames, b);
    if HeadLength(d).Some? {
      HeadSize(d);
      var p := PackOf(d, b);
      ArriveOwns(w.pool, w.frames, c.max, p, PayloadType(d[1]));
      ArriveGood(w.frames, c.max, p, PayloadType(d[1]));
      var s := Arrive(w.frames, c.max, p, PayloadType(d[1]));
      assert w.pool + s.released + [] == w.pool + s.released;
    }
  }

  lemma HeadSize(d: seq<byte>)
    requires HeadLength(d).Some?
    ensures |d| >= FIXED
  {
  }

  /** Whatever comes over the wire: no buffer is lost, none is freed twice, none is in two queues. */
  lemma HandleOwns(c: Config, w: World, f: Wire)
    requires Sound(c, w)
    ensures Sound(c, HandleFrame(c, w, f))
    ensures Owned(HandleFrame(c, w, f).pool, HandleFrame(c, w, f).frames) == Owned(w.pool, w.frames)
  {
    hide Video, AudioPacket, Apart, Owned, Good;
    if w.pool != [] {
      var b, w1 := w.pool[0], w.(pool := w.pool[1..]);
      TakeApart(w.pool, w.frames);
      if f.channel == VIDEO_RTP {
        VideoOwns(c, w1, b, f.payload);
      } else {
        ReturnApart(w1.pool, w1.frames, b);
        AudioIs(w1, b, f.payload);
      }
    }
  }

  lemma AudioIs(w: World, b: nat, d: seq<byte>)
    ensures var h := AudioPacket(w, b, d);
      h.w.frames == w.frames && h.w.pool == if h.ok then w.pool + [b] else w.pool
  {
    hide HeadLength, Inside;
  }

  /** The frames of a stream, one after the other. */
  ghost function HandleAll(c: Config, w: World, fs: seq<Wire>): World
    requires Sound(c, w)
    decreases fs
  {
    if fs == [] then w else
      HandleOwns(c, w, fs[0]);
      HandleAll(c, HandleFrame(c, w, fs[0]), fs[1..])
  }

  lemma {:induction false} HandleAllOwns(c: Config, w: World, fs: seq<Wire>)
    requires Sound(c, w)
    ensures var r := HandleAll(c, w, fs);
      Sound(c, r) && Owned(r.pool, r.frames) == Owned(w.pool, w.frames)
    decreases fs
  {
    hide HandleFrame, Apart, Good, Owned;
    if fs != [] {
      HandleOwns(c, w, fs[0]);
      HandleAllOwns(c, HandleFrame(c, w, fs[0]), fs[1..]);
    }
  }

  lemma {:induction false} HandleAllConcat(c: Config, w: World, fs: seq<Wire>, gs: seq<Wire>)
    requires Sound(c, w)
    ensures Sound(c, HandleAll(c, w, fs))
    ensures HandleAll(c, w, fs + gs) == HandleAll(c, HandleAll(c, w, fs), gs)
    decreases fs
  {
    hide HandleFrame, Apart, Good;
    if fs == [] {
      assert fs + gs == gs;
    } else {
      HandleOwns(c, w, fs[0]);
      assert (fs + gs)[1..] == fs[1..] + gs;
      HandleAllConcat(c, HandleFrame(c, w, fs[0]), fs[1..], gs);
    }
  }

  // ---- Receives ----

  /** A connection: its world, the bytes it has not used yet, and whether it is still open. */
  datatype Link = Link(w: World, pending: seq<byte>, open: bool)

  ghost function Receive(c: Config, l: Link, chunk: seq<byte>): Link
    requires Sound(c, l.w)
  {
    if !l.open then l else
      var p := ParseStream(l.pending + chunk);
      Link(HandleAll(c, l.w, p.frames), p.rest, p.ok)
  }

  ghost function ReceiveAll(c: Config, l: Link, chunks: seq<seq<byte>>): Link
    requires Sound(c, l.w)
    decreases chunks
  {
    if chunks == [] then l else
      ReceiveSound(c, l, chunks[0]);
      ReceiveAll(c, Receive(c, l, chunks[0]), chunks[1..])
  }

  /** What is left of a connection when its organizer has been released. */
  ghost function Closed(l: Link): Link {
    Link(World(map[], l.w.pool + ReleaseAll(l.w.frames), l.w.out), l.pending, false)
  }

  lemma ReceiveSound(c: Config, l: Link, chunk: seq<byte>)
    requires Sound(c, l.w)
    ensures Sound(c, Receive(c, l, chunk).w)
  {
    hide Sound, HandleAll;
    if l.open {
      HandleAllOwns(c, l.w, ParseStream(l.pending + chunk).frames);
    }
  }

  function JoinAll(chunks: seq<seq<byte>>): seq<byte>
    decreases chunks
  {
    if chunks == [] then [] else chunks[0] + JoinAll(chunks[1..])
  }

  /** Nothing pending could be used on its own. */
  ghost predicate Waiting(l: Link) {
    l.open ==> ParseStream(l.pending) == Parsed([], l.pending, true)
  }

  lemma RestWaits(d: seq<byte>)
    ensures var p := ParseStream(d);
      p.ok ==> ParseStream(p.rest) == Parsed([], p.rest, true)
  {
    RestBounded(d);
  }

  /** However a stream is cut into receives, the connection ends up the same: same frames handled in the
      same order, so same output, cache and pool, and open or closed alike. */
  lemma {:induction false} ChunkIndependent(c: Config, l: Link, chunks: seq<seq<byte>>)
    requires Sound(c, l.w) && Waiting(l)
    ensures var r, one := ReceiveAll(c, l, chunks), Receive(c, l, JoinAll(chunks));
      r.w == one.w && r.open == one.open && (r.open ==> r.pending == one.pending)
    decreases chunks
  {
    hide Sound, HandleAll, ParseStream;
    if chunks == [] {
      assert l.pending + [] == l.pending;
      NoFrames(c, l.w);
    } else if l.open {
      var p := ParseStream(l.pending + chunks[0]);
      var rest := JoinAll(chunks[1..]);
      ReceiveSound(c, l, chunks[0]);
      RestWaits(l.pending + chunks[0]);
      ChunkIndependent(c, Receive(c, l, chunks[0]), chunks[1..]);
      assert l.pending + JoinAll(chunks) == (l.pending + chunks[0]) + rest;
      ParseConcat(l.pending + chunks[0], rest);
      if p.ok {
        HandleAllConcat(c, l.w, p.frames, ParseStream(p.rest + rest).frames);
      }
    } else {
      ChunkIndependent(c, l, chunks[1..]);
    }
  }

  lemma NoFrames(c: Config, w: World)
    requires Sound(c, w)
    ensures HandleAll(c, w, []) == w
  {
  }

  // ---- Many connections, one pool ----

  /** Every buffer of the service is in the pool or once in one queue of one connection. */
  ghost predicate Shared(c: Config, pool: seq<nat>, caches: seq<Frames>) {
    && (forall k :: 0 <= k < |caches| ==> Sound(c, World(caches[k], pool, [])))
    && (forall k, l :: 0 <= k < l < |caches| ==> Held(caches[k]) !! Held(caches[l]))
  }

  ghost function AllBuffers(pool: seq<nat>, caches: seq<Frames>): set<nat> {
    Listed(pool) + set k, b | 0 <= k < |caches| && b in Held(caches[k]) :: b
  }

  lemma SoundOut(c: Config, w: World, out: seq<Out>)
    requires Sound(c, w)
    ensures Sound(c, w.(out := out))
  {
  }

  /** One connection uses the pool: the other connections keep what they hold. */
  lemma SharedStep(c: Config, pool: seq<nat>, caches: seq<Frames>, k: nat, w: World)
    requires Shared(c, pool, caches) && k < |caches|
    requires Sound(c, w) && Owned(w.pool, w.frames) == Owned(pool, caches[k])
    ensures Shared(c, w.pool, caches[k := w.frames])
    ensures AllBuffers(w.pool, caches[k := w.frames]) == AllBuffers(pool, caches)
  {
    hide Held, Good, Listed;
    var after := caches[k := w.frames];
    assert Held(w.frames) <= Owned(pool, caches[k]) && Listed(w.pool) <= Owned(pool, caches[k]);
    forall l | 0 <= l < |after|
      ensures Sound(c, World(after[l], w.pool, [])) && (l != k ==> Held(after[l]) !! Owned(pool, caches[k]))
    {
      assert Sound(c, World(caches[l], pool, []));
      if l == k {
        SoundOut(c, w, []);
      } else {
        assert if l < k then Held(caches[l]) !! Held(caches[k]) else Held(caches[k]) !! Held(caches[l]);
      }
    }
    forall b
      ensures b in AllBuffers(w.pool, after) <==> b in AllBuffers(pool, caches)
    {
      BufferPlace(w.pool, after, b);
      BufferPlace(pool, caches, b);
      if b in Owned(pool, caches[k]) {
        assert b in Listed(w.pool) || b in Held(after[k]);
      }
      if l :| 0 <= l < |caches| && b in Held(caches[l]) {
        assert l != k ==> b in Held(after[l]);
      }
      if l :| 0 <= l < |after| && b in Held(after[l]) {
        assert l != k ==> b in Held(caches[l]);
      }
    }
  }

  lemma BufferPlace(pool: seq<nat>, caches: seq<Frames>, b: nat)
    ensures b in AllBuffers(pool, caches) <==> b in Listed(pool) || exists k :: 0 <= k < |caches| && b in Held(caches[k])
  {
    hide Held;
  }

  // ---- Packets that are handed straight on ----

  lemma SentInside(h: Head, payload: seq<byte>)
    requires h.Valid()
    ensures var d := Sent(h, payload);
      && |d| >= FIXED && HeadLength(d).Some? && HeadLength(d).value <= |d| && Inside(d) == Some(payload)
      && PayloadType(d[1]) == h.payloadType && Timestamp(d) == h.ts && d[HeadLength(d).value..] == payload
  {
    hide HeadLength, Sent;
    SentParsed(h, payload);
    var d := Sent(h, payload);
    assert d[HeadLength(d).value..|d| - 0] == payload;
  }

  lemma PaddedInside(h: Head, payload: seq<byte>, fill: seq<byte>)
    requires h.Valid() && |fill| < 255
    ensures var d := SentPadded(h, payload, fill);
      && |d| >= FIXED && HeadLength(d).Some? && HeadLength(d).value <= |d| && Inside(d) == Some(payload)
      && PayloadType(d[1]) == h.payloadType && Timestamp(d) == h.ts
      && (payload != [] ==> HeadLength(d).value < |d| && d[HeadLength(d).value] == payload[0])
  {
    hide HeadLength, SentPadded, Timestamp, PayloadType, TailAfter;
    PaddedParsed(h, payload, fill, 0);
    var d := SentPadded(h, payload, fill);
    var n := HeadLength(d).value;
    if payload != [] {
      assert d[n] == d[n..|d| - (|fill| + 1)][0];
    }
  }

  /** The payload types that the session description has announced, H.264 first. */
  ghost predicate Announced(c: Config, payloadType: nat, codec: Codec) {
    if codec == H264 then payloadType == c.h264 else codec == H265 && payloadType == c.h265 && payloadType != c.h264
  }

  /** A unit that is not of the type that marks fragments. */
  ghost predicate WholeUnit(nal: seq<byte>, codec: Codec) {
    nal != [] && if codec == H264 then nal[0] % 32 != 28 else nal[0] / 2 % 64 != 49
  }

  /** A unit that came in one packet reaches the client behind a start code, and its buffer the pool. */
  lemma UnitPassedOn(c: Config, w: World, h: Head, nal: seq<byte>, codec: Codec)
    requires Fits(c, w) && w.pool != [] && h.Valid() && Announced(c, h.payloadType, codec) && WholeUnit(nal, codec)
    ensures HandleFrame(c, w, Wire(0, Sent(h, nal)))
         == World(w.frames, w.pool[1..] + [w.pool[0]], w.out + [Out(codec, h.ts, [0, 0, 0, 1] + nal)])
  {
    hide HeadLength, Sent, Inside, Arrive, Timestamp, PayloadType;
    SentInside(h, nal);
    var d := Sent(h, nal);
    assert d[HeadLength(d).value] == d[HeadLength(d).value..][0];
  }

  /** Padding stays behind. */
  lemma PaddedPassedOn(c: Config, w: World, h: Head, nal: seq<byte>, fill: seq<byte>, codec: Codec)
    requires Fits(c, w) && w.pool != [] && h.Valid() && Announced(c, h.payloadType, codec) && WholeUnit(nal, codec)
    requires |fill| < 255
    ensures HandleFrame(c, w, Wire(0, SentPadded(h, nal, fill)))
         == World(w.frames, w.pool[1..] + [w.pool[0]], w.out + [Out(codec, h.ts, [0, 0, 0, 1] + nal)])
  {
    hide HeadLength, SentPadded, Inside, Arrive, Timestamp, PayloadType;
    PaddedInside(h, nal, fill);
  }

  /** Audio is handed on as it is, as the law that its static payload type says. */
  lemma AudioPassedOn(c: Config, w: World, h: Head, payload: seq<byte>)
    requires Fits(c, w) && w.pool != [] && h.Valid() && (h.payloadType == 0 || h.payloadType == 8)
    ensures HandleFrame(c, w, Wire(2, Sent(h, payload)))
         == World(w.frames, w.pool[1..] + [w.pool[0]],
                  w.out + [Out(if h.payloadType == 0 then G711U else G711A, h.ts, payload)])
  {
    hide HeadLength, Sent, Inside, Timestamp, PayloadType;
    SentInside(h, payload);
  }

  lemma PaddedAudioPassedOn(c: Config, w: World, h: Head, payload: seq<byte>, fill: seq<byte>)
    requires Fits(c, w) && w.pool != [] && h.Valid() && (h.payloadType == 0 || h.payloadType == 8) && |fill| < 255
    ensures HandleFrame(c, w, Wire(2, SentPadded(h, payload, fill)))
         == World(w.frames, w.pool[1..] + [w.pool[0]],
                  w.out + [Out(if h.payloadType == 0 then G711U else G711A, h.ts, payload)])
  {
    hide HeadLength, SentPadded, Inside, Timestamp, PayloadType;
    PaddedInside(h, payload, fill);
  }

  // ---- Frames that come to nothing ----

  /** No unit of video and no law of audio: RTCP and unknown channels, what is no RTP packet, and payload
      types that nobody announced. */
  ghost predicate Useless(c: Config, f: Wire) {
    || (f.channel != 0 && f.channel != 2)
    || !Sendable(f.payload)
    || (f.channel == 0 && f.payload[1] % 128 != c.h264 && f.payload[1] % 128 != c.h265)
    || (f.channel == 2 && f.payload[1] % 128 != 0 && f.payload[1] % 128 != 8)
  }

  /** What a sender can have laid out. */
  ghost predicate Sendable(d: seq<byte>)
    ensures Sendable(d) ==> |d| >= 12
  {
    exists h: Head, padded, rest :: h.Valid() && d == Front(h, padded) + rest
  }

  /** They leave the client and the cache as they were; the buffer they came in is free again. */
  lemma UselessIgnored(c: Config, w: World, f: Wire)
    requires Fits(c, w) && w.pool != [] && Useless(c, f)
    ensures HandleFrame(c, w, f) == w.(pool := w.pool[1..] + [w.pool[0]])
  {
    hide HeadLength, Inside, Arrive, Timestamp, Front;
    AcceptedIs(f.payload);
  }

  /** Without a free buffer any frame is lost. */
  lemma NoBufferNoFrame(c: Config, w: World, f: Wire)
    requires Fits(c, w) && w.pool == []
    ensures HandleFrame(c, w, f) == w
  {
  }

  /** What the client has been given stays given, and a frame brings one thing more at most. */
  lemma OutGrows(c: Config, w: World, f: Wire)
    requires Fits(c, w)
    ensures w.out <= HandleFrame(c, w, f).out && |HandleFrame(c, w, f).out| <= |w.out| + 1
  {
    hide HeadLength, Inside, Arrive, Timestamp, IsFragment, DeliverAs;
  }

  // ---- From the bytes of one frame ----

  /** One frame in one receive. */
  lemma FrameReceived(c: Config, l: Link, channel: byte, d: seq<byte>)
    requires Sound(c, l.w) && l.open && l.pending == [] && |d| <= 1500
    ensures Receive(c, l, [0x24, channel] + BE16(|d|) + d) == Link(HandleFrame(c, l.w, Wire(channel, d)), [], true)
  {
    hide HandleFrame, Sound, ParseStream;
    var f := Wire(channel, d);
    assert StreamOf([f][1..]) == [];
    assert StreamOf([f]) == WireBytes(f) + [] == WireBytes(f);
    StreamParsed([f]);
    assert [] + WireBytes(f) == WireBytes(f);
    HandleOwns(c, l.w, f);
    AllOfOne(c, l.w, f);
  }

  lemma AllOfOne(c: Config, w: World, f: Wire)
    requires Sound(c, w)
    ensures HandleAll(c, w, [f]) == HandleFrame(c, w, f)
  {
    hide HandleFrame, Apart, Good;
    HandleOwns(c, w, f);
    NoFrames(c, HandleFrame(c, w, f));
    assert [f][1..] == [];
  }
}
