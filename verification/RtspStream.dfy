/** Interleaved frames of an RTSP connection (section 10.12 of RFC 2326) and what becomes of them, as
    functions of the bytes received. */
module RtspStream {
  import opened Bytes
  import opened Options
  import opened RtpPacket
  import opened Depacketizer
  import opened FrameCache

  const INTERLEAVE_FLAG := 0x24
  const INTERLEAVE_HEADER := 4
  const RTP_RECV_BUF_SIZE := 1500
  const MAX_BYTES_PER_RECEIVE := 524288

  const VIDEO_RTP := 0
  const VIDEO_RTCP := 1
  const AUDIO_RTP := 2
  const AUDIO_RTCP := 3

  const PCMU := 0
  const PCMA := 8

  // ---- Framing ----

  /** An interleaved frame: channel and payload. */
  datatype Wire = Wire(channel: byte, payload: seq<byte>)

  /** The complete frames of some bytes, what is left, and whether the connection lives on. */
  datatype Parsed = Parsed(frames: seq<Wire>, rest: seq<byte>, ok: bool)

  /** The size of the frame at the start of `d`, header included: 0 while it is not all there, negative
      when it cannot be taken. */
  function FrameSize(d: seq<byte>): int {
    if d == [] || d[0] != INTERLEAVE_FLAG then -1
    else if |d| < INTERLEAVE_HEADER || |d| - INTERLEAVE_HEADER < Get16(d, 2) then 0
    else if Get16(d, 2) > RTP_RECV_BUF_SIZE then -1
    else INTERLEAVE_HEADER + Get16(d, 2)
  }

  function FrameOf(d: seq<byte>): Wire
    requires FrameSize(d) > 0
  {
    Wire(d[1], d[INTERLEAVE_HEADER..FrameSize(d)])
  }

  function ParseStream(d: seq<byte>): Parsed {
    if d == [] then Parsed([], [], true)
    else if FrameSize(d) < 0 then Parsed([], d, false)
    else if FrameSize(d) == 0 then Parsed([], d, true)
    else
      var r := ParseStream(d[FrameSize(d)..]);
      r.(frames := [FrameOf(d)] + r.frames)
  }

  /** More bytes behind a complete frame change nothing about it. */
  lemma SizeStays(a: seq<byte>, b: seq<byte>)
    requires FrameSize(a) > 0 || (a != [] && FrameSize(a) < 0)
    ensures FrameSize(a + b) == FrameSize(a) && (FrameSize(a) > 0 ==> FrameOf(a + b) == FrameOf(a))
  {
    if |a| >= INTERLEAVE_HEADER {
      assert Get16(a + b, 2) == Get16(a, 2);
      if FrameSize(a) > 0 {
        assert (a + b)[INTERLEAVE_HEADER..FrameSize(a)] == a[INTERLEAVE_HEADER..FrameSize(a)];
      }
    }
  }

  /** Parsing what has come so far and then the leftover with the rest is parsing everything at once. */
  lemma {:induction false} ParseConcat(a: seq<byte>, b: seq<byte>)
    ensures var p := ParseStream(a);
      var q := ParseStream(p.rest + b);
      var all := ParseStream(a + b);
      if p.ok then all == q.(frames := p.frames + q.frames) else !all.ok && all.frames == p.frames
    decreases |a|
  {
    hide FrameSize, FrameOf;
    if a == [] {
      assert a + b == b && [] + b == b;
    } else if FrameSize(a) < 0 {
      SizeStays(a, b);
    } else if FrameSize(a) > 0 {
      var n := FrameSize(a);
      SizeStays(a, b);
      SizeFits(a);
      assert (a + b)[n..] == a[n..] + b;
      ParseConcat(a[n..], b);
    }
  }

  lemma SizeFits(d: seq<byte>)
    requires FrameSize(d) > 0
    ensures FrameSize(d) <= |d|
  {
  }

  /** What is left is less than one frame, so that there is always room to receive more. */
  lemma {:induction false} RestBounded(d: seq<byte>)
    ensures ParseStream(d).ok ==> |ParseStream(d).rest| < 0x1_0000 + INTERLEAVE_HEADER < MAX_BYTES_PER_RECEIVE
    ensures ParseStream(d).ok ==> ParseStream(d).rest == [] || FrameSize(ParseStream(d).rest) == 0
    decreases |d|
  {
    if d != [] && FrameSize(d) > 0 {
      RestBounded(d[FrameSize(d)..]);
    }
  }

  /** A dollar sign, the channel, the length of the payload, the payload. */
  function WireBytes(f: Wire): seq<byte>
    requires |f.payload| < 0x1_0000
  {
    [0x24, f.channel] + BE16(|f.payload|) + f.payload
  }

  function StreamOf(fs: seq<Wire>): seq<byte>
    requires forall i :: 0 <= i < |fs| ==> |fs[i].payload| <= 1500
  {
    if fs == [] then [] else WireBytes(fs[0]) + StreamOf(fs[1..])
  }

  lemma WireFront(f: Wire, b: seq<byte>)
    requires |f.payload| < 0x1_0000
    ensures var d := WireBytes(f) + b;
      |d| >= 4 + |f.payload| && d[0] == 0x24 && d[1] == f.channel && Get16(d, 2) == |f.payload|
      && d[4..4 + |f.payload|] == f.payload
  {
    hide BE16, Get16;
    var d := WireBytes(f) + b;
    assert d == [0x24, f.channel] + BE16(|f.payload|) + (f.payload + b);
    AtMiddle([0x24, f.channel], BE16(|f.payload|), f.payload + b);
    Get16Of(d, 2, |f.payload|);
  }

  lemma WireBack(f: Wire, b: seq<byte>)
    requires |f.payload| <= 1500
    ensures var d := WireBytes(f) + b;
      FrameSize(d) == |WireBytes(f)| && FrameOf(d) == f && d[FrameSize(d)..] == b
  {
    hide BE16, Get16;
    WireFront(f, b);
  }

  /** Frames that fit a receive buffer are found again, all of them, in order. */
  lemma {:induction false} StreamParsed(fs: seq<Wire>)
    requires forall i :: 0 <= i < |fs| ==> |fs[i].payload| <= 1500
    ensures ParseStream(StreamOf(fs)) == Parsed(fs, [], true)
  {
    hide WireBytes, FrameSize, FrameOf;
    if fs != [] {
      WireBack(fs[0], StreamOf(fs[1..]));
      WireSome(fs[0]);
      StreamParsed(fs[1..]);
    }
  }

  /** The beginning of a frame is kept until the rest has come. */
  lemma StartWaits(f: Wire, n: nat)
    requires |f.payload| < 0x1_0000 && n < |WireBytes(f)|
    ensures ParseStream(WireBytes(f)[..n]) == Parsed([], WireBytes(f)[..n], true)
  {
    hide BE16, Get16;
    var d, part := WireBytes(f) + [], WireBytes(f)[..n];
    WireFront(f, []);
    assert d == WireBytes(f) && (n > 0 ==> part[0] == d[0]);
    if n >= 4 {
      assert part[2] == d[2] && part[3] == d[3];
      SamePlace16(part, d, 2);
    }
  }

  lemma SamePlace16(a: seq<byte>, b: seq<byte>, p: nat)
    requires p + 2 <= |a| && p + 2 <= |b| && a[p] == b[p] && a[p + 1] == b[p + 1]
    ensures Get16(a, p) == Get16(b, p)
  {
  }

  /** The connection ends at a frame that fits no receive buffer, once all of it is there, and at anything
      that does not start like a frame. */
  lemma StreamEnds(f: Wire, b: seq<byte>)
    requires |f.payload| < 0x1_0000
    ensures |f.payload| > 1500 ==> ParseStream(WireBytes(f) + b) == Parsed([], WireBytes(f) + b, false)
    ensures b != [] && b[0] != 0x24 ==> ParseStream(b) == Parsed([], b, false)
  {
    hide BE16, Get16;
    WireFront(f, b);
  }

  lemma WireSome(f: Wire)
    requires |f.payload| < 0x1_0000
    ensures |WireBytes(f)| > 0
  {
  }
}
