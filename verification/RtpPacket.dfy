/** RTP packets (section 5.1 of RFC 3550): mk_rtp_packet, and packets as a sender lays them out. */
module RtpPacket {
  import opened Bytes
  import opened Options

  const FIXED := 12          // the fixed header
  const EXTENSION := 4       // the header of an extension
  const RTP_VERSION := 2

  // The bit fields of the first two bytes.
  function CsrcCount(b: byte): nat { b % 16 }

  predicate Extended(b: byte) { b / 16 % 2 == 1 }

  predicate Padded(b: byte) { b / 32 % 2 == 1 }

  function Version(b: byte): nat { b / 64 }

  predicate Marked(b: byte) { b / 128 == 1 }

  function PayloadType(b: byte): (t: nat)
    ensures t < 128
  {
    b % 128
  }

  /** The length of everything in front of the payload. */
  function HeadLength(d: seq<byte>): Option<nat> {
    if |d| < FIXED then None else
      var head := FIXED + 4 * CsrcCount(d[0]);
      if |d| < head || Version(d[0]) != RTP_VERSION then None
      else if !Extended(d[0]) then Some(head)
      else if |d| < head + EXTENSION then None
      else
        var all := head + EXTENSION + 4 * Get16(d, head + 2);
        if |d| < all then None else Some(all)
  }

  /** The padding at the end, by the last byte; what was there before if this packet has none. */
  function TailAfter(d: seq<byte>, tail: byte): byte {
    if |d| >= FIXED && Padded(d[0]) then d[|d| - 1] else tail
  }

  function SeqNo(d: seq<byte>): uint16
    requires |d| >= FIXED
  {
    Get16(d, 2)
  }

  function Timestamp(d: seq<byte>): uint32
    requires |d| >= FIXED
  {
    Get32(d, 4)
  }

  class Packet {
    var data: seq<byte>
    var headLen: nat
    var tailLen: byte  // survives to the next packet that is parsed

    constructor ()
      ensures data == [] && headLen == 0 && tailLen == 0
    {
      data, headLen, tailLen := [], 0, 0;
    }

    /** True when the packet can be used. */
    method ParsePacket(d: seq<byte>) returns (ok: bool)
      modifies this
      ensures tailLen == TailAfter(d, old(tailLen))
      ensures ok == HeadLength(d).Some?
      ensures ok ==> headLen == HeadLength(d).value <= |d| && data == d
    {
      if |d| < FIXED {
        return false;
      }
      data := d;
      if Padded(d[0]) {
        tailLen := d[|d| - 1];
      }
      var head := FIXED + 4 * CsrcCount(d[0]);
      if |d| < head {
        return false;
      }
      if Version(d[0]) != RTP_VERSION {
        return false;
      }
      if !Extended(d[0]) {
        headLen := head;
        return true;
      }
      if |d| < head + EXTENSION {
        return false;
      }
      head := head + EXTENSION + 4 * Get16(d, head + 2);
      if |d| < head {
        return false;
      }
      headLen := head;
      ok := true;
    }
  }

  // ---- Packets as they are sent ----

  datatype Ext = Ext(profile: uint16, words: seq<uint32>)

  /** Everything in front of the payload; no padding. */
  datatype Head = Head(marker: bool, payloadType: nat, seqNo: uint16, ts: uint32, ssrc: uint32, csrcs: seq<uint32>,
                       ext: Option<Ext>) {
    predicate Valid() {
      payloadType < 128 && |csrcs| < 16 && (ext.Some? ==> |ext.value.words| < 0x1_0000)
    }
  }

  function Words(ws: seq<uint32>): (b: seq<byte>)
    ensures |b| == 4 * |ws|
  {
    if ws == [] then [] else Words(ws[..|ws| - 1]) + BE32(ws[|ws| - 1])
  }

  function FirstByte(h: Head, padded: bool): byte
    requires h.Valid()
  {
    128 + (if padded then 32 else 0) + (if h.ext.Some? then 16 else 0) + |h.csrcs|
  }

  function FixedBytes(h: Head, padded: bool): (b: seq<byte>)
    requires h.Valid()
    ensures |b| == 12
  {
    [FirstByte(h, padded), (if h.marker then 128 else 0) + h.payloadType] + BE16(h.seqNo) + BE32(h.ts) + BE32(h.ssrc)
  }

  function ExtBytes(e: Option<Ext>): (b: seq<byte>)
    requires e.Some? ==> |e.value.words| < 0x1_0000
  {
    match e
    case None => []
    case Some(x) => BE16(x.profile) + BE16(|x.words|) + Words(x.words)
  }

  /** Everything in front of the payload. */
  function Front(h: Head, padded: bool): seq<byte>
    requires h.Valid()
  {
    FixedBytes(h, padded) + Words(h.csrcs) + ExtBytes(h.ext)
  }

  function Sent(h: Head, payload: seq<byte>): seq<byte>
    requires h.Valid()
  {
    Front(h, false) + payload
  }

  /** Padding: any bytes, then the number of bytes of padding, itself included. */
  function SentPadded(h: Head, payload: seq<byte>, fill: seq<byte>): seq<byte>
    requires h.Valid() && |fill| < 255
  {
    Front(h, true) + (payload + (fill + [|fill| + 1]))
  }

  lemma FixedParsed(h: Head, padded: bool, rest: seq<byte>)
    requires h.Valid()
    ensures var d := FixedBytes(h, padded) + rest;
      && Version(d[0]) == RTP_VERSION && CsrcCount(d[0]) == |h.csrcs| && (Extended(d[0]) <==> h.ext.Some?)
      && (Padded(d[0]) <==> padded) && (Marked(d[1]) <==> h.marker) && PayloadType(d[1]) == h.payloadType
      && SeqNo(d) == h.seqNo && Timestamp(d) == h.ts
  {
    hide BE16, BE32, Get16, Get32;
    var d := FixedBytes(h, padded) + rest;
    var first := [FirstByte(h, padded), (if h.marker then 128 else 0) + h.payloadType];
    assert At(d, 0, FixedBytes(h, padded));
    AtConcat(d, 0, first + BE16(h.seqNo) + BE32(h.ts), BE32(h.ssrc));
    AtConcat(d, 0, first + BE16(h.seqNo), BE32(h.ts));
    AtConcat(d, 0, first, BE16(h.seqNo));
    Get16Of(d, 2, h.seqNo);
    Get32Of(d, 4, h.ts);
    assert d[0] == d[0..2][0] && d[1] == d[0..2][1];
  }

  /** Whatever list of sources and whatever extension a packet carries, the end of its header is found. */
  lemma FrontParsed(h: Head, padded: bool, rest: seq<byte>)
    requires h.Valid()
    ensures var d := Front(h, padded) + rest;
      && HeadLength(d) == Some(|Front(h, padded)|) && d[|Front(h, padded)|..] == rest && |d| >= FIXED
      && (Padded(d[0]) <==> padded) && (Marked(d[1]) <==> h.marker) && PayloadType(d[1]) == h.payloadType
      && SeqNo(d) == h.seqNo && Timestamp(d) == h.ts
  {
    hide BE16, BE32, Get16, Get32, FixedBytes, SeqNo, Timestamp, Version, CsrcCount, Extended, Padded, Marked, PayloadType;
    var d, fixed := Front(h, padded) + rest, FixedBytes(h, padded);
    FixedParsed(h, padded, Words(h.csrcs) + ExtBytes(h.ext) + rest);
    assert d == fixed + (Words(h.csrcs) + ExtBytes(h.ext) + rest);
    var head := FIXED + 4 * |h.csrcs|;
    if h.ext.Some? {
      var x := h.ext.value;
      var front := fixed + Words(h.csrcs) + BE16(x.profile);
      assert d == front + BE16(|x.words|) + (Words(x.words) + rest);
      AtMiddle(front, BE16(|x.words|), Words(x.words) + rest);
      Get16Of(d, head + 2, |x.words|);
    }
  }

  /** The payload is found, and it is not taken for padded. */
  lemma SentParsed(h: Head, payload: seq<byte>)
    requires h.Valid()
    ensures var d := Sent(h, payload);
      && HeadLength(d).Some? && d[HeadLength(d).value..] == payload && HeadLength(d).value <= |d|
      && |d| >= FIXED && !Padded(d[0])
      && (Marked(d[1]) <==> h.marker) && PayloadType(d[1]) == h.payloadType
      && SeqNo(d) == h.seqNo && Timestamp(d) == h.ts
  {
    hide Front, HeadLength, SeqNo, Timestamp, Padded, Marked, PayloadType;
    FrontParsed(h, false, payload);
  }

  /** Of a padded packet the payload lies between header and padding, whatever padding came before. */
  lemma PaddedParsed(h: Head, payload: seq<byte>, fill: seq<byte>, tail: byte)
    requires h.Valid() && |fill| < 255
    ensures var d := SentPadded(h, payload, fill);
      && HeadLength(d).Some? && TailAfter(d, tail) == |fill| + 1
      && HeadLength(d).value + |payload| + (|fill| + 1) == |d|
      && d[HeadLength(d).value..|d| - (|fill| + 1)] == payload && |d| >= FIXED
      && (Marked(d[1]) <==> h.marker) && PayloadType(d[1]) == h.payloadType
      && SeqNo(d) == h.seqNo && Timestamp(d) == h.ts
  {
    hide Front, HeadLength, SeqNo, Timestamp, Padded, Marked, PayloadType;
    var rest := payload + (fill + [|fill| + 1]);
    FrontParsed(h, true, rest);
    var d, n := SentPadded(h, payload, fill), |Front(h, true)|;
    assert d[n..][|rest| - 1] == rest[|rest| - 1] == |fill| + 1;
    assert d[n..|d| - (|fill| + 1)] == d[n..][..|payload|] == payload;
  }

  // ---- The packets that are accepted ----

  lemma {:induction false} WordsOf(d: seq<byte>, p: nat, n: nat) returns (ws: seq<uint32>)
    requires p + 4 * n <= |d|
    ensures |ws| == n && Words(ws) == d[p..p + 4 * n]
  {
    hide BE32, Get32;
    if n == 0 {
      ws := [];
    } else {
      var front := WordsOf(d, p, n - 1);
      WordAt(d, p + 4 * (n - 1));
      ws := front + [Get32(d, p + 4 * (n - 1))];
      assert ws[..n - 1] == front;
      assert d[p..p + 4 * n] == d[p..p + 4 * (n - 1)] + d[p + 4 * (n - 1)..p + 4 * n];
    }
  }

  lemma WordAt(d: seq<byte>, p: nat)
    requires p + 4 <= |d|
    ensures BE32(Get32(d, p)) == d[p..p + 4]
  {
    HalfAt(d, p);
    HalfAt(d, p + 2);
    assert d[p..p + 4] == d[p..p + 2] + d[p + 2..p + 4];
  }

  lemma HalfAt(d: seq<byte>, p: nat)
    requires p + 2 <= |d|
    ensures BE16(Get16(d, p)) == d[p..p + 2]
  {
  }

  /** A packet is accepted exactly when a sender can have laid it out. */
  lemma AcceptedIs(d: seq<byte>)
    ensures HeadLength(d).Some? <==> exists h: Head, padded, rest :: h.Valid() && d == Front(h, padded) + rest
  {
    hide Front, HeadLength;
    if h: Head, padded, rest :| h.Valid() && d == Front(h, padded) + rest {
      FrontParsed(h, padded, rest);
    }
    if HeadLength(d).Some? {
      var h, padded, rest := Unpacked(d);
    }
  }

  lemma Unpacked(d: seq<byte>) returns (h: Head, padded: bool, rest: seq<byte>)
    requires HeadLength(d).Some?
    ensures h.Valid() && d == Front(h, padded) + rest
  {
    hide Get16, Get32, BE16, BE32, Words, FixedBytes, HeadLength, ExtBytes, Version, Extended, Padded, Marked, SeqNo, Timestamp;
    HeadFits(d);
    var n, head, end := CsrcCount(d[0]), FIXED + 4 * CsrcCount(d[0]), HeadLength(d).value;
    var csrcs := WordsOf(d, FIXED, n);
    var ext := ExtOf(d);
    padded, rest := Padded(d[0]), d[end..];
    h := Head(Marked(d[1]), PayloadType(d[1]), SeqNo(d), Timestamp(d), Get32(d, 8), csrcs, ext);
    FixedIs(d, h);
    Pieces(d, FIXED, head, end);
  }

  lemma HeadFits(d: seq<byte>)
    requires HeadLength(d).Some?
    ensures |d| >= FIXED && FIXED + 4 * CsrcCount(d[0]) <= HeadLength(d).value <= |d| && Version(d[0]) == RTP_VERSION
    ensures CsrcCount(d[0]) < 16
  {
    hide Get16;
  }

  lemma Pieces(d: seq<byte>, a: nat, b: nat, c: nat)
    requires a <= b <= c <= |d|
    ensures d == d[..a] + d[a..b] + d[b..c] + d[c..]
  {
  }

  lemma FixedIs(d: seq<byte>, h: Head)
    requires |d| >= FIXED && Version(d[0]) == RTP_VERSION && h.Valid()
    requires h.ext.Some? <==> Extended(d[0])
    requires |h.csrcs| == CsrcCount(d[0]) && (h.marker <==> Marked(d[1])) && h.payloadType == PayloadType(d[1])
    requires h.seqNo == SeqNo(d) && h.ts == Timestamp(d) && h.ssrc == Get32(d, 8)
    ensures FixedBytes(h, Padded(d[0])) == d[..12]
  {
    hide Get16, Get32, BE16, BE32;
    HalfAt(d, 2);
    WordAt(d, 4);
    WordAt(d, 8);
    Bits(d[0]);
    assert d[..12] == [d[0], d[1]] + d[2..4] + d[4..8] + d[8..12];
  }

  lemma Bits(b: byte)
    requires Version(b) == RTP_VERSION
    ensures b == 128 + (if Padded(b) then 32 else 0) + (if Extended(b) then 16 else 0) + CsrcCount(b)
  {
  }

  lemma ExtOf(d: seq<byte>) returns (ext: Option<Ext>)
    requires HeadLength(d).Some?
    ensures ext.Some? <==> Extended(d[0])
    ensures ext.Some? ==> |ext.value.words| < 0x1_0000
    ensures ExtBytes(ext) == d[FIXED + 4 * CsrcCount(d[0])..HeadLength(d).value]
  {
    hide Get16, BE16, Words;
    var head := FIXED + 4 * CsrcCount(d[0]);
    if Extended(d[0]) {
      var words := WordsOf(d, head + EXTENSION, Get16(d, head + 2));
      ext := Some(Ext(Get16(d, head), words));
      HalfAt(d, head);
      HalfAt(d, head + 2);
      var end := HeadLength(d).value;
      assert d[head..end] == d[head..head + 2] + d[head + 2..head + 4] + d[head + 4..end];
    } else {
      ext := None;
    }
  }

  lemma AtMiddle(a: seq<byte>, b: seq<byte>, c: seq<byte>)
    ensures At(a + b + c, |a|, b)
  {
  }
}
