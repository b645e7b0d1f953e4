/** From the packets of a frame to a NAL unit behind a start code: handleH264Frame and handleH265Frame
    (section 5.8 of RFC 6184, section 4.4.3 of RFC 7798). */
module Depacketizer {
  import opened Bytes
  import opened Options
  import opened RtpPacket

  datatype Codec = H264 | H265 | G711U | G711A

  /** A queued packet: what was read from its header, and the receive buffer that holds it. */
  datatype Pack = Pack(seqNo: uint16, ts: uint32, marker: bool, buf: nat, data: seq<byte>)

  /** What is handed to the client. */
  datatype Out = Out(codec: Codec, ts: uint32, bytes: seq<byte>)

  const START_CODE: seq<byte> := [0, 0, 0, 1]

  const H264_FU_A := 28
  const H265_FU := 49

  /** The bytes in front of a fragment: indicator and fragment header. */
  function FuSize(codec: Codec): nat { if codec == H264 then 2 else 3 }

  /** The NAL unit header put together from a first fragment. */
  function NalHeader(codec: Codec, p: seq<byte>): seq<byte>
    requires |p| >= FuSize(codec)
  {
    if codec == H264 then [p[0] / 32 * 32 + p[1] % 32]
    else [p[0] / 128 * 128 + p[0] % 2 + p[2] % 64 * 2, p[1]]
  }

  /** The payload of a packet after `tail` bytes of padding were found earlier; at least two bytes. */
  function PayloadOf(d: seq<byte>, tail: byte): Option<seq<byte>> {
    match HeadLength(d)
    case None => None
    case Some(head) =>
      var tail' := TailAfter(d, tail);
      if |d| - 2 < head + tail' then None else Some(d[head..|d| - tail'])
  }

  /** What has been put together, and the last padding. */
  datatype Acc = Acc(bytes: seq<byte>, tail: byte)

  function AddFragment(codec: Codec, d: seq<byte>, first: bool, a: Acc): Option<Acc> {
    match PayloadOf(d, a.tail)
    case None => None
    case Some(p) =>
      if |p| < FuSize(codec) then None
      else Some(Acc(a.bytes + (if first then NalHeader(codec, p) else []) + p[FuSize(codec)..], TailAfter(d, a.tail)))
  }

  /** A payload that is long enough to be looked at but not to be a fragment: exactly two bytes of H.265.
      The model refuses it; the source would count its length below zero. */
  lemma TooShort(codec: Codec, d: seq<byte>, first: bool, a: Acc)
    requires (codec == H264 || codec == H265) && PayloadOf(d, a.tail).Some?
    ensures AddFragment(codec, d, first, a) == None <==> codec == H265 && |PayloadOf(d, a.tail).value| == 2
  {
    hide HeadLength, TailAfter;
  }

  function Fragments(codec: Codec, ps: seq<Pack>, n: nat): (r: Option<Acc>)
    requires n <= |ps|
    ensures r.Some? ==> forall i :: 0 <= i < n ==> |ps[i].data| >= FIXED
  {
    if n == 0 then Some(Acc(START_CODE, 0)) else
      match Fragments(codec, ps, n - 1)
      case None => None
      case Some(a) => AddFragment(codec, ps[n - 1].data, n == 1, a)
  }

  /** The unit in the packets of a frame: a single packet holds it whole, several hold fragments. */
  function Assemble(codec: Codec, ps: seq<Pack>): Option<Out> {
    if ps == [] then None
    else if |ps| == 1 then
      match PayloadOf(ps[0].data, 0)
      case None => None
      case Some(p) => Some(Out(codec, Timestamp(ps[0].data), START_CODE + p))
    else
      match Fragments(codec, ps, |ps|)
      case None => None
      case Some(a) => Some(Out(codec, Timestamp(ps[TimedBy(codec, |ps|)].data), a.bytes))
  }

  /** The fragment whose timestamp a unit gets: the last one for H.264, the first one for H.265. */
  function TimedBy(codec: Codec, n: nat): (i: nat)
    requires n > 0
    ensures i < n
  {
    if codec == H264 then n - 1 else 0
  }

  function More(out: seq<Out>, o: Option<Out>): seq<Out> {
    match o case None => out case Some(x) => out + [x]
  }

  class Sink {
    var h264Type: nat    // the payload types that the session description announced
    var h265Type: nat
    var out: seq<Out>

    constructor (h264Type: nat, h265Type: nat)
      ensures this.h264Type == h264Type && this.h265Type == h265Type && out == []
    {
      this.h264Type, this.h265Type, out := h264Type, h265Type, [];
    }

    /** A frame of one packet is handed over as it is. */
    method HandleSingle(codec: Codec, pack: Pack)
      modifies this`out
      ensures out == More(old(out), Assemble(codec, [pack]))
    {
      var packet := new Packet();
      var ok := packet.ParsePacket(pack.data);
      if !ok {
        return;
      }
      var d := pack.data;
      if |d| - 2 < packet.headLen + packet.tailLen {
        return;
      }
      out := out + [Out(codec, Timestamp(d), START_CODE + d[packet.headLen..|d| - packet.tailLen])];
    }

    /** One H.264 fragment behind what has been put together. */
    method AddH264(packet: Packet, d: seq<byte>, first: bool, buf: seq<byte>) returns (ok: bool, buf': seq<byte>)
      modifies packet
      ensures ok == AddFragment(H264, d, first, Acc(buf, old(packet.tailLen))).Some?
      ensures ok ==> AddFragment(H264, d, first, Acc(buf, old(packet.tailLen))).value == Acc(buf', packet.tailLen)
      ensures ok ==> |d| >= FIXED
    {
      hide HeadLength, TailAfter;
      buf' := buf;
      ok := packet.ParsePacket(d);
      if !ok {
        return;
      }
      HeadSize(d);
      if |d| - 2 < packet.headLen + packet.tailLen {
        return false, buf;
      }
      var p := d[packet.headLen..|d| - packet.tailLen];
      if first {
        buf' := buf' + [p[0] / 32 * 32 + p[1] % 32];
      }
      buf' := buf' + p[2..];
    }

    /** One H.265 fragment behind what has been put together. */
    method AddH265(packet: Packet, d: seq<byte>, first: bool, buf: seq<byte>) returns (ok: bool, buf': seq<byte>)
      modifies packet
      ensures ok == AddFragment(H265, d, first, Acc(buf, old(packet.tailLen))).Some?
      ensures ok ==> AddFragment(H265, d, first, Acc(buf, old(packet.tailLen))).value == Acc(buf', packet.tailLen)
      ensures ok ==> |d| >= FIXED
    {
      hide HeadLength, TailAfter;
      buf' := buf;
      ok := packet.ParsePacket(d);
      if !ok {
        return;
      }
      HeadSize(d);
      if |d| - 3 < packet.headLen + packet.tailLen {
        return false, buf;
      }
      var p := d[packet.headLen..|d| - packet.tailLen];
      if first {
        buf' := buf' + [p[0] / 128 * 128 + p[0] % 2 + p[2] % 64 * 2];
        buf' := buf' + [p[1]];
      }
      buf' := buf' + p[3..];
    }

    method HandleH264Frame(queue: seq<Pack>)
      modifies this`out
      ensures out == More(old(out), Assemble(H264, queue))
    {
      hide AddFragment, PayloadOf;
      if |queue| == 0 {
        return;
      }
      if |queue| == 1 {
        assert queue == [queue[0]];
        HandleSingle(H264, queue[0]);
        return;
      }
      var recBuf := START_CODE;
      var ts: uint32 := 0;
      var packet := new Packet();
      var i := 0;
      while i < |queue|
        invariant i <= |queue| && fresh(packet) && out == old(out)
        invariant Fragments(H264, queue, i) == Some(Acc(recBuf, packet.tailLen))
        invariant i > 0 ==> |queue[i - 1].data| >= FIXED && ts == Timestamp(queue[i - 1].data)
      {
        var ok: bool;
        ok, recBuf := AddH264(packet, queue[i].data, i == 0, recBuf);
        if !ok {
          FragmentsFail(H264, queue, i + 1);
          return;
        }
        ts := Timestamp(queue[i].data);
        i := i + 1;
      }
      out := out + [Out(H264, ts, recBuf)];
    }

    method HandleH265Frame(queue: seq<Pack>)
      modifies this`out
      ensures out == More(old(out), Assemble(H265, queue))
    {
      hide AddFragment, PayloadOf;
      if |queue| == 0 {
        return;
      }
      if |queue| == 1 {
        assert queue == [queue[0]];
        HandleSingle(H265, queue[0]);
        return;
      }
      var recBuf := START_CODE;
      var ts: uint32 := 0;
      var packet := new Packet();
      var i := 0;
      while i < |queue|
        invariant i <= |queue| && fresh(packet) && out == old(out)
        invariant Fragments(H265, queue, i) == Some(Acc(recBuf, packet.tailLen))
        invariant i > 0 ==> |queue[0].data| >= FIXED && ts == Timestamp(queue[0].data)
      {
        var ok: bool;
        ok, recBuf := AddH265(packet, queue[i].data, i == 0, recBuf);
        if !ok {
          FragmentsFail(H265, queue, i + 1);
          return;
        }
        if i == 0 {
          ts := Timestamp(queue[0].data);
        }
        i := i + 1;
      }
      out := out + [Out(H265, ts, recBuf)];
    }

    lemma HeadSize(d: seq<byte>)
      requires HeadLength(d).Some?
      ensures FIXED <= HeadLength(d).value <= |d|
    {
    }

    lemma {:induction false} FragmentsFail(codec: Codec, ps: seq<Pack>, n: nat)
      requires n <= |ps| && Fragments(codec, ps, n) == None
      ensures Fragments(codec, ps, |ps|) == None
      decreases |ps| - n
    {
      if n < |ps| {
        FragmentsFail(codec, ps, n + 1);
      }
    }

    /** By payload type; frames of other types are dropped here. */
    method HandleRtpFrame(payloadType: nat, queue: seq<Pack>)
      modifies this`out
      ensures out == More(old(out), Deliver(payloadType, queue))
    {
      if h264Type == payloadType {
        HandleH264Frame(queue);
      } else if h265Type == payloadType {
        HandleH265Frame(queue);
      }
    }

    function Deliver(payloadType: nat, queue: seq<Pack>): Option<Out>
      reads this`h264Type, this`h265Type
    {
      DeliverAs(h264Type, h265Type, payloadType, queue)
    }
  }

  function DeliverAs(h264: nat, h265: nat, payloadType: nat, queue: seq<Pack>): Option<Out> {
    if h264 == payloadType then Assemble(H264, queue)
    else if h265 == payloadType then Assemble(H265, queue)
    else None
  }

  // ---- Fragmentation, the sender's way ----

  function HeaderSize(codec: Codec): nat { if codec == H264 then 1 else 2 }

  function Flag(b: bool, v: byte): byte { if b then v else 0 }

  /** Indicator and fragment header of a piece. */
  function FuPrefix(codec: Codec, nal: seq<byte>, first: bool, last: bool): (p: seq<byte>)
    requires |nal| >= HeaderSize(codec)
    ensures |p| == FuSize(codec)
  {
    if codec == H264 then
      [nal[0] / 32 * 32 + H264_FU_A, Flag(first, 128) + Flag(last, 64) + nal[0] % 32]
    else
      [nal[0] / 128 * 128 + H265_FU * 2 + nal[0] % 2, nal[1], Flag(first, 128) + Flag(last, 64) + nal[0] / 2 % 64]
  }

  /** Bits of the indicator and of the fragment header by section 5.8 of RFC 6184: reference bits and type of
      the unit, first and last fragment. */
  lemma PrefixBits264(nal: seq<byte>, first: bool, last: bool)
    requires |nal| >= 1
    ensures var p := FuPrefix(H264, nal, first, last);
      && p[0] / 32 == nal[0] / 32 && p[0] % 32 == 28
      && (p[1] / 128 == 1 <==> first) && (p[1] / 64 % 2 == 1 <==> last) && p[1] % 32 == nal[0] % 32
  {
  }

  /** The same by section 4.4.3 of RFC 7798. */
  lemma PrefixBits265(nal: seq<byte>, first: bool, last: bool)
    requires |nal| >= 2
    ensures var p := FuPrefix(H265, nal, first, last);
      && p[0] / 128 == nal[0] / 128 && p[0] / 2 % 64 == 49 && p[0] % 2 == nal[0] % 2 && p[1] == nal[1]
      && (p[2] / 128 == 1 <==> first) && (p[2] / 64 % 2 == 1 <==> last) && p[2] % 64 == nal[0] / 2 % 64
  {
    Indicator265(nal[0]);
    Header265(nal[0] / 2 % 64, Flag(first, 128), Flag(last, 64));
  }

  lemma Indicator265(b: byte)
    ensures var x := b / 128 * 128 + 98 + b % 2;
      x / 128 == b / 128 && x / 2 % 64 == 49 && x % 2 == b % 2
  {
    var h := b / 128;
    assert h == 0 || h == 1;
  }

  lemma Header265(t: nat, f: nat, l: nat)
    requires t < 64 && (f == 0 || f == 128) && (l == 0 || l == 64)
    ensures var x := f + l + t;
      (x / 128 == 1 <==> f == 128) && (x / 64 % 2 == 1 <==> l == 64) && x % 64 == t
  {
  }

  function Joined(pieces: seq<seq<byte>>): seq<byte> {
    if pieces == [] then [] else Joined(pieces[..|pieces| - 1]) + pieces[|pieces| - 1]
  }

  /** Packet `d` carries `payload` unpadded, behind whatever sources and extension. */
  ghost predicate Carries(d: seq<byte>, payload: seq<byte>) {
    && HeadLength(d).Some? && HeadLength(d).value <= |d| && d[HeadLength(d).value..] == payload
    && |d| >= FIXED && !Padded(d[0])
  }

  lemma SentCarries(h: Head, payload: seq<byte>)
    requires h.Valid()
    ensures Carries(Sent(h, payload), payload)
  {
    hide HeadLength, Sent, Padded;
    SentParsed(h, payload);
  }

  /** The packets carry the pieces in order; `k` pieces of the unit came before them. */
  ghost predicate Fragmented(codec: Codec, nal: seq<byte>, pieces: seq<seq<byte>>, k: nat, ps: seq<Pack>) {
    && |nal| >= HeaderSize(codec) && |pieces| == |ps|
    && forall i :: 0 <= i < |ps| ==>
         Carries(ps[i].data, FuPrefix(codec, nal, k + i == 0, i == |ps| - 1) + pieces[i])
  }

  lemma Split32(b: int, f: int, l: int)
    requires 0 <= b < 256 && (f == 0 || f == 128) && (l == 0 || l == 64)
    ensures (b / 32 * 32 + H264_FU_A) / 32 * 32 + (f + l + b % 32) % 32 == b
  {
    var k := b / 32;
    assert (k * 32 + 28) / 32 == k;
  }

  lemma Split64(b: int, f: int, l: int)
    requires 0 <= b < 256 && (f == 0 || f == 128) && (l == 0 || l == 64)
    ensures var x := b / 128 * 128 + H265_FU * 2 + b % 2;
      x / 128 * 128 + x % 2 + (f + l + b / 2 % 64) % 64 * 2 == b
  {
    var x := b / 128 * 128 + 98 + b % 2;
    assert x / 128 == b / 128 && x % 2 == b % 2;
    assert (f + l + b / 2 % 64) % 64 == b / 2 % 64;
  }

  lemma HeaderBack(codec: Codec, nal: seq<byte>, first: bool, last: bool, piece: seq<byte>)
    requires (codec == H264 || codec == H265) && |nal| >= HeaderSize(codec)
    ensures var p := FuPrefix(codec, nal, first, last) + piece;
      NalHeader(codec, p) == nal[..HeaderSize(codec)] && p[FuSize(codec)..] == piece
  {
    if codec == H264 {
      Split32(nal[0], Flag(first, 128), Flag(last, 64));
    } else {
      Split64(nal[0], Flag(first, 128), Flag(last, 64));
    }
  }

  /** One fragment more, whatever padding came before. */
  lemma FragmentPut(codec: Codec, nal: seq<byte>, start: bool, last: bool, piece: seq<byte>, d: seq<byte>,
                    first: bool, a: Acc)
    requires (codec == H264 || codec == H265) && |nal| >= HeaderSize(codec)
    requires PayloadOf(d, a.tail) == Some(FuPrefix(codec, nal, start, last) + piece)
    ensures AddFragment(codec, d, first, a)
         == Some(Acc(a.bytes + (if first then nal[..HeaderSize(codec)] else []) + piece, TailAfter(d, a.tail)))
  {
    hide FuPrefix, NalHeader, PayloadOf, TailAfter;
    HeaderBack(codec, nal, start, last, piece);
  }

  lemma FragmentAdded(codec: Codec, nal: seq<byte>, start: bool, last: bool, piece: seq<byte>, d: seq<byte>,
                      first: bool, bytes: seq<byte>)
    requires (codec == H264 || codec == H265) && |nal| >= HeaderSize(codec)
    requires Carries(d, FuPrefix(codec, nal, start, last) + piece)
    ensures AddFragment(codec, d, first, Acc(bytes, 0))
         == Some(Acc(bytes + (if first then nal[..HeaderSize(codec)] else []) + piece, 0))
  {
    hide Carries, FuPrefix, PayloadOf, TailAfter;
    CarriedPayload(d, FuPrefix(codec, nal, start, last) + piece);
    FragmentPut(codec, nal, start, last, piece, d, first, Acc(bytes, 0));
  }

  /** The fragments so far, behind the start code and the header of the unit. */
  lemma {:induction false} FragmentsAre(codec: Codec, nal: seq<byte>, pieces: seq<seq<byte>>, k: nat, ps: seq<Pack>, n: nat)
    requires (codec == H264 || codec == H265) && Fragmented(codec, nal, pieces, k, ps) && 0 < n <= |ps|
    ensures Fragments(codec, ps, n) == Some(Acc(START_CODE + (nal[..HeaderSize(codec)] + Joined(pieces[..n])), 0))
    decreases n
  {
    hide Carries, FuPrefix, AddFragment;
    var h, before := nal[..HeaderSize(codec)], Joined(pieces[..n - 1]);
    assert pieces[..n][..n - 1] == pieces[..n - 1] && pieces[..n][n - 1] == pieces[n - 1];
    var start := k + (n - 1) == 0;
    assert Carries(ps[n - 1].data, FuPrefix(codec, nal, start, n == |ps|) + pieces[n - 1]);
    if n == 1 {
      FragmentAdded(codec, nal, start, n == |ps|, pieces[0], ps[0].data, true, START_CODE);
      assert START_CODE + h + pieces[0] == START_CODE + (h + (before + pieces[0]));
    } else {
      FragmentsAre(codec, nal, pieces, k, ps, n - 1);
      FragmentAdded(codec, nal, start, n == |ps|, pieces[n - 1], ps[n - 1].data, false, START_CODE + (h + before));
      assert START_CODE + (h + before) + [] + pieces[n - 1] == START_CODE + (h + (before + pieces[n - 1]));
    }
  }

  lemma CarriedPayload(d: seq<byte>, payload: seq<byte>)
    requires Carries(d, payload) && |payload| >= 2
    ensures PayloadOf(d, 0) == Some(payload) && TailAfter(d, 0) == 0
  {
    hide HeadLength, Padded;
    assert d[HeadLength(d).value..|d| - 0] == payload;
  }

  /** Two or more fragments are put together behind the header of the unit, even if others are missing in
      front of them: the flag of a first fragment is not looked at. */
  lemma Remainder(codec: Codec, nal: seq<byte>, pieces: seq<seq<byte>>, k: nat, ps: seq<Pack>)
    requires (codec == H264 || codec == H265) && Fragmented(codec, nal, pieces, k, ps) && |ps| >= 2
    ensures Assemble(codec, ps) == Some(Out(codec, Timestamp(ps[TimedBy(codec, |ps|)].data),
                                            START_CODE + (nal[..HeaderSize(codec)] + Joined(pieces))))
  {
    hide Carries, FuPrefix;
    FragmentsAre(codec, nal, pieces, k, ps, |ps|);
    assert pieces[..|ps|] == pieces;
  }

  /** A unit sent in two or more fragments comes back whole, behind the start code. */
  lemma Reassembled(codec: Codec, nal: seq<byte>, pieces: seq<seq<byte>>, ps: seq<Pack>)
    requires (codec == H264 || codec == H265) && Fragmented(codec, nal, pieces, 0, ps) && |ps| >= 2
    requires nal[HeaderSize(codec)..] == Joined(pieces)
    ensures Assemble(codec, ps)
         == Some(Out(codec, Timestamp(ps[if codec == H264 then |ps| - 1 else 0].data), [0, 0, 0, 1] + nal))
  {
    hide Carries, FuPrefix;
    Remainder(codec, nal, pieces, 0, ps);
    assert nal[..HeaderSize(codec)] + nal[HeaderSize(codec)..] == nal;
  }

  // ---- Padding ----

  /** A payload is looked at exactly when it has two bytes or more. */
  lemma PayloadIs(h: Head, payload: seq<byte>, fill: seq<byte>, tail: byte)
    requires h.Valid() && |fill| < 255
    ensures PayloadOf(SentPadded(h, payload, fill), tail) == if |payload| >= 2 then Some(payload) else None
    ensures TailAfter(SentPadded(h, payload, fill), tail) == |fill| + 1
  {
    hide SentPadded, HeadLength, TailAfter;
    PaddedParsed(h, payload, fill, tail);
  }

  /** A packet without padding loses as many bytes as the packet before it was padded with. */
  lemma PaddingSticks(h: Head, payload: seq<byte>, tail: byte)
    requires h.Valid()
    ensures var d := Sent(h, payload);
      && TailAfter(d, tail) == tail
      && PayloadOf(d, tail) == if |payload| >= tail + 2 then Some(payload[..|payload| - tail]) else None
  {
    hide Sent, HeadLength, Padded;
    SentParsed(h, payload);
    var d := Sent(h, payload);
    var n := HeadLength(d).value;
    assert |d| == n + |d[n..]|;
    if |payload| >= tail {
      assert d[n..|d| - tail] == d[n..][..|payload| - tail];
    }
  }

  /** The packets carry the pieces of a unit in order, each with padding of its own. */
  ghost predicate AllPadded(codec: Codec, nal: seq<byte>, pieces: seq<seq<byte>>, heads: seq<Head>, fills: seq<seq<byte>>,
                            ps: seq<Pack>) {
    && |nal| >= HeaderSize(codec) && |pieces| == |heads| == |fills| == |ps|
    && (forall i :: 0 <= i < |fills| ==> |fills[i]| < 255)
    && forall i :: 0 <= i < |ps| ==> PaddedPiece(codec, nal, pieces, heads, fills, ps, i)
  }

  ghost predicate PaddedPiece(codec: Codec, nal: seq<byte>, pieces: seq<seq<byte>>, heads: seq<Head>, fills: seq<seq<byte>>,
                              ps: seq<Pack>, i: nat)
    requires |nal| >= HeaderSize(codec) && |pieces| == |heads| == |fills| == |ps| && i < |ps| && |fills[i]| < 255
  {
    && heads[i].Valid()
    && ps[i].data == SentPadded(heads[i], FuPrefix(codec, nal, i == 0, i == |ps| - 1) + pieces[i], fills[i])
  }

  lemma {:induction false} PaddedAre(codec: Codec, nal: seq<byte>, pieces: seq<seq<byte>>, heads: seq<Head>,
                                     fills: seq<seq<byte>>, ps: seq<Pack>, n: nat)
    requires (codec == H264 || codec == H265) && AllPadded(codec, nal, pieces, heads, fills, ps) && 0 < n <= |ps|
    ensures Fragments(codec, ps, n)
         == Some(Acc(START_CODE + (nal[..HeaderSize(codec)] + Joined(pieces[..n])), |fills[n - 1]| + 1))
    decreases n
  {
    hide FuPrefix, AddFragment, SentPadded, PayloadOf, TailAfter;
    var i := n - 1;
    assert PaddedPiece(codec, nal, pieces, heads, fills, ps, i);
    var h, before := nal[..HeaderSize(codec)], Joined(pieces[..i]);
    assert pieces[..n][..i] == pieces[..i] && pieces[..n][i] == pieces[i];
    var a := if i == 0 then Acc(START_CODE, 0) else Acc(START_CODE + (h + before), |fills[i - 1]| + 1);
    if i > 0 {
      PaddedAre(codec, nal, pieces, heads, fills, ps, i);
    }
    PayloadIs(heads[i], FuPrefix(codec, nal, i == 0, i == |ps| - 1) + pieces[i], fills[i], a.tail);
    FragmentPut(codec, nal, i == 0, i == |ps| - 1, pieces[i], ps[i].data, i == 0, a);
    assert a.bytes + (if i == 0 then h else []) + pieces[i] == START_CODE + (h + (before + pieces[i]));
  }

  /** A unit whose fragments are all padded comes back whole, without the padding. */
  lemma PaddedReassembled(codec: Codec, nal: seq<byte>, pieces: seq<seq<byte>>, heads: seq<Head>,
                          fills: seq<seq<byte>>, ps: seq<Pack>)
    requires (codec == H264 || codec == H265) && AllPadded(codec, nal, pieces, heads, fills, ps) && |ps| >= 2
    requires nal[HeaderSize(codec)..] == Joined(pieces)
    ensures Assemble(codec, ps).Some? && Assemble(codec, ps).value.codec == codec
    ensures Assemble(codec, ps).value.bytes == [0, 0, 0, 1] + nal
  {
    hide FuPrefix, AllPadded;
    PaddedSize(codec, nal, pieces, heads, fills, ps);
    PaddedAre(codec, nal, pieces, heads, fills, ps, |ps|);
    assert pieces[..|ps|] == pieces;
    assert nal[..HeaderSize(codec)] + nal[HeaderSize(codec)..] == nal;
  }

  lemma PaddedSize(codec: Codec, nal: seq<byte>, pieces: seq<seq<byte>>, heads: seq<Head>, fills: seq<seq<byte>>, ps: seq<Pack>)
    requires AllPadded(codec, nal, pieces, heads, fills, ps)
    ensures |nal| >= HeaderSize(codec) && |pieces| == |fills| == |ps|
  {
  }

  /** Two fragments, the first padded and the second not: the unit comes out short by the padding. */
  lemma PaddingLost(codec: Codec, nal: seq<byte>, a: seq<byte>, b: seq<byte>, h1: Head, h2: Head, fill: seq<byte>,
                    p1: Pack, p2: Pack)
    requires (codec == H264 || codec == H265) && |nal| >= HeaderSize(codec) && h1.Valid() && h2.Valid() && |fill| < |b|
    requires |fill| < 255 && p1.data == SentPadded(h1, FuPrefix(codec, nal, true, false) + a, fill)
    requires p2.data == Sent(h2, FuPrefix(codec, nal, false, true) + b)
    ensures Assemble(codec, [p1, p2]).Some?
    ensures Assemble(codec, [p1, p2]).value.bytes
         == [0, 0, 0, 1] + (nal[..HeaderSize(codec)] + a + b[..|b| - (|fill| + 1)])
  {
    hide FuPrefix, AddFragment, SentPadded, Sent, PayloadOf, TailAfter;
    var ps, h, n := [p1, p2], nal[..HeaderSize(codec)], |fill| + 1;
    var second := FuPrefix(codec, nal, false, true);
    PayloadIs(h1, FuPrefix(codec, nal, true, false) + a, fill, 0);
    FragmentPut(codec, nal, true, false, a, p1.data, true, Acc(START_CODE, 0));
    assert Fragments(codec, ps, 0) == Some(Acc(START_CODE, 0));
    assert Fragments(codec, ps, 1) == Some(Acc(START_CODE + h + a, n));
    PaddingSticks(h2, second + b, n);
    assert (second + b)[..|second + b| - n] == second + b[..|b| - n];
    FragmentPut(codec, nal, false, true, b[..|b| - n], p2.data, false, Acc(START_CODE + h + a, n));
    assert START_CODE + h + a + [] + b[..|b| - n] == START_CODE + (h + a + b[..|b| - n]);
  }
}
