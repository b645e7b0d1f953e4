/** The receiving side of an RTSP connection over TCP. */
module RtspConnection {
  import opened Bytes
  import opened Options
  import opened RtpPacket
  import opened Depacketizer
  import opened FrameCache
  import FrameOrganizer
  import opened RtspStream
  import opened Dispatch

  class Connection {
    const recvBuf: array<byte>
    const service: FrameOrganizer.Service
    const sink: Sink
    const organizer: FrameOrganizer.Organizer
    var recvSize: nat
    var open: bool

    ghost predicate Valid()
      reads this, recvBuf, service, sink, organizer, organizer.freeList, organizer.frameMap.Values
    {
      && recvBuf.Length == MAX_BYTES_PER_RECEIVE && recvSize <= MAX_BYTES_PER_RECEIVE
      && Ready() && Sound(C(), W()) && (open ==> ParseStream(recvBuf[..recvSize]) == Parsed([], recvBuf[..recvSize], true))
    }

    constructor (service: FrameOrganizer.Service, h264Type: nat, h265Type: nat, max: nat)
      requires max > 0 && NoTwice(service.bufList)
      ensures Valid() && this.service == service && recvSize == 0 && open
      ensures W() == World(map[], service.bufList, []) && C() == Config(h264Type, h265Type, max)
    {
      this.service := service;
      var sink := new Sink(h264Type, h265Type);
      this.sink := sink;
      organizer := new FrameOrganizer.Organizer(service, sink, max);
      recvBuf := new byte[MAX_BYTES_PER_RECEIVE];
      recvSize, open := 0, true;
    }

    ghost function C(): Config
      reads sink`h264Type, sink`h265Type
    {
      Config(sink.h264Type, sink.h265Type, organizer.max)
    }

    ghost function W(): World
      reads service, sink`out, organizer`frameMap, organizer.frameMap.Values
    {
      World(organizer.V(), service.bufList, sink.out)
    }

    ghost function L(): Link
      reads this, recvBuf, service, sink`out, organizer`frameMap, organizer.frameMap.Values
      requires recvSize <= recvBuf.Length
    {
      Link(W(), recvBuf[..recvSize], open)
    }

    /** The organizer works for this connection. */
    ghost predicate Ready()
      reads organizer, organizer.freeList, organizer.frameMap.Values
    {
      organizer.service == service && organizer.sink == sink && organizer.Valid()
    }

    lemma ReadyFits()
      requires Ready()
      ensures Fits(C(), W())
    {
    }

    /** The part of a packet between header and padding, handed to the client as it is. */
    method HandOver(codec: Codec, prefix: seq<byte>, d: seq<byte>, packet: Packet, buf: nat) returns (ok: bool)
      requires HeadLength(d) == Some(packet.headLen) && packet.headLen <= |d| && |d| >= FIXED
      requires packet.tailLen == TailAfter(d, 0)
      modifies sink`out, service
      ensures ok == Inside(d).Some?
      ensures ok ==> sink.out == old(sink.out) + [Out(codec, Timestamp(d), prefix + Inside(d).value)]
      ensures ok ==> service.bufList == old(service.bufList) + [buf]
      ensures !ok ==> sink.out == old(sink.out) && service.bufList == old(service.bufList)
    {
      hide HeadLength, TailAfter;
      if packet.headLen + packet.tailLen > |d| {
        return false;
      }
      sink.out := sink.out + [Out(codec, Timestamp(d), prefix + d[packet.headLen..|d| - packet.tailLen])];
      service.FreeRtpRecvBuf(buf);
      ok := true;
    }

    /** A packet of a unit: whole units go straight to the client, fragments to the organizer. */
    method HandleUnit(codec: Codec, d: seq<byte>, packet: Packet, buf: nat) returns (ok: bool)
      requires Ready() && (codec == H264 || codec == H265)
      requires HeadLength(d) == Some(packet.headLen) && packet.headLen <= |d| && |d| >= FIXED
      requires packet.tailLen == TailAfter(d, 0) && CodecOf(C(), PayloadType(d[1])) == Some(codec)
      modifies organizer`frameMap, organizer`freeList, organizer.frameMap.Values, organizer.freeList, service, sink`out
      ensures Ready() && Fits(C(), old(W()))
      ensures ok == Video(C(), old(W()), buf, d).ok && W() == Video(C(), old(W()), buf, d).w
      ensures forall f :: f in organizer.frameMap.Values || f in organizer.freeList ==>
        f in old(organizer.frameMap.Values) || f in old(organizer.freeList)
    {
      hide HeadLength, TailAfter, Arrive, Inside, IsFragment, FrameOrganizer.Organizer.Valid, FrameOrganizer.Organizer.V;
      ReadyFits();
      if IsFragment(codec, d, packet.headLen) {
        ok := organizer.InsertRtpPacket(d, buf);
      } else {
        ok := HandOver(codec, START_CODE, d, packet, buf);
      }
    }

    method HandleVideo(d: seq<byte>, buf: nat) returns (ok: bool)
      requires Ready()
      modifies organizer`frameMap, organizer`freeList, organizer.frameMap.Values, organizer.freeList, service, sink`out
      ensures Ready() && Fits(C(), old(W()))
      ensures ok == Video(C(), old(W()), buf, d).ok && W() == Video(C(), old(W()), buf, d).w
      ensures forall f :: f in organizer.frameMap.Values || f in organizer.freeList ==>
        f in old(organizer.frameMap.Values) || f in old(organizer.freeList)
    {
      hide HeadLength, TailAfter, Arrive, Inside, IsFragment, Ready, W;
      ReadyFits();
      var packet := new Packet();
      var parsed := packet.ParsePacket(d);
      if !parsed {
        return false;
      }
      HeadSize(d);
      if sink.h264Type == PayloadType(d[1]) {
        ok := HandleUnit(H264, d, packet, buf);
      } else if sink.h265Type == PayloadType(d[1]) {
        ok := HandleUnit(H265, d, packet, buf);
      } else {
        ok := false;
      }
    }

    method HandleAudio(d: seq<byte>, buf: nat) returns (ok: bool)
      requires Ready()
      modifies service, sink`out
      ensures Ready() && ok == AudioPacket(old(W()), buf, d).ok && W() == AudioPacket(old(W()), buf, d).w
    {
      hide HeadLength, TailAfter, Inside, FrameOrganizer.Organizer.Valid, FrameOrganizer.Organizer.V;
      var packet := new Packet();
      var parsed := packet.ParsePacket(d);
      if !parsed {
        return false;
      }
      HeadSize(d);
      if PayloadType(d[1]) == PCMU {
        ok := HandOver(G711U, [], d, packet, buf);
        assert Inside(d).Some? ==> [] + Inside(d).value == Inside(d).value;
      } else if PayloadType(d[1]) == PCMA {
        ok := HandOver(G711A, [], d, packet, buf);
        assert Inside(d).Some? ==> [] + Inside(d).value == Inside(d).value;
      } else {
        ok := false;
      }
    }

    /** handle_rtp_packet and handle_rtcp_packet, by channel; an unknown channel frees the buffer. */
    method HandlePayload(channel: byte, d: seq<byte>, buf: nat) returns (ok: bool)
      requires Ready()
      modifies organizer`frameMap, organizer`freeList, organizer.frameMap.Values, organizer.freeList, service, sink`out
      ensures Ready() && Fits(C(), old(W()))
      ensures var w := old(W());
        var h := if channel == VIDEO_RTP then Video(C(), w, buf, d)
                 else if channel == AUDIO_RTP then AudioPacket(w, buf, d)
                 else Handled(w.(pool := w.pool + [buf]), true);
        ok == h.ok && W() == h.w
      ensures forall f :: f in organizer.frameMap.Values || f in organizer.freeList ==>
        f in old(organizer.frameMap.Values) || f in old(organizer.freeList)
    {
      hide Video, AudioPacket, FrameOrganizer.Organizer.Valid, FrameOrganizer.Organizer.V;
      ReadyFits();
      if channel == VIDEO_RTP {
        ok := HandleVideo(d, buf);
      } else if channel == AUDIO_RTP {
        ok := HandleAudio(d, buf);
      } else if channel == VIDEO_RTCP {
        service.FreeRtpRecvBuf(buf);
        ok := true;
      } else if channel == AUDIO_RTCP {
        service.FreeRtpRecvBuf(buf);
        ok := true;
      } else {
        service.FreeRtpRecvBuf(buf);
        ok := true;
      }
    }

    /** One interleaved frame at the start of `d`: its size, 0 if more bytes are needed, negative if it is
        too big. */
    method HandleRtpRtcpData(d: seq<byte>) returns (n: int)
      requires Ready() && d != [] && d[0] == INTERLEAVE_FLAG
      modifies organizer`frameMap, organizer`freeList, organizer.frameMap.Values, organizer.freeList, service, sink`out
      ensures Ready() && n == FrameSize(d) && Fits(C(), old(W()))
      ensures W() == if n > 0 then HandleFrame(C(), old(W()), FrameOf(d)) else old(W())
      ensures forall f :: f in organizer.frameMap.Values || f in organizer.freeList ==>
        f in old(organizer.frameMap.Values) || f in old(organizer.freeList)
    {
      hide Video, AudioPacket, FrameOrganizer.Organizer.Valid, FrameOrganizer.Organizer.V, Get16;
      ReadyFits();
      if |d| < INTERLEAVE_HEADER {
        return 0;
      }
      var mediaSize := Get16(d, 2);
      if |d| - INTERLEAVE_HEADER < mediaSize {
        return 0;
      }
      if mediaSize > RTP_RECV_BUF_SIZE {
        return -1;
      }
      n := mediaSize + INTERLEAVE_HEADER;
      var buf := service.GetRtpRecvBuf();
      if buf == None {
        return;
      }
      var ok := HandlePayload(d[1], d[INTERLEAVE_HEADER..n], buf.value);
      if !ok {
        service.FreeRtpRecvBuf(buf.value);
      }
    }

    /** Anything but an interleaved frame ends the connection here. */
    method ProcessRecvedMessage(d: seq<byte>) returns (n: int)
      requires Ready()
      modifies organizer`frameMap, organizer`freeList, organizer.frameMap.Values, organizer.freeList, service, sink`out
      ensures Ready() && n == FrameSize(d) && Fits(C(), old(W()))
      ensures W() == if n > 0 then HandleFrame(C(), old(W()), FrameOf(d)) else old(W())
      ensures forall f :: f in organizer.frameMap.Values || f in organizer.freeList ==>
        f in old(organizer.frameMap.Values) || f in old(organizer.freeList)
    {
      hide Ready;
      ReadyFits();
      if |d| == 0 || d[0] != INTERLEAVE_FLAG {
        return -1;
      }
      n := HandleRtpRtcpData(d);
    }

    /** The frames at the start of the buffer, as far as they are complete: how many bytes have been used,
        negative when the connection has to be closed. */
    method UseFrames(total: nat) returns (used: int)
      requires Ready() && Sound(C(), W()) && 0 < total <= recvBuf.Length
      modifies organizer`frameMap, organizer`freeList, organizer.frameMap.Values, organizer.freeList, service, sink`out
      ensures Ready() && Sound(C(), W()) && used <= total
      ensures var p := ParseStream(recvBuf[..total]);
        && W() == HandleAll(C(), old(W()), p.frames) && (p.ok <==> used >= 0)
        && (p.ok ==> p.rest == recvBuf[used..total])
      ensures forall f :: f in organizer.frameMap.Values || f in organizer.freeList ==>
        f in old(organizer.frameMap.Values) || f in old(organizer.freeList)
    {
      hide Ready, W, Sound, HandleFrame, HandleAll, ParseStream, FrameSize, FrameOf;
      ghost var all, c, w0 := recvBuf[..total], C(), W();
      ghost var goal := ParseStream(all);
      var processed: nat := 0;
      assert all[0..] == all;
      while processed < total
        invariant processed <= total && Ready() && Sound(c, W()) && C() == c && recvBuf[..total] == all
        invariant HandleAll(c, W(), ParseStream(all[processed..]).frames) == HandleAll(c, w0, goal.frames)
        invariant ParseStream(all[processed..]).ok == goal.ok && ParseStream(all[processed..]).rest == goal.rest
        invariant forall f :: f in organizer.frameMap.Values || f in organizer.freeList ==>
          f in old(organizer.frameMap.Values) || f in old(organizer.freeList)
        decreases total - processed
      {
        ghost var rest := all[processed..];
        ghost var w := W();
        assert recvBuf[processed..total] == rest;
        var size := ProcessRecvedMessage(recvBuf[processed..total]);
        if size < 0 {
          NothingWhole(rest);
          NoFrames(c, w);
          return -1;
        }
        if size == 0 {
          NothingWhole(rest);
          NoFrames(c, w);
          return processed;
        }
        SizeFits(rest);
        HandleOwns(c, w, FrameOf(rest));
        HandleNext(c, w, rest);
        assert rest[size..] == all[processed + size..];
        processed := processed + size;
      }
      assert all[processed..] == [];
      NothingLeft();
      NoFrames(c, W());
      used := processed;
    }

    lemma NothingWhole(d: seq<byte>)
      requires d != [] && FrameSize(d) <= 0
      ensures ParseStream(d) == Parsed([], d, FrameSize(d) == 0)
    {
    }

    lemma NothingLeft()
      ensures ParseStream([]) == Parsed([], [], true)
    {
    }

    lemma HandleNext(c: Config, w: World, d: seq<byte>)
      requires Sound(c, w) && FrameSize(d) > 0
      ensures Sound(c, HandleFrame(c, w, FrameOf(d)))
      ensures HandleAll(c, w, ParseStream(d).frames)
           == HandleAll(c, HandleFrame(c, w, FrameOf(d)), ParseStream(d[FrameSize(d)..]).frames)
      ensures ParseStream(d).ok == ParseStream(d[FrameSize(d)..]).ok
      ensures ParseStream(d).rest == ParseStream(d[FrameSize(d)..]).rest
    {
      hide HandleFrame, FrameSize, FrameOf, Apart, Good;
      SizeFits(d);
      HandleOwns(c, w, FrameOf(d));
      var r := ParseStream(d[FrameSize(d)..]);
      assert ParseStream(d).frames == [FrameOf(d)] + r.frames;
      assert ParseStream(d).frames[1..] == r.frames;
    }

    method Append(chunk: seq<byte>) returns (total: nat)
      requires recvSize + |chunk| <= recvBuf.Length
      modifies recvBuf
      ensures total == recvSize + |chunk| && recvBuf[..total] == old(recvBuf[..recvSize]) + chunk
    {
      forall i | 0 <= i < |chunk| {
        recvBuf[recvSize + i] := chunk[i];
      }
      total := recvSize + |chunk|;
    }

    /** Moves what has not been used to the front. */
    method Shift(used: nat, total: nat)
      requires used <= total <= recvBuf.Length
      modifies recvBuf
      ensures recvBuf[..total - used] == old(recvBuf[used..total])
    {
      forall i | 0 <= i < total - used {
        recvBuf[i] := recvBuf[used + i];
      }
    }

    /** handle_recv, with the bytes that the socket delivered. */
    method HandleRecv(chunk: seq<byte>)
      requires Valid() && open && 0 < |chunk| <= MAX_BYTES_PER_RECEIVE - recvSize
      modifies this`recvSize, this`open, recvBuf, organizer`frameMap, organizer`freeList,
        organizer.frameMap.Values, organizer.freeList, service, sink`out
      ensures Valid() && C() == old(C())
      ensures var l := Receive(C(), old(L()), chunk);
        W() == l.w && open == l.open && (open ==> recvBuf[..recvSize] == l.pending)
      ensures open ==> recvSize < MAX_BYTES_PER_RECEIVE
    {
      hide Valid, Ready, W, Sound, HandleAll, ParseStream;
      ValidIs();
      ghost var before := recvBuf[..recvSize];
      var total := Append(chunk);
      var used := UseFrames(total);
      if used < 0 {
        open := false;
        ValidIs();
        return;
      }
      RestBounded(before + chunk);
      RestWaits(before + chunk);
      Shift(used, total);
      recvSize := total - used;
      ValidIs();
    }

    lemma ValidIs()
      ensures Valid() <==>
        && recvBuf.Length == MAX_BYTES_PER_RECEIVE && recvSize <= MAX_BYTES_PER_RECEIVE && Ready() && Sound(C(), W())
        && (open ==> ParseStream(recvBuf[..recvSize]) == Parsed([], recvBuf[..recvSize], true))
    {
      hide Ready, W, Sound, ParseStream;
    }

    /** The end of a connection and of its organizer: what its cache holds is free again. */
    method Destroy()
      requires Valid()
      modifies this`open, organizer`frameMap, organizer`freeList, organizer.frameMap.Values, service
      ensures L() == Closed(old(L())) && organizer.freeList == []
    {
      hide Sound, ParseStream, ReleaseAll;
      organizer.Release();
      open := false;
    }
  }
}
