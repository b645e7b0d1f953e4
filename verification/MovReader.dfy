/** The reader: mov_reader_box walks the boxes of a file and hands each to the reader of its kind. */
module MovReader {
  import opened Bytes
  import opened IoUtil
  import opened Runs
  import opened SampleTables
  import opened TrackBoxes
  import opened FragmentBoxes
  import opened Options
  import opened BoxParser
  import opened IndexBoxes
  import opened TrackReader

  const UINT64_MAX := 0xFFFF_FFFF_FFFF_FFFF

  function Views(ss: seq<Stream>): (ts: seq<Tables>)
    reads ss
    ensures |ts| == |ss|
  {
    seq(|ss|, i requires 0 <= i < |ss| reads ss => ss[i].V())
  }

  /** Size and type of a box; `n` bytes of the size are its header. */
  method ReadHeader(io: Io, ghost end: nat) returns (size: nat, n: nat, code: uint32)
    requires io.error == 0
    modifies io`pos, io`error
    ensures n >= 8 && (old(io.pos) == |io.data| ==> size == 0 && code == 0)
    ensures var p := old(io.pos);
      p + 8 <= |io.data| && BoxExtent(io.data, p, end).Some? ==>
        io.error == 0 && io.pos == p + n && code == Get32(io.data, p + 4) && size > 0
        && BoxExtent(io.data, p, end) == Some((size, n))
  {
    hide Get32, Get64;
    n := 8;
    size := io.R32();
    code := io.R32();
    if size == 1 {
      size := io.R64();
      n := 16;
    }
  }

  class Reader {
    const io: Io
    var tracks: seq<Stream>
    var cur: int  // -1 for none
    var moofOffset: uint64
    var implicitOffset: uint64

    ghost predicate Valid()
      reads this, tracks
    {
      && -1 <= cur < |tracks|
      && (forall i :: 0 <= i < |tracks| ==> tracks[i].Valid())
      && (forall i, j :: 0 <= i < j < |tracks| ==> tracks[i] != tracks[j])
    }

    ghost function State(): Reading
      reads this, tracks
    {
      Reading(Views(tracks), cur, moofOffset, implicitOffset)
    }

    constructor (io: Io)
      ensures Valid() && this.io == io && State() == START && fresh(set s | s in tracks)
    {
      this.io := io;
      tracks, cur, moofOffset, implicitOffset := [], -1, 0, 0;
    }

    /** mov_find_track */
    method Find(id: uint32) returns (i: int)
      requires Valid()
      ensures i == FindTrack(Views(tracks), id)
    {
      hide Stream.Valid, Stream.V, FindTrack;
      i := 0;
      while i < |tracks|
        invariant 0 <= i <= |tracks|
        invariant forall k :: 0 <= k < i ==> Views(tracks)[k].id != id
      {
        tracks[i].IdOf();
        assert Views(tracks)[i].id == tracks[i].id;
        if tracks[i].id == id {
          return;
        }
        i := i + 1;
      }
      i := -1;
    }

    /** mov_fetch_track */
    method Fetch(id: uint32) returns (i: nat)
      requires Valid()
      modifies this`tracks
      ensures Valid() && i < |tracks| && State().(cur := i) == BoxParser.FetchTrack(old(State()), id) && cur == old(cur)
      ensures forall i :: 0 <= i < |tracks| ==> tracks[i] in old(tracks) || fresh(tracks[i])
    {
      hide Stream.Valid, Stream.V, FindTrack;
      ghost var st := State();
      var k := Find(id);
      if k >= 0 {
        return k;
      }
      var t := new Stream(id);
      i := |tracks|;
      tracks := tracks + [t];
      assert Views(tracks) == st.tracks + [NewTrack(id)];
    }

    /** The track that the boxes that follow belong to. */
    method FetchTrack(id: uint32)
      requires Valid()
      modifies this`tracks, this`cur
      ensures Valid() && State() == BoxParser.FetchTrack(old(State()), id)
      ensures forall i :: 0 <= i < |tracks| ==> tracks[i] in old(tracks) || fresh(tracks[i])
    {
      hide Stream.Valid, Stream.V, BoxParser.FetchTrack;
      cur := Fetch(id);
    }

    twostate lemma OneChanged(k: nat)
      requires old(Valid()) && k < |tracks| && tracks == old(tracks) && cur == old(cur)
      requires forall i :: 0 <= i < |tracks| && i != k ==> unchanged(tracks[i])
      ensures State() == old(State()).(tracks := old(State()).tracks[k := tracks[k].V()],
                                       moof := moofOffset, implicit := implicitOffset)
      ensures tracks[k].Valid() ==> Valid()
    {
      assert Views(tracks) == old(Views(tracks))[k := tracks[k].V()];
    }

    /** One table box of the current track. */
    method ReadTable(code: uint32, ghost q: nat) returns (r: int)
      requires Valid() && io.error == 0
      modifies tracks, io`pos, io`error
      ensures Valid()
      ensures ParseTable(io.data, old(io.pos), q, code, old(State())).Read? && IsTable(code) ==>
        r == 0 && io.error == 0 && io.pos == q
        && State() == ParseTable(io.data, old(io.pos), q, code, old(State())).st
    {
      hide ParseCounted, ParseStsz, ParseRuns, ParseStsc, Parse32, Parse64, Stream.V, Stream.Valid;
      if cur < 0 {
        return -1;
      }
      var t := tracks[cur];
      if code == STTS {
        t.ReadStts(io, q);
      } else if code == CTTS {
        t.ReadCtts(io, q);
      } else if code == STSC {
        t.ReadStsc(io, q);
      } else if code == STSZ {
        t.ReadStsz(io, q);
      } else if code == STCO || code == CO64 {
        t.ReadStco(io, code == CO64, q);
      } else if code == STSS {
        t.ReadStss(io, q);
      }
      OneChanged(cur);
      r := io.error;
    }

    predicate IsTable(code: uint32) {
      code == STTS || code == CTTS || code == STSC || code == STSZ || code == STCO || code == CO64 || code == STSS
    }

    /** Only the track id is kept of a track header. */
    method ReadTkhd()
      requires Valid() && io.error == 0
      modifies this`tracks, this`cur, io`pos, io`error
      ensures Valid() && forall i :: 0 <= i < |tracks| ==> tracks[i] in old(tracks) || fresh(tracks[i])
      ensures old(io.pos) + 24 <= |io.data| ==>
        var p := old(io.pos);
        io.error == 0 && p <= io.pos <= p + 24
        && State() == BoxParser.FetchTrack(old(State()),
                                           if io.data[p] == 1 then Get32(io.data, p + 20) else Get32(io.data, p + 12))
    {
      hide Get32, Get64, BoxParser.FetchTrack, Stream.V, Stream.Valid, Valid;
      var version := io.R8();
      var flags := io.R24();
      if version == 1 {
        var created := io.R64();
        var modified := io.R64();
      } else {
        var created := io.R32();
        var modified := io.R32();
      }
      var id := io.R32();
      FetchTrack(id);
    }

    method ReadElst(ghost q: nat) returns (r: int)
      requires Valid() && io.error == 0
      modifies tracks, io`pos, io`error
      ensures Valid()
      ensures ParseLeaf(io.data, old(io.pos), q, ELST, Root, old(State())).Read? ==>
        r == 0 && io.error == 0 && io.pos == q
        && State() == ParseLeaf(io.data, old(io.pos), q, ELST, Root, old(State())).st
    {
      hide ParseElst, Stream.V, Stream.Valid;
      if cur < 0 {
        return -1;
      }
      tracks[cur].ReadElst(io, q);
      OneChanged(cur);
      r := io.error;
    }

    // ---- Movie fragments ----

    method ReadTrex(ghost q: nat) returns (r: int)
      requires Valid() && io.error == 0
      modifies this`tracks, tracks, io`pos, io`error
      ensures Valid() && forall i :: 0 <= i < |tracks| ==> tracks[i] in old(tracks) || fresh(tracks[i])
      ensures ParseTrex(io.data, old(io.pos), q, old(State())).Read? ==>
        r == 0 && io.error == 0 && io.pos == q
        && State() == ParseTrex(io.data, old(io.pos), q, old(State())).st
    {
      hide Get32, BoxParser.FetchTrack, Stream.V, Stream.Valid, Valid;
      var id := ReadTrackId();
      var i := Fetch(id);
      var defs := ReadDefaults();
      SetTrex(i, defs);
      r := io.error;
    }

    method ReadTrackId() returns (id: uint32)
      modifies io`pos, io`error
      ensures old(io.error) == 0 && old(io.pos) + 8 <= |io.data| ==>
        io.error == 0 && io.pos == old(io.pos) + 8 && id == Get32(io.data, old(io.pos) + 4)
    {
      hide Get32;
      var versionAndFlags := io.R32();
      id := io.R32();
    }

    method ReadDefaults() returns (defs: Defaults)
      modifies io`pos, io`error
      ensures var p := old(io.pos);
        old(io.error) == 0 && p + 16 <= |io.data| ==>
          io.error == 0 && io.pos == p + 16
          && defs == Defaults(Get32(io.data, p), Get32(io.data, p + 4), Get32(io.data, p + 8), Get32(io.data, p + 12))
    {
      hide Get32;
      var sdi := io.R32();
      var duration := io.R32();
      var size := io.R32();
      var flags := io.R32();
      defs := Defaults(sdi, duration, size, flags);
    }

    method SetTrex(i: nat, defs: Defaults)
      requires Valid() && i < |tracks|
      modifies tracks
      ensures Valid() && State() == old(State()).(tracks := old(State().tracks)[i := old(State().tracks)[i].(trex := defs)])
    {
      hide Stream.V, Stream.Valid;
      tracks[i].SetTrex(defs);
      OneChanged(i);
    }

    /** A 32-bit field if it is there, else its default. */
    method ReadField(flags: uint24, bit: nat, default_: uint32) returns (v: uint32)
      requires bit > 0
      modifies io`pos, io`error
      ensures old(io.error) == 0 && old(io.pos) + Width(flags, bit, 4) <= |io.data| ==>
        io.error == 0 && io.pos == old(io.pos) + Width(flags, bit, 4)
        && v == Field(io.data, old(io.pos), flags, bit, default_)
    {
      v := default_;
      if Has(flags, bit) {
        v := io.R32();
      }
    }

    /** The fields of a tfhd behind its base data offset. */
    method ReadFields(flags: uint24, trex: Defaults) returns (defs: Defaults)
      modifies io`pos, io`error
      ensures var a := old(io.pos);
        var b := a + Width(flags, TFHD_SAMPLE_DESCRIPTION_INDEX, 4);
        var c := b + Width(flags, TFHD_DEFAULT_DURATION, 4);
        var e := c + Width(flags, TFHD_DEFAULT_SIZE, 4);
        var q := e + Width(flags, TFHD_DEFAULT_FLAGS, 4);
        old(io.error) == 0 && q <= |io.data| ==>
          io.error == 0 && io.pos == q
          && defs == Defaults(Field(io.data, a, flags, TFHD_SAMPLE_DESCRIPTION_INDEX, trex.sdi),
                              Field(io.data, b, flags, TFHD_DEFAULT_DURATION, trex.duration),
                              Field(io.data, c, flags, TFHD_DEFAULT_SIZE, trex.size),
                              Field(io.data, e, flags, TFHD_DEFAULT_FLAGS, trex.flags))
    {
      hide Field, Width;
      var sdi := ReadField(flags, TFHD_SAMPLE_DESCRIPTION_INDEX, trex.sdi);
      var duration := ReadField(flags, TFHD_DEFAULT_DURATION, trex.duration);
      var size := ReadField(flags, TFHD_DEFAULT_SIZE, trex.size);
      var sflags := ReadField(flags, TFHD_DEFAULT_FLAGS, trex.flags);
      defs := Defaults(sdi, duration, size, sflags);
    }

    method ReadBase(flags: uint24) returns (base: uint64)
      modifies io`pos, io`error
      ensures var p := old(io.pos);
        old(io.error) == 0 && p + Width(flags, TFHD_BASE_DATA_OFFSET, 8) <= |io.data| ==>
          io.error == 0 && io.pos == p + Width(flags, TFHD_BASE_DATA_OFFSET, 8)
          && base == if Has(flags, TFHD_BASE_DATA_OFFSET) then Get64(io.data, p)
                     else if Has(flags, TFHD_DEFAULT_BASE_IS_MOOF) then moofOffset else implicitOffset
    {
      hide Get64, Has;
      base := implicitOffset;
      if Has(flags, TFHD_BASE_DATA_OFFSET) {
        base := io.R64();
      } else if Has(flags, TFHD_DEFAULT_BASE_IS_MOOF) {
        base := moofOffset;
      }
    }

    /** Fails for a track that has not been announced. */
    method ReadTfhd(ghost q: nat) returns (r: int)
      requires Valid() && io.error == 0
      modifies this`cur, tracks, io`pos, io`error
      ensures Valid()
      ensures ParseTfhd(io.data, old(io.pos), q, old(State())).Read? ==>
        r == 0 && io.error == 0 && io.pos == q
        && State() == ParseTfhd(io.data, old(io.pos), q, old(State())).st
      ensures ParseTfhd(io.data, old(io.pos), q, old(State())) == Refused ==> r != 0
    {
      hide Get24, Get32, Get64, Field, Has, Width, FindTrack, Stream.V, Stream.Valid, Valid;
      var flags, id := ReadFlagsAndId();
      var i := Find(id);
      if i < 0 {
        return -1;
      }
      var trex := Choose(i);
      var base := ReadBase(flags);
      var defs := ReadFields(flags, trex);
      SetTfhd(Tfhd(flags, base, defs));
      r := io.error;
    }

    method ReadFlagsAndId() returns (flags: uint24, id: uint32)
      modifies io`pos, io`error
      ensures old(io.error) == 0 && old(io.pos) + 8 <= |io.data| ==>
        io.error == 0 && io.pos == old(io.pos) + 8
        && flags == Get24(io.data, old(io.pos) + 1) && id == Get32(io.data, old(io.pos) + 4)
    {
      hide Get24, Get32;
      var version := io.R8();
      flags := io.R24();
      id := io.R32();
    }

    method Choose(i: nat) returns (trex: Defaults)
      requires Valid() && i < |tracks|
      modifies this`cur
      ensures Valid() && cur == i && State() == old(State()).(cur := i) && trex == State().tracks[i].trex
    {
      hide Stream.V, Stream.Valid;
      cur := i;
      tracks[i].Known();
      trex := tracks[i].trex;
    }

    method SetTfhd(t: Tfhd)
      requires Valid() && cur >= 0
      modifies tracks
      ensures Valid() && State() == old(State()).(tracks := old(State().tracks)[cur := old(State().tracks)[cur].(tfhd := t)])
    {
      hide Stream.V, Stream.Valid;
      tracks[cur].SetTfhd(t);
      OneChanged(cur);
    }

    method ReadTfdt(ghost q: nat) returns (r: int)
      requires Valid() && io.error == 0
      modifies tracks, io`pos, io`error
      ensures Valid()
      ensures ParseTfdt(io.data, old(io.pos), q, old(State())).Read? ==>
        r == 0 && io.error == 0 && io.pos == q
        && State() == ParseTfdt(io.data, old(io.pos), q, old(State())).st
    {
      hide Get24, Get32, Get64, Stream.V, Stream.Valid;
      var base := ReadBaseTime();
      if cur < 0 {
        return -1;
      }
      tracks[cur].Known();
      var dts := AddEdits(tracks[cur].elst, base);
      tracks[cur].SetClock(dts);
      OneChanged(cur);
      r := io.error;
    }

    method ReadBaseTime() returns (base: int)
      modifies io`pos, io`error
      ensures var d, p := io.data, old(io.pos);
        old(io.error) == 0 && p + 8 <= |d| && p + (if d[p] == 1 then 12 else 8) <= |d| ==>
          io.error == 0 && io.pos == p + (if d[p] == 1 then 12 else 8)
          && base == if d[p] == 1 then S64(Get64(d, p + 4)) else Get32(d, p + 4)
    {
      hide Get24, Get32, Get64;
      var version := io.R8();
      var flags := io.R24();
      if version == 1 {
        var large := io.R64();
        base := S64(large);
      } else {
        base := io.R32();
      }
    }

    /** mov_apply_elst_tfdt */
    method AddEdits(es: seq<Elst>, base: int) returns (dts: int)
      ensures dts == base + EmptyEdits(es)
    {
      dts := base;
      var i := 0;
      while i < |es|
        invariant i <= |es| && dts == base + EmptyEdits(es[..i])
      {
        assert es[..i + 1][..i] == es[..i];
        if es[i].time == -1 {
          dts := dts + es[i].duration;
        }
        i := i + 1;
      }
      assert es[..i] == es;
    }

    method ReadEntry(h: RunHead, first: bool, r: Progress) returns (r': Progress)
      modifies io`pos, io`error
      ensures old(io.error) == 0 && old(io.pos) + h.EntrySize() <= |io.data| ==>
        io.error == 0 && io.pos == old(io.pos) + h.EntrySize()
        && r' == AddEntry(io.data, old(io.pos), h, first, r)
    {
      hide Field, Has;
      var duration := ReadField(h.flags, TRUN_DURATION, h.tfhd.defs.duration);
      var size := ReadField(h.flags, TRUN_SIZE, h.tfhd.defs.size);
      var flags := ReadField(h.flags, TRUN_FLAGS, if first then h.first else h.tfhd.defs.flags);
      var offset := ReadField(h.flags, TRUN_CTS, 0);
      var cts := if h.version == 1 then S32(offset) else offset;
      r' := Progress(r.samples + [Media(KeyOf(flags), r.dts + cts, r.dts, r.offset, size, h.tfhd.defs.sdi)],
                     U64(r.offset + size), r.dts + duration);
    }

    method ReadEntries(n: nat, h: RunHead, r: Progress) returns (r': Progress)
      modifies io`pos, io`error
      ensures old(io.error) == 0 && old(io.pos) + n * h.EntrySize() <= |io.data| ==>
        io.error == 0 && io.pos == old(io.pos) + n * h.EntrySize()
        && r' == Entries(io.data, old(io.pos), n, h, r)
    {
      hide AddEntry, Width;
      ghost var fits := old(io.error) == 0 && old(io.pos) + n * h.EntrySize() <= |io.data|;
      r' := r;
      var i: nat := 0;
      while i < n
        invariant i <= n
        invariant fits ==> old(io.pos) + i * h.EntrySize() <= |io.data|
        invariant fits ==> io.error == 0 && io.pos == old(io.pos) + i * h.EntrySize()
        invariant fits ==> r' == Entries(io.data, old(io.pos), i, h, r)
      {
        Times(i + 1, n, h.EntrySize());
        r' := ReadEntry(h, i == 0, r');
        i := i + 1;
      }
    }

    lemma Times(i: nat, n: nat, k: nat)
      requires 0 < i <= n
      ensures i * k == (i - 1) * k + k && i * k <= n * k
    {
    }

    /** The front of a run: how many entries, what holds for all of them, where the data starts. */
    method ReadRunHead(tfhd: Tfhd) returns (n: uint32, h: RunHead, start: uint64)
      modifies io`pos, io`error
      ensures var d, p := io.data, old(io.pos);
        old(io.error) == 0 && p + 8 <= |d| && p + TrunFront(Get24(d, p + 1)) <= |d| ==>
          io.error == 0 && io.pos == p + TrunFront(Get24(d, p + 1)) && n == Get32(d, p + 4) && h == HeadOf(d, p, tfhd)
          && start == U64(tfhd.base + (if Has(Get24(d, p + 1), TRUN_DATA_OFFSET) then S32(Get32(d, p + 8)) else 0))
    {
      hide Get24, Get32, Has;
      var version := io.R8();
      var flags := io.R24();
      n := io.R32();
      var delta := ReadField(flags, TRUN_DATA_OFFSET, 0);
      var first := ReadField(flags, TRUN_FIRST_SAMPLE_FLAGS, tfhd.flags);
      h, start := RunHead(version, flags, tfhd, first), U64(tfhd.base + S32(delta));
    }

    method ReadTrun(ghost q: nat) returns (r: int)
      requires Valid() && io.error == 0
      modifies tracks, this`implicitOffset, io`pos, io`error
      ensures Valid()
      ensures ParseTrun(io.data, old(io.pos), q, old(State())).Read? ==>
        r == 0 && io.error == 0 && io.pos == q
        && State() == ParseTrun(io.data, old(io.pos), q, old(State())).st
    {
      hide Get24, Get32, Entries, Has, Stream.V, Stream.Valid, RunHead.EntrySize, HeadOf, TrunFront;
      if cur < 0 {
        return -1;
      }
      var t := tracks[cur];
      t.Known();
      var n, h, start := ReadRunHead(t.tfhd);
      var progress := ReadEntries(n, h, Progress([], start, t.clock));
      AddRun(progress);
      r := io.error;
    }

    method AddRun(progress: Progress)
      requires Valid() && cur >= 0
      modifies tracks, this`implicitOffset
      ensures Valid()
      ensures var t := old(State()).tracks[cur];
        |t.samples| == |t.sizes| ==>
          State() == old(State()).(
            tracks := old(State()).tracks[cur := t.(samples := t.samples + progress.samples,
                                                    sizes := t.sizes + Sizes(progress.samples), clock := progress.dts)],
            implicit := progress.offset)
    {
      hide Stream.V, Stream.Valid;
      var t := tracks[cur];
      t.Append(progress.samples);
      t.SetClock(progress.dts);
      implicitOffset := progress.offset;
      OneChanged(cur);
    }

    // ---- The random access index ----

    /** One number of `n` bytes, which is not kept. */
    method ReadNumber(n: nat)
      modifies io`pos, io`error
      ensures old(io.error) == 0 && old(io.pos) + n <= |io.data| ==> io.error == 0 && io.pos == old(io.pos) + n
    {
      var i := 0;
      while i < n
        invariant i <= n
        invariant old(io.error) == 0 && old(io.pos) + n <= |io.data| ==> io.error == 0 && io.pos == old(io.pos) + i
      {
        var b := io.R8();
        i := i + 1;
      }
    }

    method ReadMark(large: bool, sizes: uint32) returns (x: Mark)
      modifies io`pos, io`error
      ensures old(io.error) == 0 && old(io.pos) + MarkSize(large, sizes) <= |io.data| ==>
        io.error == 0 && io.pos == old(io.pos) + MarkSize(large, sizes) && x == MarkAt(io.data, old(io.pos), large)
    {
      hide Get32, Get64;
      if large {
        var time := io.R64();
        var offset := io.R64();
        x := Mark(time, offset);
      } else {
        var time := io.R32();
        var offset := io.R32();
        x := Mark(time, offset);
      }
      ReadNumber(sizes / 16 % 4 + 1);
      ReadNumber(sizes / 4 % 4 + 1);
      ReadNumber(sizes % 4 + 1);
    }

    method ReadMarks(n: nat, large: bool, sizes: uint32) returns (xs: seq<Mark>)
      modifies io`pos, io`error
      ensures old(io.error) == 0 && old(io.pos) + n * MarkSize(large, sizes) <= |io.data| ==>
        io.error == 0 && io.pos == old(io.pos) + n * MarkSize(large, sizes)
        && xs == Marks(io.data, old(io.pos), n, large, sizes)
    {
      hide MarkAt, MarkSize;
      ghost var fits := old(io.error) == 0 && old(io.pos) + n * MarkSize(large, sizes) <= |io.data|;
      xs := [];
      var i: nat := 0;
      while i < n
        invariant i <= n
        invariant fits ==> old(io.pos) + i * MarkSize(large, sizes) <= |io.data|
        invariant fits ==> io.error == 0 && io.pos == old(io.pos) + i * MarkSize(large, sizes)
        invariant fits ==> xs == Marks(io.data, old(io.pos), i, large, sizes)
      {
        Times(i + 1, n, MarkSize(large, sizes));
        var x := ReadMark(large, sizes);
        xs := xs + [x];
        i := i + 1;
      }
    }

    /** Version and track of an index. */
    method ReadTfraHead() returns (version: byte, id: uint32)
      modifies io`pos, io`error
      ensures old(io.error) == 0 && old(io.pos) + 8 <= |io.data| ==>
        io.error == 0 && io.pos == old(io.pos) + 8
        && version == io.data[old(io.pos)] && id == Get32(io.data, old(io.pos) + 4)
    {
      hide Get24, Get32;
      version := io.R8();
      var flags := io.R24();
      id := io.R32();
    }

    /** Fails for a track that has not been announced. */
    method ReadTfra(ghost q: nat) returns (r: int)
      requires Valid() && io.error == 0
      modifies tracks, io`pos, io`error
      ensures Valid()
      ensures ParseTfra(io.data, old(io.pos), q, old(State())).Read? ==>
        r == 0 && io.error == 0 && io.pos == q
        && State() == ParseTfra(io.data, old(io.pos), q, old(State())).st
      ensures ParseTfra(io.data, old(io.pos), q, old(State())) == Refused ==> r != 0
    {
      hide Get32, MarkSize, Marks, FindTrack, Stream.V, Stream.Valid, Valid;
      var version, id := ReadTfraHead();
      var i := Find(id);
      if i < 0 {
        return -1;
      }
      var sizes := io.R32();
      var n := io.R32();
      var xs := ReadMarks(n, version == 1, sizes);
      SetFrags(i, xs);
      r := io.error;
    }

    method SetFrags(i: nat, xs: seq<Mark>)
      requires Valid() && i < |tracks|
      modifies tracks
      ensures Valid() && State() == old(State()).(tracks := old(State().tracks)[i := old(State().tracks)[i].(frags := xs)])
    {
      hide Stream.V, Stream.Valid;
      tracks[i].SetFrags(xs);
      OneChanged(i);
    }

    // ---- Leaves ----

    method ReadLeaf(parent: Kind, size: nat, code: uint32) returns (r: int)
      requires Valid() && io.error == 0
      modifies this`tracks, this`cur, this`implicitOffset, tracks, io`pos, io`error
      ensures Valid() && forall i :: 0 <= i < |tracks| ==> tracks[i] in old(tracks) || fresh(tracks[i])
      ensures var p := old(io.pos);
        ParseLeaf(io.data, p, p + size, code, parent, old(State())).Read? ==>
          r == 0 && io.error == 0 && p <= io.pos <= p + size
          && State() == ParseLeaf(io.data, p, p + size, code, parent, old(State())).st
      ensures var p := old(io.pos);
        ParseLeaf(io.data, p, p + size, code, parent, old(State())) == Refused ==> r != 0
    {
      hide ParseCounted, ParseTable, Get32, Stream.V, Stream.Valid, ParseTrex, ParseTfhd, ParseTfdt, ParseTrun, ParseTfra,
           ParseElst, BoxParser.FetchTrack, Reading.With, Reading.Track, Valid;
      NeverRefused(io.data, io.pos, io.pos + size, code, State());
      r := 0;
      if code == TKHD && (parent == Trak || parent == Root) {
        ReadTkhd();
      } else if code == ELST && (parent == Edts || parent == Root) {
        r := ReadElst(io.pos + size);
      } else if IsFragmentLeaf(code) && (parent == Home(code) || parent == Root) {
        r := ReadFragmentLeaf(size, code, parent);
      } else if IsTable(code) && (parent == Stbl || parent == Root) {
        r := ReadTable(code, io.pos + size);
      } else {
        OtherLeaf(io.data, io.pos, io.pos + size, code, parent, State());
        io.Skip(size);
      }
    }

    predicate IsFragmentLeaf(code: uint32) {
      code == TREX || code == TFHD || code == TFDT || code == TRUN || code == TFRA
    }

    /** The box that it stands in. */
    function Home(code: uint32): Kind {
      if code == TREX then Mvex else if code == TFRA then Mfra else Traf
    }

    method ReadFragmentLeaf(size: nat, code: uint32, ghost parent: Kind) returns (r: int)
      requires Valid() && io.error == 0 && IsFragmentLeaf(code)
      requires parent == Home(code) || parent == Root
      modifies this`tracks, this`cur, this`implicitOffset, tracks, io`pos, io`error
      ensures Valid() && forall i :: 0 <= i < |tracks| ==> tracks[i] in old(tracks) || fresh(tracks[i])
      ensures var p := old(io.pos);
        ParseLeaf(io.data, p, p + size, code, parent, old(State())).Read? ==>
          r == 0 && io.error == 0 && p <= io.pos <= p + size
          && State() == ParseLeaf(io.data, p, p + size, code, parent, old(State())).st
      ensures var p := old(io.pos);
        ParseLeaf(io.data, p, p + size, code, parent, old(State())) == Refused ==> r != 0
    {
      hide Get32, Stream.V, Stream.Valid, ParseTrex, ParseTfhd, ParseTfdt, ParseTrun, ParseTfra, BoxParser.FetchTrack, Valid;
      NeverRefused(io.data, io.pos, io.pos + size, code, State());
      if code == TREX {
        r := ReadTrex(io.pos + size);
      } else if code == TFHD {
        r := ReadTfhd(io.pos + size);
      } else if code == TFDT {
        r := ReadTfdt(io.pos + size);
      } else if code == TFRA {
        r := ReadTfra(io.pos + size);
      } else {
        r := ReadTrun(io.pos + size);
      }
    }

    /** Only a tfhd and a tfra are refused. */
    lemma NeverRefused(d: seq<byte>, p: nat, q: nat, code: uint32, st: Reading)
      ensures ParseTable(d, p, q, code, st) != Refused
      ensures ParseTrex(d, p, q, st) != Refused && ParseTfdt(d, p, q, st) != Refused && ParseTrun(d, p, q, st) != Refused
    {
      hide ParseCounted, ParseStsz, ParseStsc, ParseRuns, Entries;
    }

    lemma OtherLeaf(d: seq<byte>, p: nat, q: nat, code: uint32, parent: Kind, st: Reading)
      requires !(code == TKHD && (parent == Trak || parent == Root))
      requires !(code == ELST && (parent == Edts || parent == Root))
      requires !(IsFragmentLeaf(code) && (parent == Home(code) || parent == Root))
      requires !(IsTable(code) && (parent == Stbl || parent == Root))
      ensures ParseLeaf(d, p, q, code, parent, st) == Read(st)
    {
    }

    // ---- Boxes in boxes ----

    /** mov_read_trak after its boxes: the apply passes assert what is checked here. */
    method ApplyTrack() returns (r: int)
      requires Valid()
      modifies tracks
      ensures Valid()
      ensures ApplyTables(old(State())).Read? ==> r == 0 && State() == ApplyTables(old(State())).st
    {
      hide Consistent, Rebuild, Stream.V;
      if cur < 0 {
        return -1;
      }
      var t := tracks[cur];
      t.Shape();
      var clock := 0;
      if t.count > 0 {
        if t.applied || !Consistent(t.V()) {
          return -1;
        }
        t.Apply();
        t.Last();
        clock := t.samples[t.count - 1].dts;
      }
      t.SetClock(clock);
      OneChanged(cur);
      r := 0;
    }

    /** The box whose header has been read, up to somewhere in its body. */
    method ReadBox(parent: Kind, size: nat, code: uint32) returns (r: int)
      requires Valid() && io.error == 0
      modifies this, tracks, io`pos, io`error
      ensures Valid() && forall i :: 0 <= i < |tracks| ==> tracks[i] in old(tracks) || fresh(tracks[i])
      ensures var p := old(io.pos);
        p >= 8 && ParseBox(io.data, p, p + size, code, parent, old(State())).Read? ==>
          r == 0 && io.error == 0 && p <= io.pos <= p + size
          && State() == ParseBox(io.data, p, p + size, code, parent, old(State())).st
      ensures var p := old(io.pos);
        p >= 8 && ParseBox(io.data, p, p + size, code, parent, old(State())) == Refused ==> r != 0
      decreases size, 1
    {
      hide ParseLeaf, ParseBoxes, ApplyTables, Container, Stream.V, Stream.Valid;
      match Container(code, parent)
      case None =>
        r := ReadLeaf(parent, size, code);
      case Some(kind) =>
        NeverRoot(code, parent);
        if kind == Trak {
          cur := -1;
        } else if kind == Moof {
          moofOffset := U64(io.pos - 8);
          implicitOffset := moofOffset;
        }
        r := ReadBoxes(kind, size);
        if r == 0 && kind == Trak {
          ApplyNeverRefused(State());
          r := ApplyTrack();
        }
    }

    lemma ApplyNeverRefused(st: Reading)
      ensures ApplyTables(st) != Refused
    {
      hide Rebuild, Consistent;
    }

    lemma NeverRoot(code: uint32, parent: Kind)
      ensures Container(code, parent) != Some(Root)
    {
    }

    /** mov_reader_box: the boxes of a parent with a body of `size` bytes. At top level the walk may end
        on a read behind the last box. */
    method ReadBoxes(parent: Kind, size: nat) returns (r: int)
      requires Valid() && io.error == 0
      modifies this, tracks, io`pos, io`error
      ensures Valid() && forall i :: 0 <= i < |tracks| ==> tracks[i] in old(tracks) || fresh(tracks[i])
      ensures var p := old(io.pos);
        ParseBoxes(io.data, p, p + size, parent, old(State())).Read? ==>
          r == 0 && (parent != Root ==> io.error == 0 && p <= io.pos <= p + size)
          && State() == ParseBoxes(io.data, p, p + size, parent, old(State())).st
      ensures var p := old(io.pos);
        ParseBoxes(io.data, p, p + size, parent, old(State())) == Refused ==> r != 0
      decreases size, 0
    {
      hide ParseBoxes, ParseBox, Get32, Get64, Stream.V, Stream.Valid, State, Valid;
      ghost var d, p0, end := io.data, io.pos, io.pos + size;
      ghost var goal := ParseBoxes(d, p0, end, parent, State());
      var bytes: nat := 0;
      while bytes + 8 < size && io.error == 0
        invariant bytes <= size && Valid()
        invariant forall i :: 0 <= i < |tracks| ==> tracks[i] in old(tracks) || fresh(tracks[i])
        invariant goal != Malformed ==> io.error == 0 && io.pos == p0 + bytes
        invariant goal != Malformed ==> ParseBoxes(d, p0 + bytes, end, parent, State()) == goal
        decreases size - bytes
      {
        ghost var p, st := p0 + bytes, State();
        if goal != Malformed {
          Step(d, p, end, parent, st);
        }
        var boxSize, n, code := ReadHeader(io, end);
        if boxSize == 0 {
          return if code == 0 then 0 else -1;
        }
        bytes := bytes + boxSize;
        if boxSize < n || bytes > size || io.error != 0 {
          return -1;
        }
        var pos := io.Tell();
        r := ReadBox(parent, boxSize - n, code);
        if r != 0 {
          return;
        }
        var pos2 := io.Tell();
        if pos2 < pos || pos2 - pos > boxSize - n {
          return -1;
        }
        io.Skip(boxSize - n - (pos2 - pos));
      }
      if goal != Malformed {
        Finished(d, p0 + bytes, end, parent, State());
      }
      r := if io.error != 0 then -1 else 0;
    }

    /** One step of a walk: the end of the file, or a box and, unless that is refused, the rest. */
    lemma Step(d: seq<byte>, p: nat, end: nat, parent: Kind, st: Reading)
      requires p + 8 < end && ParseBoxes(d, p, end, parent, st) != Malformed
      ensures p + 8 > |d| ==> p == |d| && parent == Root && ParseBoxes(d, p, end, parent, st) == Read(st)
      ensures p + 8 <= |d| ==> BoxExtent(d, p, end).Some?
      ensures p + 8 <= |d| ==>
        var (size, n) := BoxExtent(d, p, end).value;
        var o := ParseBox(d, p + n, p + size, Get32(d, p + 4), parent, st);
        8 <= n <= size && p + size <= end && o != Malformed
        && (o.Read? ==> ParseBoxes(d, p + size, end, parent, o.st) == ParseBoxes(d, p, end, parent, st))
        && (o.Refused? ==> ParseBoxes(d, p, end, parent, st) == Refused)
    {
      hide ParseBox, Get32, Get64;
    }

    lemma Finished(d: seq<byte>, p: nat, end: nat, parent: Kind, st: Reading)
      requires !(p + 8 < end)
      ensures ParseBoxes(d, p, end, parent, st) == Read(st)
    {
    }

    /** mov_reader_root: the whole file, from the start. */
    method ReadFile() returns (r: int)
      requires State() == START && Valid() && io.error == 0 && io.pos == 0
      modifies this, tracks, io`pos, io`error
      ensures Valid() && forall i :: 0 <= i < |tracks| ==> tracks[i] in old(tracks) || fresh(tracks[i])
      ensures ParseFile(io.data).Some? ==> r == 0 && Views(tracks) == ParseFile(io.data).value
      ensures ReadingOf(io.data) == Refused ==> r != 0
    {
      hide ParseBoxes, Stream.V, Stream.Valid;
      r := ReadBoxes(Root, UINT64_MAX);
    }

    // ---- Reading samples ----

    /** mov_reader_read2 for the track whose turn it is: its next sample. */
    method ReadSample(t: Stream) returns (r: int, m: Media, bs: seq<byte>)
      requires t.Valid() && t.next < t.count
      modifies t`next, io`pos, io`error
      ensures m == t.samples[old(t.next)]
      ensures m.offset + m.bytes <= |io.data| ==>
        r == 1 && t.next == old(t.next) + 1 && io.error == 0
        && bs == io.data[m.offset..m.offset + m.bytes]
      ensures m.offset + m.bytes > |io.data| ==> r != 1 && t.next == old(t.next)
    {
      m := t.samples[t.next];
      io.Seek(m.offset);
      bs := io.Read(m.bytes);
      if io.error != 0 {
        return -1, m, bs;
      }
      t.next := t.next + 1;
      r := 1;
    }
  }
}
