/** What is read from a written fragment, next to what was queued. */
module FragmentRead {
  import opened Bytes
  import opened SampleTables
  import opened Timing
  import opened TrackBoxes
  import opened Options
  import opened BoxParser
  import opened ReadTables
  import opened FragmentBoxes
  import opened ReadBack

  // ---- What a reader makes of the fragment of one track ----

  /** The data offset of trun is a signed 32-bit number behind the start of moof. */
  function DataOffset(v: TrackF, base: nat, moof: nat): uint64
    requires v.ms != []
  {
    U64(U64(base) + S32(U32(moof + v.ms[0].offset)))
  }

  function ReadCts(m: Media): int { S32(U32(m.pts - m.dts)) }

  /** Sample `j` as it is read: `base` is the place of moof, `moof` the parameter of the second pass. */
  function ReadSample(v: TrackF, base: nat, moof: nat, j: nat): Media
    requires j < |v.ms|
  {
    var dts := S64(BaseDecodeTime(v)) + Elapsed(v, j);
    Media(if j == 0 || v.handler == Audio then KEYFRAME else 0, dts + ReadCts(v.ms[j]), dts,
          U64(DataOffset(v, base, moof) + Sum(Sizes(v.ms[..j]))), v.ms[j].bytes, 1)
  }

  function ReadSamples(v: TrackF, base: nat, moof: nat, n: nat): (r: seq<Media>)
    requires n <= |v.ms|
    ensures |r| == n
  {
    seq(n, j requires 0 <= j < n => ReadSample(v, base, moof, j))
  }

  // ---- Single boxes ----

  lemma HasTfhd()
    ensures !Has(TFHD_FLAGS, TFHD_BASE_DATA_OFFSET) && Has(TFHD_FLAGS, TFHD_DEFAULT_BASE_IS_MOOF)
    ensures Has(TFHD_FLAGS, TFHD_SAMPLE_DESCRIPTION_INDEX) && Has(TFHD_FLAGS, TFHD_DEFAULT_DURATION)
    ensures Has(TFHD_FLAGS, TFHD_DEFAULT_SIZE) && Has(TFHD_FLAGS, TFHD_DEFAULT_FLAGS)
  {
  }

  lemma HasTrun(c: Choice)
    ensures var f := c.Flags();
      && Has(f, TRUN_DATA_OFFSET) && (Has(f, TRUN_FIRST_SAMPLE_FLAGS) <==> c.first)
      && (Has(f, TRUN_DURATION) <==> c.durations) && (Has(f, TRUN_SIZE) <==> c.sizes)
      && !Has(f, TRUN_FLAGS) && (Has(f, TRUN_CTS) <==> c.cts)
  {
  }

  lemma FirstByteAt(d: seq<byte>, p: nat, b: byte)
    requires At(d, p, [b])
    ensures p < |d| && d[p] == b
  {
    assert d[p] == d[p..p + 1][0];
  }

  /** Version, flags and the body of a full box. */
  lemma FullAt(d: seq<byte>, p: nat, v: byte, f: uint24, body: seq<byte>)
    requires At(d, p, [v] + BE24(f) + body)
    ensures p + 4 + |body| <= |d| && d[p] == v && Get24(d, p + 1) == f && At(d, p + 4, body)
  {
    hide BE24, Get24;
    AtConcat(d, p, [v] + BE24(f), body);
    AtConcat(d, p, [v], BE24(f));
    FirstByteAt(d, p, v);
    Get24Of(d, p + 1, f);
  }

  function DefaultsOf(v: TrackF): Defaults
    requires v.ms != []
  {
    Defaults(1, Duration(v, 0), v.ms[0].bytes, DefaultFlags(v.handler))
  }

  lemma TfhdFields(d: seq<byte>, p: nat, a: uint32, b: uint32, c: uint32, e: uint32, g: uint32)
    requires At(d, p, BE32(a) + BE32(b) + BE32(c) + BE32(e) + BE32(g))
    ensures p + 20 <= |d| && Get32(d, p) == a && Get32(d, p + 4) == b && Get32(d, p + 8) == c
    ensures Get32(d, p + 12) == e && Get32(d, p + 16) == g
  {
    hide BE32, Get32;
    AtConcat(d, p, BE32(a) + BE32(b) + BE32(c) + BE32(e), BE32(g));
    AtConcat(d, p, BE32(a) + BE32(b) + BE32(c), BE32(e));
    AtConcat(d, p, BE32(a) + BE32(b), BE32(c));
    AtConcat(d, p, BE32(a), BE32(b));
    Get32Of(d, p, a);
    Get32Of(d, p + 4, b);
    Get32Of(d, p + 8, c);
    Get32Of(d, p + 12, e);
    Get32Of(d, p + 16, g);
  }

  lemma TfhdRead(d: seq<byte>, p: nat, st: Reading, v: TrackF, i: nat)
    requires v.ms != [] && i < |st.tracks| && FindTrack(st.tracks, v.id) == i
    requires At(d, p, [0] + BE24(TFHD_FLAGS)
                      + (BE32(v.id) + BE32(1) + BE32(Duration(v, 0)) + BE32(v.ms[0].bytes) + BE32(DefaultFlags(v.handler))))
    ensures ParseTfhd(d, p, p + 24, st)
         == Read(st.(cur := i, tracks := st.tracks[i := st.tracks[i].(tfhd := Tfhd(TFHD_FLAGS, st.moof, DefaultsOf(v)))]))
  {
    hide BE24, BE32, Get24, Get32, Get64, Duration, DefaultFlags, Has;
    HasTfhd();
    FullAt(d, p, 0, TFHD_FLAGS,
           BE32(v.id) + BE32(1) + BE32(Duration(v, 0)) + BE32(v.ms[0].bytes) + BE32(DefaultFlags(v.handler)));
    TfhdFields(d, p + 4, v.id, 1, Duration(v, 0), v.ms[0].bytes, DefaultFlags(v.handler));
  }

  /** The base decode time comes back from either version, for every base that fits 63 bits. */
  lemma TfdtRead(d: seq<byte>, p: nat, q: nat, st: Reading, v: TrackF)
    requires v.ms != [] && st.HasTrack() && q == p + |TfdtBox(v)|
    requires At(d, p, TfdtBox(v))
    ensures ParseTfdt(d, p + 8, q, st)
         == Read(st.With(st.Track().(clock := S64(BaseDecodeTime(v)) + EmptyEdits(st.Track().elst))))
    ensures Get32(d, p) == |TfdtBox(v)| && Get32(d, p + 4) == FourCC("tfdt")
  {
    hide BE24, BE32, BE64, Get24, Get32, Get64, EmptyEdits, FourCC, Tag, Box, TfdtBox, At, BaseDecodeTime;
    var b := BaseDecodeTime(v);
    TfdtForms(v);
    if b > INT32_MAX {
      BoxHeader(d, p, "tfdt", [1] + BE24(0) + BE64(b));
      LargeTime(d, p + 8, b);
    } else {
      BoxHeader(d, p, "tfdt", [0] + BE24(0) + BE32(b));
      SmallTime(d, p + 8, b);
    }
  }

  lemma TfdtForms(v: TrackF)
    requires v.ms != []
    ensures var b := BaseDecodeTime(v);
      if b > INT32_MAX then TfdtBox(v) == Box("tfdt", [1] + BE24(0) + BE64(b)) else TfdtBox(v) == Box("tfdt", [0] + BE24(0) + BE32(b))
  {
    hide BE24, BE32, BE64, Box;
  }

  lemma LargeTime(d: seq<byte>, p: nat, b: uint64)
    requires At(d, p, [1] + BE24(0) + BE64(b))
    ensures p + 12 <= |d| && d[p] == 1 && Get64(d, p + 4) == b
  {
    hide BE24, BE64, Get64;
    FullAt(d, p, 1, 0, BE64(b));
    Get64Of(d, p + 4, b);
  }

  lemma SmallTime(d: seq<byte>, p: nat, b: uint32)
    requires At(d, p, [0] + BE24(0) + BE32(b))
    ensures p + 8 <= |d| && d[p] == 0 && Get32(d, p + 4) == b
  {
    hide BE24, BE32, Get32;
    FullAt(d, p, 0, 0, BE32(b));
    Get32Of(d, p + 4, b);
  }

  // ---- trun ----

  /** The head a reader works with while it goes over the samples of a track. */
  function HeadFor(v: TrackF, base: uint64): RunHead
    requires v.ms != []
  {
    var c := ChoiceOf(v, 0, |v.ms|);
    RunHead(1, c.Flags(), Tfhd(TFHD_FLAGS, base, DefaultsOf(v)),
            if IsKey(v.ms[0]) then DEPENDS_ON_I_PICTURE else TFHD_FLAGS)
  }

  lemma KeysOf(v: TrackF, base: uint64, j: nat)
    requires j < |v.ms|
    ensures KeyOf(if j == 0 then HeadFor(v, base).first else DefaultFlags(v.handler))
         == if j == 0 || v.handler == Audio then KEYFRAME else 0
  {
    hide ChoiceOf;
  }

  /** A field that is left out has its default. */
  lemma LeftOut(v: TrackF, j: nat)
    requires j < |v.ms|
    ensures var c := ChoiceOf(v, 0, |v.ms|);
      && (!c.durations ==> Duration(v, j) == Duration(v, 0))
      && (!c.sizes ==> v.ms[j].bytes == v.ms[0].bytes)
      && (!c.cts ==> v.ms[j].pts == v.ms[j].dts)
  {
    hide Duration;
  }

  /** The fields of an entry, each where the ones before it leave off. */
  lemma EntryFields(d: seq<byte>, e: nat, v: TrackF, j: nat, c: Choice)
    requires j < |v.ms| && At(d, e, TrunEntry(v, j, c))
    ensures var b := e + (if c.durations then 4 else 0);
      var g := b + (if c.sizes then 4 else 0);
      && e + c.EntrySize() <= |d|
      && (c.durations ==> Get32(d, e) == Duration(v, j))
      && (c.sizes ==> Get32(d, b) == v.ms[j].bytes)
      && (c.cts ==> Get32(d, g) == U32(v.ms[j].pts - v.ms[j].dts))
  {
    hide BE32, Get32, Duration;
    var x := if c.durations then BE32(Duration(v, j)) else [];
    var y := if c.sizes then BE32(v.ms[j].bytes) else [];
    var z := if c.cts then BE32(U32(v.ms[j].pts - v.ms[j].dts)) else [];
    AtConcat(d, e, x + y, z);
    AtConcat(d, e, x, y);
    if c.durations {
      Get32Of(d, e, Duration(v, j));
    }
    if c.sizes {
      Get32Of(d, e + |x|, v.ms[j].bytes);
    }
    if c.cts {
      Get32Of(d, e + |x| + |y|, U32(v.ms[j].pts - v.ms[j].dts));
    }
  }

  lemma EntrySizes(v: TrackF, base: uint64)
    requires v.ms != []
    ensures HeadFor(v, base).EntrySize() == ChoiceOf(v, 0, |v.ms|).EntrySize()
  {
    hide ChoiceOf, Has;
    HasTrun(ChoiceOf(v, 0, |v.ms|));
  }

  lemma EntryRead(d: seq<byte>, e: nat, v: TrackF, base: uint64, j: nat, r: Progress)
    requires j < |v.ms| && At(d, e, TrunEntry(v, j, ChoiceOf(v, 0, |v.ms|)))
    requires e + HeadFor(v, base).EntrySize() <= |d|
    ensures AddEntry(d, e, HeadFor(v, base), j == 0, r)
         == Progress(r.samples + [Media(if j == 0 || v.handler == Audio then KEYFRAME else 0,
                                        r.dts + ReadCts(v.ms[j]), r.dts, r.offset, v.ms[j].bytes, 1)],
                     U64(r.offset + v.ms[j].bytes), r.dts + Duration(v, j))
  {
    hide Get32, Duration, ChoiceOf, Has, KeyOf, TrunEntry, DefaultFlags;
    var c, h := ChoiceOf(v, 0, |v.ms|), HeadFor(v, base);
    HasTrun(c);
    LeftOut(v, j);
    EntryFields(d, e, v, j, c);
    KeysOf(v, base, j);
    var b := e + Width(h.flags, TRUN_DURATION, 4);
    var g := b + Width(h.flags, TRUN_SIZE, 4);
    assert Field(d, e, h.flags, TRUN_DURATION, h.tfhd.defs.duration) == Duration(v, j);
    assert Field(d, b, h.flags, TRUN_SIZE, h.tfhd.defs.size) == v.ms[j].bytes;
    assert S32(Field(d, g, h.flags, TRUN_CTS, 0)) == ReadCts(v.ms[j]);
  }

  lemma U64Sum(a: int, b: int)
    ensures U64(U64(a) + b) == U64(a + b)
  {
  }

  /** What has been read after `n` entries. */
  function After(v: TrackF, base: nat, moof: nat, n: nat): Progress
    requires v.ms != [] && n <= |v.ms|
  {
    Progress(ReadSamples(v, base, moof, n), U64(DataOffset(v, base, moof) + Sum(Sizes(v.ms[..n]))),
             S64(BaseDecodeTime(v)) + Elapsed(v, n))
  }

  lemma AfterNone(v: TrackF, base: nat, moof: nat)
    requires v.ms != []
    ensures After(v, base, moof, 0) == Progress([], DataOffset(v, base, moof), S64(BaseDecodeTime(v)))
  {
    hide DataOffset, BaseDecodeTime;
    NoSizes();
    assert v.ms[..0] == [];
  }

  lemma AfterNext(d: seq<byte>, e: nat, v: TrackF, base: nat, moof: nat, k: nat)
    requires k < |v.ms| && At(d, e, TrunEntry(v, k, ChoiceOf(v, 0, |v.ms|)))
    requires e + HeadFor(v, U64(base)).EntrySize() <= |d|
    ensures AddEntry(d, e, HeadFor(v, U64(base)), k == 0, After(v, base, moof, k)) == After(v, base, moof, k + 1)
  {
    hide TrunEntry, ChoiceOf, Duration, AddEntry, Sum, Sizes, RunHead.EntrySize, DataOffset, BaseDecodeTime;
    EntryRead(d, e, v, U64(base), k, After(v, base, moof, k));
    SizesNext(v.ms, k);
    U64Sum(DataOffset(v, base, moof) + Sum(Sizes(v.ms[..k])), v.ms[k].bytes);
    assert ReadSamples(v, base, moof, k + 1) == ReadSamples(v, base, moof, k) + [ReadSample(v, base, moof, k)];
  }

  lemma EntriesNext(d: seq<byte>, e: nat, n: nat, h: RunHead, r: Progress)
    requires n > 0 && e + n * h.EntrySize() <= |d|
    ensures e + (n - 1) * h.EntrySize() + h.EntrySize() == e + n * h.EntrySize()
    ensures Entries(d, e, n, h, r)
         == AddEntry(d, e + (n - 1) * h.EntrySize(), h, n == 1, Entries(d, e, n - 1, h, r))
  {
    hide AddEntry, RunHead.EntrySize;
    Mul(n, h.EntrySize());
  }

  /** The first `n` entries give the first `n` samples. */
  lemma {:induction false} EntriesRead(d: seq<byte>, e: nat, v: TrackF, base: nat, moof: nat, n: nat)
    requires n <= |v.ms| && v.ms != [] && At(d, e, TrunEntries(v, 0, n, ChoiceOf(v, 0, |v.ms|)))
    ensures e + n * HeadFor(v, U64(base)).EntrySize() <= |d|
    ensures Entries(d, e, n, HeadFor(v, U64(base)), Progress([], DataOffset(v, base, moof), S64(BaseDecodeTime(v))))
         == After(v, base, moof, n)
    decreases n
  {
    hide TrunEntry, ChoiceOf, AddEntry, RunHead.EntrySize, Choice.EntrySize, DataOffset, BaseDecodeTime, After, HeadFor, At;
    var c, h := ChoiceOf(v, 0, |v.ms|), HeadFor(v, U64(base));
    EntrySizes(v, U64(base));
    if n == 0 {
      AfterNone(v, base, moof);
      EntriesStart(d, e);
    } else {
      var k := n - 1;
      AtConcat(d, e, TrunEntries(v, 0, k, c), TrunEntry(v, k, c));
      TrunEntriesLength(v, 0, k, c);
      EntriesRead(d, e, v, base, moof, k);
      Mul(n, h.EntrySize());
      EntryWithin(d, e + k * h.EntrySize(), v, k, c);
      EntriesNext(d, e, n, h, Progress([], DataOffset(v, base, moof), S64(BaseDecodeTime(v))));
      AfterNext(d, e + k * h.EntrySize(), v, base, moof, k);
    }
  }

  lemma EntriesStart(d: seq<byte>, e: nat)
    requires At(d, e, [])
    ensures e <= |d|
  {
  }

  lemma EntryWithin(d: seq<byte>, e: nat, v: TrackF, j: nat, c: Choice)
    requires j < |v.ms| && At(d, e, TrunEntry(v, j, c))
    ensures e + c.EntrySize() <= |d|
  {
  }

  lemma Mul(n: nat, k: nat)
    requires n > 0
    ensures n * k == (n - 1) * k + k && (n - 1) * k >= 0
  {
  }

  lemma NoSizes()
    ensures Sum(Sizes([])) == 0
  {
  }

  lemma SizesNext(ms: seq<Media>, i: nat)
    requires i < |ms|
    ensures Sum(Sizes(ms[..i + 1])) == Sum(Sizes(ms[..i])) + ms[i].bytes
  {
    assert Sizes(ms[..i + 1])[..i] == Sizes(ms[..i]);
  }

  /** The sample tables have been applied: there are as many samples as sizes. */
  predicate Filled(t: Tables) { |t.samples| == |t.sizes| }

  /** A track behind its fragment. */
  function Absorb(t: Tables, v: TrackF, base: nat, moof: nat): Tables {
    if v.ms == [] then t else
      t.(tfhd := Tfhd(TFHD_FLAGS, U64(base), DefaultsOf(v)), clock := S64(BaseDecodeTime(v)) + Elapsed(v, |v.ms|),
         samples := t.samples + ReadSamples(v, base, moof, |v.ms|),
         sizes := t.sizes + Sizes(ReadSamples(v, base, moof, |v.ms|)))
  }

  lemma TrunHeadRead(d: seq<byte>, p: nat, v: TrackF, moof: nat, rest: seq<byte>)
    requires v.ms != [] && |v.ms| <= UINT32_MAX && At(d, p, TrunHead(v, 0, |v.ms|, moof) + rest)
    ensures var k := if IsKey(v.ms[0]) then 12 else 8;
      && p + k <= |d| && At(d, p + k, rest) && |TrunHead(v, 0, |v.ms|, moof)| == k
      && Get32(d, p) == |v.ms| && Get32(d, p + 4) == U32(moof + v.ms[0].offset)
      && (IsKey(v.ms[0]) ==> Get32(d, p + 8) == DEPENDS_ON_I_PICTURE)
  {
    hide BE32, Get32;
    var a, b := BE32(U32(|v.ms|)), BE32(U32(moof + v.ms[0].offset));
    var c := if IsKey(v.ms[0]) then BE32(DEPENDS_ON_I_PICTURE) else [];
    AtConcat(d, p, a + b + c, rest);
    AtConcat(d, p, a + b, c);
    AtConcat(d, p, a, b);
    Get32Of(d, p, |v.ms|);
    Get32Of(d, p + 4, U32(moof + v.ms[0].offset));
    if IsKey(v.ms[0]) {
      Get32Of(d, p + 8, DEPENDS_ON_I_PICTURE);
    }
  }

  /** A run is read back sample by sample. */
  lemma TrunRead(d: seq<byte>, p: nat, st: Reading, v: TrackF, base: nat, moof: nat, body: seq<byte>)
    returns (implicit: uint64)
    requires v.ms != [] && |v.ms| <= UINT32_MAX && st.HasTrack() && Filled(st.Track())
    requires st.Track().tfhd == Tfhd(TFHD_FLAGS, U64(base), DefaultsOf(v)) && st.Track().clock == S64(BaseDecodeTime(v))
    requires var c := ChoiceOf(v, 0, |v.ms|);
      body == [1] + BE24(c.Flags()) + (TrunHead(v, 0, |v.ms|, moof) + TrunEntries(v, 0, |v.ms|, c))
    requires At(d, p, body)
    ensures ParseTrun(d, p, p + |body|, st)
         == Read(st.With(Absorb(st.Track(), v, base, moof)).(implicit := implicit))
  {
    hide BE24, Get24, Get32, ChoiceOf, Has, TrunHead, TrunEntries, Entries, Duration, BaseDecodeTime, ReadSamples, Elapsed,
         Sum, Sizes, Choice.EntrySize, RunHead.EntrySize, Choice.Flags;
    var c, n := ChoiceOf(v, 0, |v.ms|), |v.ms|;
    var head, entries := TrunHead(v, 0, n, moof), TrunEntries(v, 0, n, c);
    FullAt(d, p, 1, c.Flags(), head + entries);
    TrunHeadRead(d, p + 4, v, moof, entries);
    HasTrun(c);
    FirstOf(v);
    EntriesRead(d, p + 4 + |head|, v, base, moof, n);
    EntrySizes(v, U64(base));
    TrunEntriesLength(v, 0, n, c);
    assert TrunFront(c.Flags()) == 4 + |head|;
    assert HeadOf(d, p, st.Track().tfhd) == HeadFor(v, U64(base));
    implicit := U64(DataOffset(v, base, moof) + Sum(Sizes(v.ms[..n])));
  }

  lemma FirstOf(v: TrackF)
    requires v.ms != []
    ensures ChoiceOf(v, 0, |v.ms|).first == IsKey(v.ms[0])
  {
  }

  // ---- The walk ----

  lemma FragCodes()
    ensures FourCC("moof") == MOOF && FourCC("traf") == TRAF && FourCC("tfhd") == TFHD
    ensures FourCC("tfdt") == TFDT && FourCC("trun") == TRUN
  {
  }

  /** The tracks of a reader as the writers here number them, without edit lists. */
  ghost predicate Numbered(ts: seq<Tables>) {
    forall i :: 0 <= i < |ts| ==> ts[i].id == i + 1 && EmptyEdits(ts[i].elst) == 0 && Filled(ts[i])
  }

  /** The first tracks of a writer. */
  ghost predicate FirstTracks(vs: seq<TrackF>) {
    forall i :: 0 <= i < |vs| ==> vs[i].id == i + 1
  }

  /** Every track that has samples has been announced. */
  predicate Knows(ts: seq<Tables>, vs: seq<TrackF>) {
    forall i :: |ts| <= i < |vs| ==> vs[i].ms == []
  }

  lemma FoundAt(ts: seq<Tables>, id: uint32)
    requires Numbered(ts) && id > 0
    ensures FindTrack(ts, id) == if id <= |ts| then id - 1 else -1
  {
    hide EmptyEdits, FindTrack;
    var i := FindTrack(ts, id);
    if id <= |ts| {
      assert ts[id - 1].id == id;
    }
  }

  /** tfhd, tfdt and trun of one track. */
  lemma TrafBodyRead(d: seq<byte>, p: nat, st: Reading, v: TrackF, i: nat, base: nat, moof: nat)
    returns (implicit: uint64)
    requires v.ms != [] && |v.ms| <= UINT32_MAX && i < |st.tracks| && FindTrack(st.tracks, v.id) == i
    requires EmptyEdits(st.tracks[i].elst) == 0 && Filled(st.tracks[i]) && st.moof == U64(base)
    requires Truns(v, moof) == TrunBox(v, 0, |v.ms|, moof) && |TrafBody(v, moof)| <= UINT32_MAX
    requires At(d, p, TrafBody(v, moof))
    ensures ParseBoxes(d, p, p + |TrafBody(v, moof)|, Traf, st)
         == Read(Reading(st.tracks[i := Absorb(st.tracks[i], v, base, moof)], i, st.moof, implicit))
  {
    hide ParseBoxes, At, FourCC, Box, BE24, BE32, ChoiceOf, TrunHead, TrunEntries, Duration, DefaultFlags, Choice.Flags,
         ReadSamples, BaseDecodeTime, EmptyEdits, Truns, FindTrack, ParseTfhd, ParseTfdt, ParseTrun, TfdtBox, DefaultsOf,
         Elapsed;
    var b1, b2, b3 := TfhdBox(v), TfdtBox(v), TrunBox(v, 0, |v.ms|, moof);
    var end := p + |b1 + b2 + b3|;
    AtConcat(d, p, b1 + b2, b3);
    AtConcat(d, p, b1, b2);
    FragCodes();
    var fields := BE32(v.id) + BE32(1) + BE32(Duration(v, 0)) + BE32(v.ms[0].bytes) + BE32(DefaultFlags(v.handler));
    BoxStep(d, p, end, Traf, st, "tfhd", [0] + BE24(TFHD_FLAGS) + fields);
    TfhdRead(d, p + 8, st, v, i);
    var t1 := st.tracks[i].(tfhd := Tfhd(TFHD_FLAGS, st.moof, DefaultsOf(v)));
    var st1 := st.(cur := i, tracks := st.tracks[i := t1]);
    var t2 := t1.(clock := S64(BaseDecodeTime(v)));
    var st2 := st1.(tracks := st.tracks[i := t2]);
    TfdtStep(d, p + 32, end, st1, v);
    assert st1.With(t2) == st2;
    var c := ChoiceOf(v, 0, |v.ms|);
    var body := [1] + BE24(c.Flags()) + (TrunHead(v, 0, |v.ms|, moof) + TrunEntries(v, 0, |v.ms|, c));
    BoxStep(d, p + 32 + |b2|, end, Traf, st2, "trun", body);
    implicit := TrunRead(d, p + 40 + |b2|, st2, v, base, moof, body);
    var st3 := st2.With(Absorb(t2, v, base, moof)).(implicit := implicit);
    Done(d, end, Traf, st3);
    assert st3.tracks == st.tracks[i := Absorb(st.tracks[i], v, base, moof)];
  }

  lemma TfdtStep(d: seq<byte>, p: nat, end: nat, st: Reading, v: TrackF)
    requires v.ms != [] && st.HasTrack() && EmptyEdits(st.Track().elst) == 0
    requires At(d, p, TfdtBox(v)) && p + |TfdtBox(v)| <= end
    ensures ParseBoxes(d, p, end, Traf, st)
         == ParseBoxes(d, p + |TfdtBox(v)|, end, Traf, st.With(st.Track().(clock := S64(BaseDecodeTime(v)))))
  {
    hide ParseBoxes, At, FourCC, Box, BE24, BE32, BE64, BaseDecodeTime, EmptyEdits, ParseTfdt;
    FragCodes();
    var b := BaseDecodeTime(v);
    var body := if b > INT32_MAX then [1] + BE24(0) + BE64(b) else [0] + BE24(0) + BE32(b);
    assert TfdtBox(v) == Box("tfdt", body) by { TfdtIs(v); }
    BoxStep(d, p, end, Traf, st, "tfdt", body);
    TfdtRead(d, p, p + |TfdtBox(v)|, st, v);
  }

  lemma TfdtIs(v: TrackF)
    requires v.ms != []
    ensures var b := BaseDecodeTime(v);
      TfdtBox(v) == Box("tfdt", if b > INT32_MAX then [1] + BE24(0) + BE64(b) else [0] + BE24(0) + BE32(b))
  {
    hide BE32, BE64, BE24, Tag;
  }

  function AbsorbAll(ts: seq<Tables>, vs: seq<TrackF>, base: nat, moof: nat): (r: seq<Tables>)
    ensures |r| == |ts|
  {
    seq(|ts|, i requires 0 <= i < |ts| => if i < |vs| then Absorb(ts[i], vs[i], base, moof) else ts[i])
  }

  /** Samples laid out, and not too many. */
  ghost predicate SingleRuns(vs: seq<TrackF>, moof: nat) {
    forall i :: 0 <= i < |vs| && vs[i].ms != [] ==>
      |vs[i].ms| <= UINT32_MAX && Truns(vs[i], moof) == TrunBox(vs[i], 0, |vs[i].ms|, moof)
  }

  lemma AbsorbKeeps(ts: seq<Tables>, vs: seq<TrackF>, base: nat, moof: nat)
    requires Numbered(ts)
    ensures Numbered(AbsorbAll(ts, vs, base, moof))
  {
    hide DefaultsOf, ReadSamples, Elapsed, EmptyEdits;
  }

  lemma AbsorbSnoc(ts: seq<Tables>, vs: seq<TrackF>, base: nat, moof: nat)
    requires vs != [] && Knows(ts, vs)
    ensures var n := |vs| - 1;
      var us := AbsorbAll(ts, vs[..n], base, moof);
      AbsorbAll(ts, vs, base, moof) == if vs[n].ms == [] then us else us[n := Absorb(us[n], vs[n], base, moof)]
  {
    var n := |vs| - 1;
    if vs[n].ms == [] && n < |ts| {
      Unmoved(ts[n], vs[n], base, moof);
    }
    hide Absorb;
    var us := AbsorbAll(ts, vs[..n], base, moof);
    assert n < |ts| ==> us[n] == ts[n];
  }

  lemma AbsorbNone(ts: seq<Tables>, base: nat, moof: nat)
    ensures AbsorbAll(ts, [], base, moof) == ts
  {
    hide Absorb;
  }

  lemma TrafStep(d: seq<byte>, p: nat, end: nat, st: Reading, v: TrackF, i: nat, base: nat, moof: nat)
    returns (implicit: uint64)
    requires v.ms != [] && |v.ms| <= UINT32_MAX && i < |st.tracks| && FindTrack(st.tracks, v.id) == i
    requires EmptyEdits(st.tracks[i].elst) == 0 && Filled(st.tracks[i]) && st.moof == U64(base)
    requires Truns(v, moof) == TrunBox(v, 0, |v.ms|, moof) && |TrafBox(v, moof)| <= UINT32_MAX
    requires At(d, p, TrafBox(v, moof)) && p + |TrafBox(v, moof)| <= end
    ensures ParseBoxes(d, p, end, Moof, st)
         == ParseBoxes(d, p + |TrafBox(v, moof)|, end, Moof,
                           Reading(st.tracks[i := Absorb(st.tracks[i], v, base, moof)], i, st.moof, implicit))
  {
    hide ParseBoxes, At, FourCC, Box, Truns, TrunBox, FindTrack, EmptyEdits, Absorb, TrafBody;
    FragCodes();
    SomeTraf(v, moof);
    BoxStep(d, p, end, Moof, st, "traf", TrafBody(v, moof));
    implicit := TrafBodyRead(d, p + 8, st, v, i, base, moof);
  }

  lemma SomeTraf(v: TrackF, moof: nat)
    requires v.ms != []
    ensures |TrafBody(v, moof)| > 0
  {
    hide Truns;
  }

  lemma {:induction false} TrafsRead(d: seq<byte>, p: nat, end: nat, st: Reading, vs: seq<TrackF>, base: nat, moof: nat)
    returns (cur: int, implicit: uint64)
    requires Numbered(st.tracks) && FirstTracks(vs) && Knows(st.tracks, vs) && SingleRuns(vs, moof) && st.moof == U64(base)
    requires |Trafs(vs, moof)| <= UINT32_MAX
    requires At(d, p, Trafs(vs, moof)) && p + |Trafs(vs, moof)| <= end
    ensures ParseBoxes(d, p, end, Moof, st)
         == ParseBoxes(d, p + |Trafs(vs, moof)|, end, Moof,
                       Reading(AbsorbAll(st.tracks, vs, base, moof), cur, st.moof, implicit))
  {
    hide ParseBoxes, At, TrafBox, Truns, TrunBox, FindTrack, EmptyEdits, Absorb, AbsorbAll, Trafs, Numbered, SingleRuns;
    if vs == [] {
      cur, implicit := st.cur, st.implicit;
      AbsorbNone(st.tracks, base, moof);
      NoTrafs(moof);
    } else {
      var n := |vs| - 1;
      var v := vs[n];
      TrafsSplit(vs, moof);
      AtConcat(d, p, Trafs(vs[..n], moof), if v.ms == [] then [] else TrafBox(v, moof));
      RunsFront(vs, moof);
      cur, implicit := TrafsRead(d, p, end, st, vs[..n], base, moof);
      AbsorbSnoc(st.tracks, vs, base, moof);
      if v.ms != [] {
        var us := AbsorbAll(st.tracks, vs[..n], base, moof);
        AbsorbKeeps(st.tracks, vs[..n], base, moof);
        KnownAt(us, n);
        RunsAt(vs, moof, n);
        var st1 := Reading(us, cur, st.moof, implicit);
        implicit := TrafStep(d, p + |Trafs(vs[..n], moof)|, end, st1, v, n, base, moof);
        cur := n;
      }
    }
  }

  /** A fragment of a track that no moov has announced makes the reader give up. */
  lemma {:induction false} TrafsRefused(d: seq<byte>, p: nat, end: nat, st: Reading, vs: seq<TrackF>, base: nat, moof: nat)
    requires Numbered(st.tracks) && FirstTracks(vs) && !Knows(st.tracks, vs) && SingleRuns(vs, moof) && st.moof == U64(base)
    requires |Trafs(vs, moof)| <= UINT32_MAX
    requires At(d, p, Trafs(vs, moof)) && p + |Trafs(vs, moof)| <= end
    ensures ParseBoxes(d, p, end, Moof, st) == Refused
  {
    hide ParseBoxes, At, TrafBox, Truns, TrunBox, FindTrack, EmptyEdits, Absorb, AbsorbAll, Trafs, Numbered, SingleRuns;
    var n := |vs| - 1;
    var v := vs[n];
    TrafsSplit(vs, moof);
    AtConcat(d, p, Trafs(vs[..n], moof), if v.ms == [] then [] else TrafBox(v, moof));
    RunsFront(vs, moof);
    if Knows(st.tracks, vs[..n]) {
      var cur, implicit := TrafsRead(d, p, end, st, vs[..n], base, moof);
      var us := AbsorbAll(st.tracks, vs[..n], base, moof);
      AbsorbKeeps(st.tracks, vs[..n], base, moof);
      assert |us| <= n && v.ms != [];
      FoundAt(us, v.id);
      TrafRefused(d, p + |Trafs(vs[..n], moof)|, end, Reading(us, cur, st.moof, implicit), v, moof);
    } else {
      TrafsRefused(d, p, end, st, vs[..n], base, moof);
    }
  }

  lemma TrafRefused(d: seq<byte>, p: nat, end: nat, st: Reading, v: TrackF, moof: nat)
    requires v.ms != [] && FindTrack(st.tracks, v.id) < 0 && |TrafBox(v, moof)| <= UINT32_MAX
    requires At(d, p, TrafBox(v, moof)) && p + |TrafBox(v, moof)| <= end
    ensures ParseBoxes(d, p, end, Moof, st) == Refused
  {
    hide ParseBoxes, At, FourCC, Box, BE24, BE32, Truns, TrunBox, FindTrack, TfdtBox, Duration, DefaultFlags, ParseTfhd;
    FragCodes();
    SomeTraf(v, moof);
    BoxStep(d, p, end, Moof, st, "traf", TrafBody(v, moof));
    AtConcat(d, p + 8, TfhdBox(v) + TfdtBox(v), Truns(v, moof));
    AtConcat(d, p + 8, TfhdBox(v), TfdtBox(v));
    var fields := BE32(v.id) + BE32(1) + BE32(Duration(v, 0)) + BE32(v.ms[0].bytes) + BE32(DefaultFlags(v.handler));
    BoxStep(d, p + 8, p + 8 + |TrafBody(v, moof)|, Traf, st, "tfhd", [0] + BE24(TFHD_FLAGS) + fields);
    TfhdRefused(d, p + 16, st, v);
  }

  lemma TfhdRefused(d: seq<byte>, p: nat, st: Reading, v: TrackF)
    requires v.ms != [] && FindTrack(st.tracks, v.id) < 0
    requires At(d, p, [0] + BE24(TFHD_FLAGS)
                      + (BE32(v.id) + BE32(1) + BE32(Duration(v, 0)) + BE32(v.ms[0].bytes) + BE32(DefaultFlags(v.handler))))
    ensures ParseTfhd(d, p, p + 24, st) == Refused
  {
    hide Get24, Get32, BE24, BE32, FindTrack, Has;
    HasTfhd();
    FullAt(d, p, 0, TFHD_FLAGS, BE32(v.id) + BE32(1) + BE32(Duration(v, 0)) + BE32(v.ms[0].bytes)
                                + BE32(DefaultFlags(v.handler)));
    TfhdFields(d, p + 4, v.id, 1, Duration(v, 0), v.ms[0].bytes, DefaultFlags(v.handler));
  }

  lemma NoTrafs(moof: nat)
    ensures Trafs([], moof) == []
  {
  }

  lemma TrafsSplit(vs: seq<TrackF>, moof: nat)
    requires vs != []
    ensures var n := |vs| - 1;
      Trafs(vs, moof) == Trafs(vs[..n], moof) + (if vs[n].ms == [] then [] else TrafBox(vs[n], moof))
  {
    hide TrafBox;
  }

  lemma RunsFront(vs: seq<TrackF>, moof: nat)
    requires vs != [] && SingleRuns(vs, moof)
    ensures SingleRuns(vs[..|vs| - 1], moof)
  {
    hide Truns, TrunBox;
  }

  lemma Unmoved(t: Tables, v: TrackF, base: nat, moof: nat)
    requires v.ms == []
    ensures Absorb(t, v, base, moof) == t
  {
  }

  lemma KnownAt(ts: seq<Tables>, i: nat)
    requires Numbered(ts) && i < |ts|
    ensures ts[i].id == i + 1 && FindTrack(ts, ts[i].id) == i && EmptyEdits(ts[i].elst) == 0 && Filled(ts[i])
  {
    hide FindTrack, EmptyEdits;
    FoundAt(ts, ts[i].id);
  }

  lemma RunsAt(vs: seq<TrackF>, moof: nat, i: nat)
    requires SingleRuns(vs, moof) && i < |vs| && vs[i].ms != []
    ensures |vs[i].ms| <= UINT32_MAX && Truns(vs[i], moof) == TrunBox(vs[i], 0, |vs[i].ms|, moof)
  {
    hide Truns, TrunBox;
  }

  /** A moof, wherever it stands in the file. */
  lemma MoofRead(d: seq<byte>, p: nat, end: nat, st: Reading, vs: seq<TrackF>, fragment: nat, moof: nat)
    returns (cur: int, implicit: uint64)
    requires Numbered(st.tracks) && FirstTracks(vs) && SingleRuns(vs, moof)
    requires |MoofBox(vs, fragment, moof)| <= UINT32_MAX
    requires At(d, p, MoofBox(vs, fragment, moof)) && p + |MoofBox(vs, fragment, moof)| <= end
    ensures ParseBoxes(d, p, end, Root, st)
         == if Knows(st.tracks, vs)
            then ParseBoxes(d, p + |MoofBox(vs, fragment, moof)|, end, Root,
                            Reading(AbsorbAll(st.tracks, vs, p, moof), cur, U64(p), implicit))
            else Refused
  {
    hide ParseBoxes, At, FourCC, Box, BE24, BE32, Trafs, AbsorbAll, Numbered, SingleRuns, FirstTracks, Knows;
    FragCodes();
    MfhdCode();
    var body := MfhdBox(fragment) + Trafs(vs, moof);
    BoxStep(d, p, end, Root, st, "moof", body);
    AtConcat(d, p + 8, MfhdBox(fragment), Trafs(vs, moof));
    var st1 := st.(moof := U64(p), implicit := U64(p));
    BoxStep(d, p + 8, p + 8 + |body|, Moof, st1, "mfhd", [0] + BE24(0) + BE32(U32(fragment)));
    if Knows(st.tracks, vs) {
      cur, implicit := TrafsRead(d, p + 24, p + 8 + |body|, st1, vs, p, moof);
      Done(d, p + 8 + |body|, Moof, Reading(AbsorbAll(st.tracks, vs, p, moof), cur, U64(p), implicit));
    } else {
      cur, implicit := -1, 0;
      TrafsRefused(d, p + 24, p + 8 + |body|, st1, vs, p, moof);
    }
  }

  lemma MfhdCode()
    ensures Skipped(FourCC("mfhd"), Moof)
  {
  }
}
