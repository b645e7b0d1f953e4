/** What a reader makes of the moov in front of a fragment: every track that it names is there
    afterwards, and has no samples, whatever it had before. */
module IntroRead {
  import opened Bytes
  import opened SampleTables
  import opened TrackBoxes
  import opened BoxParser
  import opened Options
  import opened ReadTables
  import opened ReadBack
  import opened FragmentRead
  import opened FragmentIntro
  import EndToEnd
  import Fmp4Writer

  /** A track behind a trak without samples. */
  function Reset(t: Tables, h: Header): Tables {
    TrakTables(t, Unfilled(h)).(clock := 0)
  }

  function WithTraks(ts: seq<Tables>, hs: seq<Header>): (r: seq<Tables>)
    ensures |r| == if |hs| <= |ts| then |ts| else |hs|
  {
    if hs == [] then ts else
      var n := |hs| - 1;
      var us := WithTraks(ts, hs[..n]);
      if n < |us| then us[n := Reset(us[n], hs[n])] else us + [Reset(NewTrack(hs[n].id), hs[n])]
  }

  const TREX_DEFAULTS := Defaults(1, 0, 0, 0)

  function WithTrexes(ts: seq<Tables>, n: nat): (r: seq<Tables>)
    ensures |r| == |ts|
  {
    seq(|ts|, i requires 0 <= i < |ts| => if i < n then ts[i].(trex := TREX_DEFAULTS) else ts[i])
  }

  /** The tracks of a reader behind a moov. */
  function Announced(ts: seq<Tables>, hs: seq<Header>): (r: seq<Tables>)
    ensures |r| == if |hs| <= |ts| then |ts| else |hs|
  {
    WithTrexes(WithTraks(ts, hs), |hs|)
  }

  lemma ResetIs(t: Tables, h: Header)
    ensures Reset(t, h).id == t.id && Reset(t, h).elst == t.elst
    ensures Reset(t, h).samples == [] && Reset(t, h).sizes == []
  {
  }

  lemma {:induction false} WithTraksIs(ts: seq<Tables>, hs: seq<Header>)
    requires Numbered(ts) && Fmp4Writer.NumberedFor(hs, |hs|)
    ensures Numbered(WithTraks(ts, hs))
    ensures forall i :: 0 <= i < |hs| ==> WithTraks(ts, hs)[i].samples == []
    ensures forall i :: |hs| <= i < |ts| ==> WithTraks(ts, hs)[i] == ts[i]
  {
    hide Reset;
    if hs != [] {
      var n := |hs| - 1;
      var us := WithTraks(ts, hs[..n]);
      WithTraksIs(ts, hs[..n]);
      ResetIs(if n < |us| then us[n] else NewTrack(hs[n].id), hs[n]);
    }
  }

  /** Every track that a moov names starts again without samples; the others stay. */
  lemma AnnouncedIs(ts: seq<Tables>, hs: seq<Header>)
    requires Numbered(ts) && Fmp4Writer.NumberedFor(hs, |hs|)
    ensures Numbered(Announced(ts, hs))
    ensures forall i :: 0 <= i < |hs| ==> Announced(ts, hs)[i].samples == []
    ensures forall i :: |hs| <= i < |ts| ==> Announced(ts, hs)[i] == ts[i]
  {
    hide WithTraks, EmptyEdits;
    WithTraksIs(ts, hs);
  }

  // ---- Reading it ----

  lemma TrakStep(d: seq<byte>, p: nat, end: nat, st: Reading, h: Header, n: nat)
    requires Numbered(st.tracks) && h.id == n + 1 && n <= |st.tracks| && IsStsd(h.stsd)
    requires |TrakBox(Unfilled(h))| <= UINT32_MAX
    requires At(d, p, TrakBox(Unfilled(h))) && p + |TrakBox(Unfilled(h))| <= end
    ensures var us := st.tracks;
      var r := if n < |us| then us[n := Reset(us[n], h)] else us + [Reset(NewTrack(h.id), h)];
      ParseBoxes(d, p, end, Moov, st)
      == ParseBoxes(d, p + |TrakBox(Unfilled(h))|, end, Moov, st.(tracks := r, cur := n))
  {
    hide ParseBoxes, At, FourCC, Box, TrakBody, MdiaBody, Container, TrakTables, ApplyTables, FetchTrack, Numbered, IsStsd;
    var v := Unfilled(h);
    NestCodes();
    EdtsCode();
    Parts(v);
    BoxStep(d, p, end, Moov, st, "trak", TrakBody(v));
    TrakRead(d, p + 8, st.(cur := -1), v);
    Fetched(st, h, n);
  }

  lemma Parts(v: TrackV)
    requires v.ms == [] && |TrakBox(v)| <= UINT32_MAX
    ensures Chunkable(v) && Editable(v)
    ensures 0 < |TrakBody(v)| && |TrakBody(v)| + 8 <= UINT32_MAX && 0 < |MdiaBody(v)| && |MdiaBody(v)| + 8 <= UINT32_MAX
  {
    hide MdiaBody, TkhdBox;
    SomeMinf(v);
  }

  /** The track of a trak, and what becomes of it. */
  lemma Fetched(st: Reading, h: Header, n: nat)
    requires Numbered(st.tracks) && h.id == n + 1 && n <= |st.tracks|
    ensures var us := st.tracks;
      var r := FetchTrack(st.(cur := -1), h.id);
      var ts := if n < |us| then us[n := Reset(us[n], h)] else us + [Reset(NewTrack(h.id), h)];
      ApplyTables(r.With(TrakTables(r.Track(), Unfilled(h)))) == Read(st.(tracks := ts, cur := n))
  {
    hide FindTrack, WithTimes, EmptyEdits;
    FoundAt(st.tracks, h.id);
  }

  lemma {:induction false} TraksRead(d: seq<byte>, p: nat, end: nat, st: Reading, hs: seq<Header>) returns (cur: int)
    requires Numbered(st.tracks) && Fmp4Writer.NumberedFor(hs, |hs|) && Described(hs)
    requires |EmptyTraks(hs)| <= UINT32_MAX && At(d, p, EmptyTraks(hs)) && p + |EmptyTraks(hs)| <= end
    ensures ParseBoxes(d, p, end, Moov, st)
         == ParseBoxes(d, p + |EmptyTraks(hs)|, end, Moov, st.(tracks := WithTraks(st.tracks, hs), cur := cur))
  {
    hide ParseBoxes, At, TrakBox, EmptyTraks, Reset, Numbered, IsStsd;
    if hs == [] {
      cur := st.cur;
      NoTraks();
    } else {
      var n := |hs| - 1;
      SplitTraks(hs);
      AtConcat(d, p, EmptyTraks(hs[..n]), TrakBox(Unfilled(hs[n])));
      cur := TraksRead(d, p, end, st, hs[..n]);
      WithTraksIs(st.tracks, hs[..n]);
      TrakStep(d, p + |EmptyTraks(hs[..n])|, end, st.(tracks := WithTraks(st.tracks, hs[..n]), cur := cur), hs[n], n);
      cur := n;
    }
  }

  lemma SplitTraks(hs: seq<Header>)
    requires hs != []
    ensures var n := |hs| - 1;
      EmptyTraks(hs) == EmptyTraks(hs[..n]) + TrakBox(Unfilled(hs[n])) && Trexes(hs) == Trexes(hs[..n]) + TrexBox(hs[n].id)
  {
    hide TrakBox, TrexBox;
  }

  /** Every sample description is a box. */
  ghost predicate Described(hs: seq<Header>) {
    forall i :: 0 <= i < |hs| ==> IsStsd(hs[i].stsd)
  }

  lemma TrexStep(d: seq<byte>, p: nat, end: nat, st: Reading, n: nat)
    requires Numbered(st.tracks) && n < |st.tracks| && n + 1 <= UINT32_MAX
    requires At(d, p, TrexBox(n + 1)) && p + 32 <= end
    ensures ParseBoxes(d, p, end, Mvex, st)
         == ParseBoxes(d, p + 32, end, Mvex, st.(tracks := st.tracks[n := st.tracks[n].(trex := TREX_DEFAULTS)]))
  {
    hide ParseBoxes, At, FourCC, Box, List32, BE24, Get32, FetchTrack, Numbered;
    var fields := [n + 1, 1, 0, 0, 0];
    NestCodes();
    BoxStep(d, p, end, Mvex, st, "trex", [0] + BE24(0) + List32(fields));
    AtConcat(d, p + 8, [0] + BE24(0), List32(fields));
    List32At(d, p + 12, fields, 0);
    List32At(d, p + 12, fields, 1);
    List32At(d, p + 12, fields, 2);
    List32At(d, p + 12, fields, 3);
    List32At(d, p + 12, fields, 4);
    Extended(st, n);
  }

  lemma Extended(st: Reading, n: nat)
    requires Numbered(st.tracks) && n < |st.tracks| && n + 1 <= UINT32_MAX
    ensures var r := FetchTrack(st, n + 1);
      r.With(r.Track().(trex := TREX_DEFAULTS)).(cur := st.cur)
      == st.(tracks := st.tracks[n := st.tracks[n].(trex := TREX_DEFAULTS)])
  {
    hide FindTrack, EmptyEdits;
    FoundAt(st.tracks, n + 1);
  }

  lemma {:induction false} TrexesRead(d: seq<byte>, p: nat, end: nat, st: Reading, hs: seq<Header>)
    requires Numbered(st.tracks) && Fmp4Writer.NumberedFor(hs, |hs|) && |hs| <= |st.tracks|
    requires At(d, p, Trexes(hs)) && p + |Trexes(hs)| <= end
    ensures ParseBoxes(d, p, end, Mvex, st)
         == ParseBoxes(d, p + |Trexes(hs)|, end, Mvex, st.(tracks := WithTrexes(st.tracks, |hs|)))
  {
    hide ParseBoxes, At, TrexBox, Trexes, EmptyTraks, Numbered, WithTrexes;
    NoTraks();
    NoTrexes(st.tracks);
    if hs != [] {
      var n := |hs| - 1;
      SplitTraks(hs);
      AtConcat(d, p, Trexes(hs[..n]), TrexBox(hs[n].id));
      TrexesRead(d, p, end, st, hs[..n]);
      NextTrex(d, p + |Trexes(hs[..n])|, end, st, hs[n].id);
    }
  }

  lemma NextTrex(d: seq<byte>, p: nat, end: nat, st: Reading, id: uint32)
    requires Numbered(st.tracks) && 0 < id <= |st.tracks|
    requires At(d, p, TrexBox(id)) && p + 32 <= end
    ensures ParseBoxes(d, p, end, Mvex, st.(tracks := WithTrexes(st.tracks, id - 1)))
         == ParseBoxes(d, p + 32, end, Mvex, st.(tracks := WithTrexes(st.tracks, id)))
  {
    hide ParseBoxes, At, TrexBox, Numbered, WithTrexes;
    StillNumbered(st.tracks, id - 1);
    OneMoreTrex(st.tracks, id - 1);
    TrexStep(d, p, end, st.(tracks := WithTrexes(st.tracks, id - 1)), id - 1);
  }

  lemma NoTrexes(ts: seq<Tables>)
    ensures WithTrexes(ts, 0) == ts
  {
  }

  lemma OneMoreTrex(ts: seq<Tables>, n: nat)
    requires n < |ts|
    ensures var us := WithTrexes(ts, n);
      us[n := us[n].(trex := TREX_DEFAULTS)] == WithTrexes(ts, n + 1)
  {
  }

  lemma StillNumbered(ts: seq<Tables>, n: nat)
    requires Numbered(ts)
    ensures Numbered(WithTrexes(ts, n))
  {
    hide EmptyEdits;
  }

  /** ftyp and moov, wherever they stand. */
  lemma IntroIsRead(d: seq<byte>, p: nat, st: Reading, m: Intro) returns (cur: int)
    requires Numbered(st.tracks) && Fmp4Writer.NumberedFor(m.headers, |m.headers|) && Described(m.headers) && m.headers != []
    requires |IntroBytes(m)| <= UINT32_MAX && At(d, p, IntroBytes(m)) && p + |IntroBytes(m)| < EndToEnd.INFINITE
    ensures ParseBoxes(d, p, EndToEnd.INFINITE, Root, st)
         == ParseBoxes(d, p + |IntroBytes(m)|, EndToEnd.INFINITE, Root,
                       st.(tracks := Announced(st.tracks, m.headers), cur := cur))
  {
    hide ParseBoxes, At, FourCC, Box, EmptyTraks, Trexes, MvhdBox, WithTraks, WithTrexes, Numbered, Described, Container,
         Skipped, EndToEnd.SkippedAtRoot, Brands, List32;
    NestCodes();
    EdtsCode();
    HeaderCodes();
    MvexCode();
    EndToEnd.RootCodes();
    AtConcat(d, p, FtypBox(), Box("moov", MoovBody(m)));
    EndToEnd.RootSkip(d, p, st, "ftyp", Brands());
    var q := p + |FtypBox()|;
    var end := q + 8 + |MoovBody(m)|;
    ContainerStep(d, q, EndToEnd.INFINITE, Root, st, "moov", MoovBody(m), Moov);
    cur := MoovRead(d, q + 8, st, m);
  }

  lemma MvexCode()
    ensures Container(MVEX, Moov) == Some(Mvex)
  {
  }

  lemma MoovRead(d: seq<byte>, p: nat, st: Reading, m: Intro) returns (cur: int)
    requires Numbered(st.tracks) && Fmp4Writer.NumberedFor(m.headers, |m.headers|) && Described(m.headers) && m.headers != []
    requires |MoovBody(m)| <= UINT32_MAX && At(d, p, MoovBody(m))
    ensures ParseBoxes(d, p, p + |MoovBody(m)|, Moov, st)
         == Read(st.(tracks := Announced(st.tracks, m.headers), cur := cur))
  {
    hide ParseBoxes, At, FourCC, Box, EmptyTraks, Trexes, WithTraks, WithTrexes, Numbered, Described, Container,
         Skipped, List32, BE24;
    NestCodes();
    MvexCode();
    HeaderCodes();
    var end, hs := p + |MoovBody(m)|, m.headers;
    var b1, b2, b3, b4 := MvhdBox(m.created, 0, m.nextId), EmptyTraks(hs), Box("mvex", Trexes(hs)), UdtaBox(m.udta);
    AtConcat(d, p, b1 + b2 + b3, b4);
    AtConcat(d, p, b1 + b2, b3);
    AtConcat(d, p, b1, b2);
    SkipStep(d, p, end, Moov, st, "mvhd",
             [0] + BE24(0) + List32([m.created, m.created, TIMESCALE, 0, 0x1_0000, 0x100_0000, 0, 0,
                                     0x1_0000, 0, 0, 0, 0x1_0000, 0, 0, 0, 0x4000_0000, 0, 0, 0, 0, 0, 0, m.nextId]));
    FewTraks(hs);
    cur := TraksRead(d, p + |b1|, end, st, hs);
    WithTraksIs(st.tracks, hs);
    var st1 := st.(tracks := WithTraks(st.tracks, hs), cur := cur);
    var q := p + |b1| + |b2|;
    ContainerStep(d, q, end, Moov, st1, "mvex", Trexes(hs), Mvex);
    TrexesRead(d, q + 8, q + 8 + |Trexes(hs)|, st1, hs);
    var st2 := st1.(tracks := Announced(st.tracks, hs));
    Done(d, q + 8 + |Trexes(hs)|, Mvex, st2);
    if m.udta != [] {
      SkipStep(d, q + |b3|, end, Moov, st2, "udta", m.udta);
    }
    Done(d, end, Moov, st2);
  }

  lemma {:induction false} FewTraks(hs: seq<Header>)
    ensures |hs| <= |EmptyTraks(hs)| && 32 * |hs| == |Trexes(hs)|
  {
    hide TrakBody;
    if hs != [] {
      FewTraks(hs[..|hs| - 1]);
    }
  }
}
