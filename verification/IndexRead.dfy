/** What a reader makes of the index behind a segment: it gives up at a track that it does not know, and
    keeps the marks of the others. */
module IndexRead {
  import opened Bytes
  import opened Options
  import opened BoxParser
  import opened ReadTables
  import opened ReadBack
  import opened IndexBoxes
  import opened FragmentRead
  import EndToEnd

  lemma MfraCodes()
    ensures FourCC("mfra") == MFRA && FourCC("tfra") == TFRA && Skipped(FourCC("mfro"), Mfra)
    ensures Container(MFRA, Root) == Some(Mfra) && Container(TFRA, Mfra) == None
  {
  }

  lemma MarkRead(d: seq<byte>, p: nat, x: Mark)
    requires At(d, p, MarkBytes(x))
    ensures p + 19 <= |d| && MarkAt(d, p, true) == x
  {
    hide BE64, Get64;
    AtConcat(d, p, BE64(x.time) + BE64(x.offset), [1, 1, 1]);
    AtConcat(d, p, BE64(x.time), BE64(x.offset));
    Get64Of(d, p, x.time);
    Get64Of(d, p + 8, x.offset);
  }

  lemma {:induction false} MarksRead(d: seq<byte>, p: nat, xs: seq<Mark>)
    requires At(d, p, AllMarks(xs))
    ensures p + 19 * |xs| <= |d| && MarkSize(true, 0) == 19
    ensures Marks(d, p, |xs|, true, 0) == xs
  {
    hide MarkBytes, MarkAt;
    if xs != [] {
      var n := |xs| - 1;
      AtConcat(d, p, AllMarks(xs[..n]), MarkBytes(xs[n]));
      MarksRead(d, p, xs[..n]);
      MarkRead(d, p + 19 * n, xs[n]);
    }
  }

  lemma ThreeWords(d: seq<byte>, p: nat, a: uint32, b: uint32, c: uint32)
    requires At(d, p, BE32(a) + BE32(b) + BE32(c))
    ensures p + 12 <= |d| && Get32(d, p) == a && Get32(d, p + 4) == b && Get32(d, p + 8) == c
  {
    hide BE32, Get32;
    AtConcat(d, p, BE32(a) + BE32(b), BE32(c));
    AtConcat(d, p, BE32(a), BE32(b));
    Get32Of(d, p, a);
    Get32Of(d, p + 4, b);
    Get32Of(d, p + 8, c);
  }

  lemma Fits32(n: nat)
    requires n <= UINT32_MAX
    ensures U32(n) == n
  {
  }

  lemma TfraFields(d: seq<byte>, p: nat, id: uint32, n: uint32, table: seq<byte>)
    requires At(d, p, [1] + BE24(0) + (BE32(id) + BE32(0) + BE32(n) + table))
    ensures p + 16 + |table| <= |d| && d[p] == 1 && Get32(d, p + 4) == id && Get32(d, p + 8) == 0
    ensures Get32(d, p + 12) == n && At(d, p + 16, table)
  {
    hide BE24, BE32, Get24, Get32, At;
    var words := BE32(id) + BE32(0) + BE32(n);
    FullAt(d, p, 1, 0, words + table);
    AtConcat(d, p + 4, words, table);
    ThreeWords(d, p + 4, id, 0, n);
  }

  /** A written tfra. */
  lemma TfraStep(d: seq<byte>, p: nat, end: nat, st: Reading, id: uint32, xs: seq<Mark>)
    requires At(d, p, TfraBox(id, xs)) && |TfraBox(id, xs)| <= UINT32_MAX && p + |TfraBox(id, xs)| <= end
    ensures var i := FindTrack(st.tracks, id);
      ParseBoxes(d, p, end, Mfra, st)
      == if i < 0 then Refused
         else ParseBoxes(d, p + |TfraBox(id, xs)|, end, Mfra,
                         st.(tracks := st.tracks[i := st.tracks[i].(frags := xs)]))
  {
    hide ParseBoxes, At, FourCC, Box, BE24, BE32, Get32, AllMarks, Marks, FindTrack, MarkSize, U32;
    var body := [1] + BE24(0) + (BE32(id) + BE32(0) + BE32(U32(|xs|)) + AllMarks(xs));
    MfraCodes();
    BoxStep(d, p, end, Mfra, st, "tfra", body);
    Fits32(|xs|);
    TfraFields(d, p + 8, id, U32(|xs|), AllMarks(xs));
    MarksRead(d, p + 24, xs);
  }

  /** The tracks of a reader behind an index. */
  function WithIndex(ts: seq<Tables>, m: Index): (r: seq<Tables>)
    ensures |r| == |ts|
  {
    seq(|ts|, i requires 0 <= i < |ts| => if i < |m| then ts[i].(frags := m[i]) else ts[i])
  }

  lemma IndexKeeps(ts: seq<Tables>, m: Index)
    requires Numbered(ts)
    ensures Numbered(WithIndex(ts, m))
    ensures forall i :: 0 <= i < |ts| ==> WithIndex(ts, m)[i].samples == ts[i].samples
  {
    hide EmptyEdits;
  }

  lemma OneMoreTrack(ts: seq<Tables>, m: Index, n: nat)
    requires n < |m| && n < |ts|
    ensures var us := WithIndex(ts, m[..n]);
      us[n := us[n].(frags := m[n])] == WithIndex(ts, m[..n + 1])
    ensures WithIndex(ts, []) == ts
  {
  }

  lemma {:induction false} TfrasRead(d: seq<byte>, p: nat, end: nat, st: Reading, m: Index)
    requires Numbered(st.tracks) && |Tfras(m)| <= UINT32_MAX
    requires At(d, p, Tfras(m)) && p + |Tfras(m)| <= end
    ensures ParseBoxes(d, p, end, Mfra, st)
         == if |m| <= |st.tracks| then ParseBoxes(d, p + |Tfras(m)|, end, Mfra, st.(tracks := WithIndex(st.tracks, m)))
            else Refused
  {
    hide ParseBoxes, At, TfraBox, Numbered, FindTrack, WithIndex;
    if m == [] {
      NoIndex(st.tracks);
    } else {
      var n := |m| - 1;
      AtConcat(d, p, Tfras(m[..n]), TfraBox(U32(|m|), m[n]));
      TfrasRead(d, p, end, st, m[..n]);
      if n <= |st.tracks| {
        var us := WithIndex(st.tracks, m[..n]);
        IndexKeeps(st.tracks, m[..n]);
        FoundAt(us, |m|);
        TfraStep(d, p + |Tfras(m[..n])|, end, st.(tracks := us), U32(|m|), m[n]);
        if n < |st.tracks| {
          OneMoreTrack(st.tracks, m, n);
          assert m[..n + 1] == m;
        }
      }
    }
  }

  lemma NoIndex(ts: seq<Tables>)
    ensures WithIndex(ts, []) == ts && Tfras([]) == []
  {
  }

  /** A written mfra, wherever it stands. */
  lemma MfraRead(d: seq<byte>, p: nat, st: Reading, m: Index)
    requires Numbered(st.tracks) && |MfraBox(m)| <= UINT32_MAX
    requires At(d, p, MfraBox(m)) && p + |MfraBox(m)| < EndToEnd.INFINITE
    ensures ParseBoxes(d, p, EndToEnd.INFINITE, Root, st)
         == if |m| <= |st.tracks|
            then ParseBoxes(d, p + |MfraBox(m)|, EndToEnd.INFINITE, Root, st.(tracks := WithIndex(st.tracks, m)))
            else Refused
  {
    hide ParseBoxes, At, FourCC, Box, BE24, BE32, Tfras, Numbered, WithIndex, Skipped;
    MfraCodes();
    var mfro := [0] + BE24(0) + BE32(U32(|Tfras(m)| + 24));
    BoxStep(d, p, EndToEnd.INFINITE, Root, st, "mfra", MfraBody(m));
    var end := p + 8 + |MfraBody(m)|;
    AtConcat(d, p + 8, Tfras(m), MfroBox(|Tfras(m)| + 24));
    TfrasRead(d, p + 8, end, st, m);
    if |m| <= |st.tracks| {
      var st1 := st.(tracks := WithIndex(st.tracks, m));
      SkipStep(d, p + 8 + |Tfras(m)|, end, Mfra, st1, "mfro", mfro);
      Done(d, end, Mfra, st1);
    }
  }

  // ---- Several in a row ----

  /** The tracks of a reader behind some indexes; None when it gives up at one of them. */
  function WithIndexes(ts: seq<Tables>, ms: seq<Index>): (r: Option<seq<Tables>>)
    ensures r.Some? ==> |r.value| == |ts|
  {
    if ms == [] then Some(ts) else
      match WithIndexes(ts, ms[..|ms| - 1])
      case None => None
      case Some(us) => if |ms[|ms| - 1]| <= |us| then Some(WithIndex(us, ms[|ms| - 1])) else None
  }

  /** They are accepted exactly when they name tracks that are known, and change no sample. */
  lemma {:induction false} IndexesKeep(ts: seq<Tables>, ms: seq<Index>)
    requires Numbered(ts)
    ensures WithIndexes(ts, ms).Some? <==> AllWithin(ms, |ts|)
    ensures WithIndexes(ts, ms).Some? ==>
      var us := WithIndexes(ts, ms).value;
      Numbered(us) && forall i :: 0 <= i < |ts| ==> us[i].samples == ts[i].samples
  {
    hide Numbered, WithIndex, AllWithin;
    if ms == [] {
      NoneWithin(|ts|);
    } else {
      var n := |ms| - 1;
      IndexesKeep(ts, ms[..n]);
      WithinSnoc(ms[..n], ms[n], |ts|);
      assert ms == ms[..n] + [ms[n]];
      if WithIndexes(ts, ms[..n]).Some? {
        IndexKeeps(WithIndexes(ts, ms[..n]).value, ms[n]);
      }
    }
  }

  /** What a reader knows of its fragments is what the last index says. */
  lemma LastIndex(ts: seq<Tables>, ms: seq<Index>)
    requires ms != [] && WithIndexes(ts, ms).Some?
    ensures var last := ms[|ms| - 1];
      |last| <= |ts| && forall i :: 0 <= i < |last| ==> WithIndexes(ts, ms).value[i].frags == last[i]
  {
  }

  ghost predicate ShortIndexes(ms: seq<Index>) {
    forall k :: 0 <= k < |ms| ==> |MfraBox(ms[k])| <= UINT32_MAX
  }

  lemma {:induction false} MfrasRead(d: seq<byte>, p: nat, st: Reading, ms: seq<Index>)
    requires Numbered(st.tracks) && ShortIndexes(ms)
    requires At(d, p, Mfras(ms)) && p + |Mfras(ms)| < EndToEnd.INFINITE
    ensures ParseBoxes(d, p, EndToEnd.INFINITE, Root, st)
         == match WithIndexes(st.tracks, ms)
            case None => Refused
            case Some(ts) => ParseBoxes(d, p + |Mfras(ms)|, EndToEnd.INFINITE, Root, st.(tracks := ts))
  {
    hide ParseBoxes, At, MfraBox, Numbered, WithIndex;
    if ms != [] {
      var n := |ms| - 1;
      AtConcat(d, p, Mfras(ms[..n]), MfraBox(ms[n]));
      assert ShortIndexes(ms[..n]) && |MfraBox(ms[n])| <= UINT32_MAX;
      MfrasRead(d, p, st, ms[..n]);
      IndexesKeep(st.tracks, ms[..n]);
      if WithIndexes(st.tracks, ms[..n]).Some? {
        var us := WithIndexes(st.tracks, ms[..n]).value;
        MfraRead(d, p + |Mfras(ms[..n])|, st.(tracks := us), ms[n]);
      }
    }
  }
}
