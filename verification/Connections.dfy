/** Many connections over one pool of receive buffers, from the first connection to the last. */
module Connections {
  import opened Bytes
  import opened Options
  import opened Depacketizer
  import opened FrameCache
  import opened Dispatch
  import RtspStream

  /** A connection as its service knows it; the pool is not its own. */
  datatype Conn = Conn(c: Config, frames: Frames, out: seq<Out>, pending: seq<byte>, open: bool)

  /** The pool, the frames every cache may have, and all connections there have ever been. */
  datatype Hub = Hub(pool: seq<nat>, max: nat, conns: seq<Conn>)

  datatype Event = Connects(h264: nat, h265: nat) | Receives(k: nat, chunk: seq<byte>) | Closes(k: nat)

  function Caches(h: Hub): (fs: seq<Frames>)
    ensures |fs| == |h.conns| && forall k :: 0 <= k < |fs| ==> fs[k] == h.conns[k].frames
  {
    seq(|h.conns|, k requires 0 <= k < |h.conns| => h.conns[k].frames)
  }

  function Shape(h: Hub): Config { Config(0, 0, h.max) }

  /** Every buffer has one place: the pool, or one queue of one connection. */
  ghost predicate Kept(h: Hub) {
    && h.max > 0 && NoTwice(h.pool) && Shared(Shape(h), h.pool, Caches(h))
    && (forall k :: 0 <= k < |h.conns| ==> h.conns[k].c.max == h.max)
  }

  function LinkOf(h: Hub, k: nat): Link
    requires k < |h.conns|
  {
    var x := h.conns[k];
    Link(World(x.frames, h.pool, x.out), x.pending, x.open)
  }

  function WithLink(h: Hub, k: nat, l: Link): Hub
    requires k < |h.conns|
  {
    h.(pool := l.w.pool, conns := h.conns[k := Conn(h.conns[k].c, l.w.frames, l.w.out, l.pending, l.open)])
  }

  lemma SameMax(c: Config, d: Config, w: World)
    requires Sound(c, w) && c.max == d.max
    ensures Sound(d, w)
  {
  }

  lemma KeptSound(h: Hub, k: nat)
    requires Kept(h) && k < |h.conns|
    ensures Sound(h.conns[k].c, LinkOf(h, k).w)
  {
    hide Sound;
    var x := h.conns[k];
    assert Sound(Shape(h), World(Caches(h)[k], h.pool, []));
    SoundOut(Shape(h), World(x.frames, h.pool, []), x.out);
    SameMax(Shape(h), x.c, World(x.frames, h.pool, x.out));
  }

  /** A connection comes, has received something, or goes. Events of connections that are not there
      change nothing. */
  ghost function Happen(h: Hub, e: Event): Hub
    requires Kept(h)
  {
    match e
    case Connects(h264, h265) => h.(conns := h.conns + [Conn(Config(h264, h265, h.max), map[], [], [], true)])
    case Receives(k, chunk) =>
      if k < |h.conns| then
        KeptSound(h, k);
        WithLink(h, k, Receive(h.conns[k].c, LinkOf(h, k), chunk))
      else h
    case Closes(k) => if k < |h.conns| then WithLink(h, k, Closed(LinkOf(h, k))) else h
  }

  // ---- One event ----

  lemma ClosedOwns(c: Config, l: Link)
    requires Sound(c, l.w)
    ensures var r := Closed(l);
      Sound(c, r.w) && Owned(r.w.pool, r.w.frames) == Owned(l.w.pool, l.w.frames)
  {
    hide Apart, Owned;
    ReleaseAllOwns(l.w.pool, l.w.frames);
  }

  lemma ReceiveOwns(c: Config, l: Link, chunk: seq<byte>)
    requires Sound(c, l.w)
    ensures var r := Receive(c, l, chunk);
      Sound(c, r.w) && Owned(r.w.pool, r.w.frames) == Owned(l.w.pool, l.w.frames)
  {
    hide Sound, HandleAll, Owned;
    if l.open {
      HandleAllOwns(c, l.w, RtspStream.ParseStream(l.pending + chunk).frames);
    }
  }

  lemma SoundPool(c: Config, w: World)
    requires Sound(c, w)
    ensures NoTwice(w.pool)
  {
  }

  /** One connection changes its cache and the pool. */
  lemma LinkKept(h: Hub, k: nat, l: Link)
    requires Kept(h) && k < |h.conns| && Sound(h.conns[k].c, l.w)
    requires Owned(l.w.pool, l.w.frames) == Owned(h.pool, h.conns[k].frames)
    ensures Kept(WithLink(h, k, l))
    ensures AllBuffers(l.w.pool, Caches(WithLink(h, k, l))) == AllBuffers(h.pool, Caches(h))
  {
    hide Sound, Shared, Owned, AllBuffers, NoTwice;
    SoundPool(h.conns[k].c, l.w);
    SameMax(h.conns[k].c, Shape(h), l.w);
    SharedStep(Shape(h), h.pool, Caches(h), k, l.w);
    assert Caches(WithLink(h, k, l)) == Caches(h)[k := l.w.frames];
  }

  lemma NothingHeld()
    ensures Held(map[]) == {}
  {
  }

  lemma NewSound(h: Hub, c: Config)
    requires NoTwice(h.pool) && c.max > 0
    ensures Sound(c, World(map[], h.pool, []))
  {
  }

  lemma NewKept(h: Hub, c: Config)
    requires Kept(h) && c.max == h.max
    ensures var r := h.(conns := h.conns + [Conn(c, map[], [], [], true)]);
      Kept(r) && AllBuffers(r.pool, Caches(r)) == AllBuffers(h.pool, Caches(h))
  {
    hide Sound, Held, NoTwice, AllBuffers;
    var r := h.(conns := h.conns + [Conn(c, map[], [], [], true)]);
    NothingHeld();
    NewSound(h, Shape(h));
    forall k | 0 <= k < |r.conns|
      ensures Sound(Shape(r), World(Caches(r)[k], r.pool, []))
    {
      if k < |h.conns| {
        assert Sound(Shape(h), World(Caches(h)[k], h.pool, []));
      }
    }
    forall b
      ensures b in AllBuffers(r.pool, Caches(r)) <==> b in AllBuffers(h.pool, Caches(h))
    {
      BufferPlace(r.pool, Caches(r), b);
      BufferPlace(h.pool, Caches(h), b);
      if k :| 0 <= k < |h.conns| && b in Held(Caches(h)[k]) {
        assert Caches(r)[k] == Caches(h)[k];
      }
    }
  }

  lemma HappenKeeps(h: Hub, e: Event)
    requires Kept(h)
    ensures var r := Happen(h, e);
      Kept(r) && AllBuffers(r.pool, Caches(r)) == AllBuffers(h.pool, Caches(h))
  {
    hide Kept, Sound, Receive, Closed, Owned, AllBuffers, Held;
    match e
    case Connects(h264, h265) => NewKept(h, Config(h264, h265, h.max));
    case Receives(k, chunk) =>
      if k < |h.conns| {
        KeptSound(h, k);
        ReceiveOwns(h.conns[k].c, LinkOf(h, k), chunk);
        LinkKept(h, k, Receive(h.conns[k].c, LinkOf(h, k), chunk));
      }
    case Closes(k) =>
      if k < |h.conns| {
        KeptSound(h, k);
        ClosedOwns(h.conns[k].c, LinkOf(h, k));
        LinkKept(h, k, Closed(LinkOf(h, k)));
      }
  }

  // ---- Runs ----

  ghost function Run(h: Hub, es: seq<Event>): Hub
    requires Kept(h)
    decreases es
  {
    if es == [] then h else
      HappenKeeps(h, es[0]);
      Run(Happen(h, es[0]), es[1..])
  }

  /** Whatever comes, is received or goes, in any order and any number: every buffer stays in one place,
      and none is lost or made up. */
  lemma {:induction false} RunKeeps(h: Hub, es: seq<Event>)
    requires Kept(h)
    ensures var r := Run(h, es);
      Kept(r) && AllBuffers(r.pool, Caches(r)) == AllBuffers(h.pool, Caches(h))
    decreases es
  {
    hide Kept, Happen, AllBuffers;
    if es != [] {
      HappenKeeps(h, es[0]);
      RunKeeps(Happen(h, es[0]), es[1..]);
    }
  }

  lemma {:induction false} RunConcat(h: Hub, es: seq<Event>, more: seq<Event>)
    requires Kept(h)
    ensures Kept(Run(h, es)) && Run(h, es + more) == Run(Run(h, es), more)
    decreases es
  {
    hide Kept, Happen;
    if es == [] {
      assert es + more == more;
    } else {
      HappenKeeps(h, es[0]);
      assert (es + more)[1..] == es[1..] + more;
      RunConcat(Happen(h, es[0]), es[1..], more);
    }
  }

  /** The first `n` connections go. */
  function CloseFirst(n: nat): seq<Event> {
    if n == 0 then [] else CloseFirst(n - 1) + [Closes(n - 1)]
  }

  lemma {:induction false} AllGone(h: Hub, n: nat)
    requires Kept(h) && n <= |h.conns|
    ensures var r := Run(h, CloseFirst(n));
      |r.conns| == |h.conns| && forall k :: 0 <= k < n ==> r.conns[k].frames == map[]
  {
    hide Kept, ReleaseAll;
    if n > 0 {
      AllGone(h, n - 1);
      RunConcat(h, CloseFirst(n - 1), [Closes(n - 1)]);
      var before := Run(h, CloseFirst(n - 1));
      HappenKeeps(before, Closes(n - 1));
      assert [Closes(n - 1)][1..] == [];
      assert Run(Happen(before, Closes(n - 1)), []) == Happen(before, Closes(n - 1));
    }
  }

  lemma {:induction false} SameBuffers(a: seq<nat>, b: seq<nat>)
    requires NoTwice(a) && NoTwice(b) && Listed(a) == Listed(b)
    ensures multiset(a) == multiset(b)
  {
    forall x
      ensures multiset(a)[x] == multiset(b)[x]
    {
      OnceIn(a, x);
      OnceIn(b, x);
      assert x in Listed(a) <==> x in Listed(b);
    }
  }

  lemma {:induction false} OnceIn(bs: seq<nat>, x: nat)
    requires NoTwice(bs)
    ensures multiset(bs)[x] == if x in Listed(bs) then 1 else 0
  {
    if bs != [] {
      assert bs == bs[..|bs| - 1] + [bs[|bs| - 1]];
      OnceIn(bs[..|bs| - 1], x);
    }
  }

  /** After any run, once every connection has gone, the pool holds the buffers it began with, each of
      them once. */
  lemma PoolRestored(pool: seq<nat>, max: nat, es: seq<Event>)
    requires NoTwice(pool) && max > 0
    ensures var start := Hub(pool, max, []);
      && Kept(start)
      && var n := |Run(start, es).conns|;
      multiset(Run(start, es + CloseFirst(n)).pool) == multiset(pool)
  {
    hide Happen, NoTwice, Listed, Held;
    var start := Hub(pool, max, []);
    RunKeeps(start, es);
    var middle := Run(start, es);
    var end := Run(middle, CloseFirst(|middle.conns|));
    RunConcat(start, es, CloseFirst(|middle.conns|));
    RunKeeps(middle, CloseFirst(|middle.conns|));
    AllGone(middle, |middle.conns|);
    NothingHeld();
    forall b
      ensures b in Listed(end.pool) <==> b in Listed(pool)
    {
      BufferPlace(end.pool, Caches(end), b);
      BufferPlace(pool, Caches(start), b);
    }
    SameBuffers(end.pool, pool);
  }
}
