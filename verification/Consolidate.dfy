/** Giving a chunk back: it is joined with its free neighbours and goes to top, to dv or into a bin. */
module Consolidate {
  import opened Words
  import opened BoundaryTags
  import opened Retiling
  import opened HeapState
  import opened HeapSteps
  import opened HeapOps
  import opened HeapOps2
  import opened HeapBins
  import opened MallocState
  import opened HandOut
  import opened SegmentOps

  // ----- Neighbours -----

  /** A chunk that is in use but not as a segment record has a chunk behind it. */
  lemma NextChunk(st: State, p: Addr, L: set<Addr>, Y: set<Addr>)
    requires (p in st.live || p in Y) && Inv(st, L, Y)
    ensures p in st.tags.ch && p in st.tags.used && p > 0 && p % 16 == 0 && st.tags.ch[p] % 16 == 0
    ensures st.tags.ch[p] >= MIN_CHUNK_SIZE
    ensures var n := p + st.tags.ch[p]; n in st.tags.ch && Pin(st.tags.HeadOf(n)) && st.least <= n && n % 16 == 0
    ensures p != st.dv && p != st.tags.top && st.least <= p && p !in Records(st.segs)
  {
    hide BinsMatch, MapsOK, FootprintOK, Records, SizeOf, Cin, Pin, SegsOK;
    UsedOnce(st, L, Y, p);
    ChunkFactsAt(st, L, Y, p);
    var n := p + st.tags.ch[p];
    if n !in st.tags.ch {
      AtFence(st, p, n);
      assert false;
    }
    ChunkFactsAt(st, L, Y, n);
  }

  /** Only segment records are followed by fenceposts. */
  lemma AtFence(st: State, p: Addr, f: Addr)
    requires OK(st.tags) && SegsOK(st.tags, st.segs) && p in st.tags.ch && f == p + st.tags.ch[p] && f in st.tags.fence
    ensures p in Records(st.segs)
  {
    hide OK, SegOK;
    var k := FenceSeg(st.tags, st.segs, f);
    FenceRecord(st, k);
    ChunkFacts(st.tags, p);
    if p != st.segs[k].rec {
      ChunksApart(st.tags, p, st.segs[k].rec);
    }
  }

  lemma FenceRecord(st: State, k: nat)
    requires SegsOK(st.tags, st.segs) && 0 < k < |st.segs|
    ensures st.segs[k].rec in st.tags.ch && st.tags.ch[st.segs[k].rec] == SEGMENT_RECORD
  {
    assert SegOK(st.tags, st.segs, k);
  }

  /** A clear PINUSE bit leads to a free chunk. */
  lemma PrevChunk(st: State, p: Addr, L: set<Addr>, Y: set<Addr>)
    requires p in st.tags.ch && !Pin(st.tags.HeadOf(p)) && Inv(st, L, Y)
    ensures var s := st.tags.W(p);
            s <= p && p - s in st.tags.ch && st.tags.ch[p - s] == s && p - s !in st.tags.used && p - s != st.tags.top
    ensures st.least <= p - st.tags.W(p) && p - st.tags.W(p) != p && Pin(st.tags.HeadOf(p - st.tags.W(p)))
    ensures p - st.tags.W(p) != st.dv && p - st.tags.W(p) !in L ==> InBins(st, p - st.tags.W(p))
  {
    hide MapsOK, FootprintOK, SizeOf, Cin, Pin, SegsOK, UsedOK, DvTopOK;
    ChunkFactsAt(st, L, Y, p);
    var r := p - st.tags.W(p);
    ChunkFactsAt(st, L, Y, r);
    assert r != st.dv ==> IsFree(st.tags, st.dv, r);
  }

  /** `p`, in use, and perhaps the free chunk `a` before it are about to become free together. */
  ghost predicate Merging(st: State, a: Addr, p: Addr, n: Addr, k: nat, L: set<Addr>, Y: set<Addr>)
  {
    && (p in st.live || p in Y) && p in st.tags.ch && n == p + st.tags.ch[p] && n in st.tags.ch && a in st.tags.ch
       && a < n
    && (a == p ==> L == {})
    && (a != p ==> a !in st.tags.used && a != st.tags.top && (if a == st.dv then L == {} else L == {a}))
    && Pin(st.tags.HeadOf(a)) && Taken(st, k, a, n, {a, p}) && Inv(st, L, Y)
  }

  /** What `Merging` says about the numbers, and where the chunk behind may be. */
  lemma MergingFacts(st: State, a: Addr, p: Addr, n: Addr, k: nat, L: set<Addr>, Y: set<Addr>)
    requires Merging(st, a, p, n, k, L, Y)
    ensures p in st.tags.used && p != st.dv && a != st.tags.top && p != st.tags.top && n != a && n != p && st.least <= n
    ensures Pin(st.tags.HeadOf(n))
    ensures a % 16 == 0 && n % 16 == 0 && (n - a) % 16 == 0 && n - a >= MIN_CHUNK_SIZE && a > 0 && st.least <= a
    ensures OnlyUsed(st, {a, p}, p)
    ensures a == p || a == st.dv || a in L
    ensures SizeOf(st.tags.HeadOf(n)) == st.tags.ch[n] && (Cin(st.tags.HeadOf(n)) <==> n in st.tags.used)
    ensures n !in st.tags.used && n != st.tags.top && n != st.dv ==> InBins(st, n)
  {
    hide MapsOK, FootprintOK, SizeOf, Cin, Pin, SegsOK, Taken, Records;
    NextChunk(st, p, L, Y);
    ChunkFactsAt(st, L, Y, a);
    ChunkFactsAt(st, L, Y, n);
    ChunksApartIf(st, a, p, L, Y);
    if n !in st.tags.used && n != st.tags.top && n != st.dv {
      assert IsFree(st.tags, st.dv, n);
    }
  }

  lemma ChunksApartIf(st: State, a: Addr, p: Addr, L: set<Addr>, Y: set<Addr>)
    requires a in st.tags.ch && p in st.tags.ch && a < p + st.tags.ch[p] && Inv(st, L, Y)
    ensures a <= p && (a != p ==> a + st.tags.ch[a] <= p)
  {
    hide MapsOK, FootprintOK, SizeOf, Cin, Pin, SegsOK, Records, BinsMatch, DvTopOK, LeastOK, UsedOK;
    ChunkFactsAt(st, L, Y, a);
    ChunkFactsAt(st, L, Y, p);
    if a != p {
      ChunksApart(st.tags, a, p);
    }
  }

  // ----- The four ways to go on -----

  function ToTop(st: State, a: Addr, p: Addr): State
    requires st.tags.top in st.tags.ch && a <= TopEnd(st.tags) && (TopEnd(st.tags) - a) % 16 == 0
  {
    Topped(st, a, TopEnd(st.tags), {a, p, st.tags.top}, p)
  }

  lemma JoinsTop(st: State, a: Addr, p: Addr, n: Addr, k: nat, L: set<Addr>, Y: set<Addr>)
    requires n == st.tags.top && Merging(st, a, p, n, k, L, Y)
    ensures st.tags.top in st.tags.ch && a <= TopEnd(st.tags) && (TopEnd(st.tags) - a) % 16 == 0
    ensures TopEnd(st.tags) - a == st.topsize + (n - a)
    ensures Inv(ToTop(st, a, p), {}, Y - {p}) && forall q | q != p :: BlockKept(st, ToTop(st, a, p), q)
  {
    hide Inv, Taken, SizeOf, Cin, Pin, BlockKept;
    MergingFacts(st, a, p, n, k, L, Y);
    ChunkFactsAt(st, L, Y, n);
    DvWord(st, L, Y);
    DvNeverTop(st, L, Y);
    FreeAvailable(st, L, Y, n);
    TakeNext(st, L, Y, k, a, n, {a, p});
    assert {a, p} + {n} == {a, p, n};
    MakeTop(st, k, a, TopEnd(st.tags), {a, p, n}, p, L, Y, ToTop(st, a, p));
    assert L - {a, p, n} == {};
  }

  lemma DvNeverTop(st: State, L: set<Addr>, Y: set<Addr>)
    requires Inv(st, L, Y)
    ensures (st.dv == st.tags.top ==> st.dv == 0) && st.tags.top !in st.tags.used && st.dv !in st.tags.used
  {
    hide OK, BinsMatch, MapsOK, FootprintOK, LeastOK, SegsOK, UsedOK;
    TopFree(st, L, Y);
    NoNullUsed(st, L, Y);
  }

  lemma NoNullUsed(st: State, L: set<Addr>, Y: set<Addr>)
    requires Inv(st, L, Y)
    ensures 0 !in st.tags.ch && st.tags.used <= st.tags.ch.Keys
  {
    hide BinsMatch, MapsOK, FootprintOK, LeastOK, SegsOK, DvTopOK;
    NoNullChunk(st.tags);
    UsedAreChunks(st, L, Y);
  }

  /** The chunk behind is free: dv, or out of its bin. */
  function WithNext(st: State, a: Addr, p: Addr, n: Addr): State
    requires n in st.tags.ch && a <= n + st.tags.ch[n] && (n + st.tags.ch[n] - a) % 16 == 0
  {
    Freed(st, a, n + st.tags.ch[n], {a, p, n}, p)
  }

  /** `n` is dv or loose, besides the loose chunks `L`. */
  lemma JoinsFree(st: State, a: Addr, p: Addr, n: Addr, k: nat, L: set<Addr>, Y: set<Addr>, st1: State)
    requires n !in st.tags.used && n != st.tags.top && Merging(st, a, p, n, k, L, Y)
    requires if n == st.dv then st1 == st else InBins(st, n) && st1 == Unbinned(st, n)
    ensures a <= n + st1.tags.ch[n] && (n + st1.tags.ch[n] - a) % 16 == 0
    ensures Inv(WithNext(st1, a, p, n), if a == st.dv || n == st.dv then {} else {a}, Y - {p})
    ensures forall q | q != p :: BlockKept(st, WithNext(st1, a, p, n), q)
    ensures var b := n + st.tags.ch[n]; ClearPin(st.tags.HeadOf(b)) == st.tags.HeadOf(b) && st.tags.HeadOf(b) > 0
    ensures a != st.dv && n != st.dv ==> IsFree(WithNext(st1, a, p, n).tags, st.dv, a)
  {
    hide Inv, Taken, SizeOf, Cin, Pin, BlockKept, InBins, ClearPin;
    var L1, b := if n == st.dv then L else L + {n}, n + st.tags.ch[n];
    MergingFacts(st, a, p, n, k, L, Y);
    ChunkFactsAt(st, L, Y, n);
    AfterFree(st, L, Y, n);
    ChunkFactsAt(st, L, Y, b);
    HeadUnchanged(st.tags.HeadOf(b), st.tags.ch[b]);
    if n != st.dv {
      Unbin(st, n, L, Y);
    }
    SameTaken(st, st1, k, a, n, {a, p});
    FreeAvailable(st1, L1, Y, n);
    TakeNext(st1, L1, Y, k, a, n, {a, p});
    assert {a, p} + {n} == {a, p, n};
    var X := {a, p, n};
    MakeFree(st1, k, a, b, X, p, L1, Y, WithNext(st1, a, p, n));
    assert (L1 - X) + (if st.dv in X then {} else {a}) == if a == st.dv || n == st.dv then {} else {a};
    KeptUnbinned(st, st1, WithNext(st1, a, p, n), p);
    FreeAt(st1, a, b, X, p);
  }

  lemma HeadUnchanged(w: nat, s: nat)
    requires SizeOf(w) == s && s > 0 && !Pin(w)
    ensures ClearPin(w) == w && w > 0
  {
  }

  lemma SameTaken(st: State, st': State, k: nat, a: Addr, b: Addr, X: set<Addr>)
    requires Taken(st, k, a, b, X) && st'.tags == st.tags && st'.segs == st.segs && st'.small.Keys <= st.small.Keys
    requires st'.tree.Keys <= st.tree.Keys
    ensures Taken(st', k, a, b, X)
  {
    hide Region, InSeg, Records;
  }

  lemma KeptUnbinned(st: State, st1: State, st2: State, p: Addr)
    requires st1.tags == st.tags && st1.live == st.live && st1.maps == st.maps
    requires forall q | q != p :: BlockKept(st1, st2, q)
    ensures forall q | q != p :: BlockKept(st, st2, q)
  {
    BinsUnseen(st, st1);
    hide BlockKept;
    forall q | q != p ensures BlockKept(st, st2, q) {
      KeptOne(st, st1, st2, q);
    }
  }

  function Alone(st: State, a: Addr, p: Addr, n: Addr): State
    requires a <= n && (n - a) % 16 == 0
  {
    Freed(st, a, n, {a, p}, p)
  }

  /** The chunk behind is in use. */
  lemma JoinsNone(st: State, a: Addr, p: Addr, n: Addr, k: nat, L: set<Addr>, Y: set<Addr>)
    requires n in st.tags.used && Merging(st, a, p, n, k, L, Y)
    ensures a <= n && (n - a) % 16 == 0
    ensures Inv(Alone(st, a, p, n), if a == st.dv then {} else {a}, Y - {p})
    ensures forall q | q != p :: BlockKept(st, Alone(st, a, p, n), q)
    ensures a != st.dv ==> IsFree(Alone(st, a, p, n).tags, st.dv, a)
  {
    hide Inv, Taken, SizeOf, Cin, Pin, BlockKept, InBins, ClearPin;
    MergingFacts(st, a, p, n, k, L, Y);
    MakeFree(st, k, a, n, {a, p}, p, L, Y, Alone(st, a, p, n));
    assert (L - {a, p}) + (if st.dv in {a, p} then {} else {a}) == if a == st.dv then {} else {a};
    FreeAt(st, a, n, {a, p}, p);
  }

  lemma FreeAt(st: State, a: Addr, b: Addr, X: set<Addr>, p: Addr)
    requires a < b && (b - a) % 16 == 0 && a != st.tags.top && a in X
    ensures a != st.dv ==> IsFree(Freed(st, a, b, X, p).tags, st.dv, a)
  {
  }
}
