/** A retiling inside one segment keeps the invariant of the allocator. */
module HeapSteps {
  import opened Words
  import opened BoundaryTags
  import opened Retiling
  import opened HeapState
  import TreeIndex

  /** Besides the frame: outside the chunks `X` of [a, b) everything is as it was, inside are the chunks `N`. */
  ghost predicate Swapped(h: Tags, h': Tags, a: Addr, b: Addr, X: set<Addr>, N: set<Addr>)
  {
    && Framed(h, h', a, b) && a in N && N <= h'.ch.Keys && X <= h.ch.Keys && a < b
    && h'.ch.Keys == (h.ch.Keys - X) + N
    && (forall p {:trigger p in h.ch} | p in h.ch && p !in X ::
       p !in N && h'.ch[p] == h.ch[p] && (p in h'.used <==> p in h.used))
    && (forall p {:trigger p in N} | p in N :: a <= p && p + h'.ch[p] <= b)
    && (if h.top in X then h'.top in N && TopEnd(h') == TopEnd(h) == b && a <= h'.top else h'.top == h.top)
  }

  /** The fields that a retiling leaves alone. */
  predicate SameRest(st: State, st': State)
  {
    st'.segs == st.segs && st'.maps == st.maps && st'.least == st.least && st'.footprint == st.footprint
    && st'.small == st.small && st'.tree == st.tree
  }

  lemma Adjacent(h: Tags, segs: seq<Segment>, k: nat, a: Addr, p: Addr)
    requires OK(h) && SegsOK(h, segs) && InSeg(h, segs, k, a, p) && a < p && p in h.ch
    ensures InSeg(h, segs, k, a, p + h.ch[p])
  {
    hide SizeOf, Pin, Cin, NextOK, PrevOK, Apart, EndApart, FenceOK;
    assert InSomeSeg(h, segs, p);
    var j: nat :| ChunkInSeg(h, segs, j, p);
    assert SegOK(h, segs, k) && SegOK(h, segs, j);
    assert ChunkOK(h, p);
    HeadPositive(h, p);
    if j != k {
      SegsApartAt(h, segs, j, k);
    }
  }

  lemma SegsApartAt(h: Tags, segs: seq<Segment>, j: nat, k: nat)
    requires SegsOK(h, segs) && j < |segs| && k < |segs| && j != k
    ensures SegsApart(segs, j, k)
  {
  }

  /** Only the segment record of a segment ends where its chunks do. */
  lemma InSegWords(h: Tags, segs: seq<Segment>, k: nat, a: Addr, b: Addr)
    requires SegsOK(h, segs) && InSeg(h, segs, k, a, b)
    ensures segs[k].base <= a && b + 32 <= segs[k].base + segs[k].size
  {
    hide Pin, OK;
    assert SegOK(h, segs, k);
  }

  lemma SegsSwap(h: Tags, h': Tags, segs: seq<Segment>, k: nat, a: Addr, b: Addr, X: set<Addr>, N: set<Addr>)
    requires OK(h) && SegsOK(h, segs) && Region(h, a, b, X) && InSeg(h, segs, k, a, b) && Swapped(h, h', a, b, X, N)
    requires X !! Records(segs)
    ensures SegsOK(h', segs)
  {
    hide Pin, Cin, SizeOf, ChunkOK, Apart, EndApart, FenceOK;
    forall j: nat | j < |segs| ensures SegEnd(h', segs, j) == SegEnd(h, segs, j) {
    }
    forall j: nat | j < |segs| ensures SegOK(h', segs, j) {
      SegSwap(h, h', segs, k, a, b, X, N, j);
    }
    forall p | p in h'.ch ensures InSomeSeg(h', segs, p) {
      if p in N {
        assert ChunkInSeg(h', segs, k, p);
      } else {
        assert p in h.ch && InSomeSeg(h, segs, p);
        var j: nat :| ChunkInSeg(h, segs, j, p);
        assert ChunkInSeg(h', segs, j, p);
      }
    }
    forall f | f in h'.fence ensures exists j: nat :: 0 < j < |segs| && f == SegEnd(h', segs, j) {
      var j: nat :| 0 < j < |segs| && f == SegEnd(h, segs, j);
      assert f == SegEnd(h', segs, j);
    }
    SwapTop(h, h', a, b, X, N);
  }

  lemma SwapTop(h: Tags, h': Tags, a: Addr, b: Addr, X: set<Addr>, N: set<Addr>)
    requires Swapped(h, h', a, b, X, N) && OK(h) && Region(h, a, b, X)
    ensures h'.top == 0 <==> h.top == 0
  {
    hide SizeOf, Pin, Cin, Apart, EndApart, FenceOK, NextOK, PrevOK;
    if h.top in X {
      assert ChunkOK(h, h.top);
    }
  }

  lemma SegSwap(h: Tags, h': Tags, segs: seq<Segment>, k: nat, a: Addr, b: Addr, X: set<Addr>, N: set<Addr>, j: nat)
    requires OK(h) && SegsOK(h, segs) && Region(h, a, b, X) && InSeg(h, segs, k, a, b) && Swapped(h, h', a, b, X, N)
    requires X !! Records(segs) && j < |segs|
    ensures SegOK(h', segs, j)
  {
    hide Pin, Cin, SizeOf, ChunkOK, Apart, EndApart, FenceOK, InSomeSeg;
    assert SegOK(h, segs, j) && SegOK(h, segs, k);
    if j > 0 {
      assert segs[j].rec in Records(segs);
    }
    var base := segs[j].base;
    assert base !in X || base == a by {
      if base in X && j != k {
        SegsApartAt(h, segs, j, k);
      }
    }
    assert Pin(h'.HeadOf(base)) by {
      if base != a {
        BaseOutside(h, segs, k, a, b, X, j);
      }
    }
  }

  /** A segment's base other than the region's start is not near the region. */
  lemma BaseOutside(h: Tags, segs: seq<Segment>, k: nat, a: Addr, b: Addr, X: set<Addr>, j: nat)
    requires SegsOK(h, segs) && InSeg(h, segs, k, a, b) && j < |segs| && a < b && segs[j].base != a
    ensures segs[j].base < a || b + 32 <= segs[j].base
  {
    hide Pin, Cin, SizeOf, InSomeSeg;
    InSegWords(h, segs, k, a, b);
    if j != k {
      assert SegsApart(segs, j, k);
    }
  }

  lemma MapsSwap(st: State, st': State, k: nat, a: Addr, b: Addr)
    requires MapsOK(st) && SegsOK(st.tags, st.segs) && InSeg(st.tags, st.segs, k, a, b)
    requires Framed(st.tags, st'.tags, a, b) && SameRest(st, st')
    ensures MapsOK(st')
    ensures forall p | p in st.maps :: SameMapped(st.tags, st'.tags, p, st.maps[p])
  {
    hide Pin, Cin, SizeOf, InSomeSeg, SegOK;
    InSegWords(st.tags, st.segs, k, a, b);
    forall p | p in st.maps ensures SameMapped(st.tags, st'.tags, p, st.maps[p]) && MapOK(st'.tags, p, st'.maps[p]) {
      assert MapOK(st.tags, p, st.maps[p]) && MapApart(st.maps[p], st.segs[k].base, st.segs[k].size);
    }
    forall p, q | p in st'.maps && q in st'.maps && p != q
      ensures MapApart(st'.maps[p], st'.maps[q].base, st'.maps[q].len) {
      assert MapApart(st.maps[p], st.maps[q].base, st.maps[q].len);
    }
    forall p, j: nat | p in st'.maps && j < |st'.segs|
      ensures MapApart(st'.maps[p], st'.segs[j].base, st'.segs[j].size) {
      assert MapApart(st.maps[p], st.segs[j].base, st.segs[j].size);
    }
  }

  /** The chunks of the region are out of the bins; a new free chunk is dv, top or loose. */
  ghost predicate Loose(st: State, st': State, X: set<Addr>, N: set<Addr>, L: set<Addr>, L': set<Addr>)
  {
    && (forall p | p in X :: p !in st.small && p !in st.tree)
    && ((st'.dv == st.dv && st.dv !in X) || ((st.dv in X || st.dv == 0) && (st'.dv == 0 || st'.dv in N)))
    && L' == (L - X) + (set p | p in N && IsFree(st'.tags, st'.dv, p))
  }

  lemma BinsSwap(st: State, st': State, a: Addr, b: Addr, X: set<Addr>, N: set<Addr>, L: set<Addr>, L': set<Addr>)
    requires BinsMatch(st, L) && Swapped(st.tags, st'.tags, a, b, X, N) && SameRest(st, st')
    requires Loose(st, st', X, N, L, L')
    requires 0 !in st.tags.ch
    ensures BinsMatch(st', L')
  {
    hide Framed;
    forall p | p in st'.small
      ensures IsFree(st'.tags, st'.dv, p) && p !in L' && st'.small[p] == st'.tags.ch[p] < TreeIndex.MIN_LARGE_SIZE {
    }
    forall p | p in st'.tree
      ensures IsFree(st'.tags, st'.dv, p) && p !in L' && st'.tree[p] == st'.tags.ch[p] >= TreeIndex.MIN_LARGE_SIZE {
    }
    forall p | IsFree(st'.tags, st'.dv, p) ensures p in L' || p in st'.small || p in st'.tree {
      if p !in N {
        assert IsFree(st.tags, st.dv, p);
      }
    }
  }

  lemma ChunkFacts(h: Tags, p: Addr)
    requires OK(h) && p in h.ch
    ensures p > 0 && p % 16 == 0 && h.ch[p] % 16 == 0 && h.ch[p] >= 16 && (p != h.top ==> h.ch[p] >= MIN_CHUNK_SIZE)
    ensures HeadOK(h, p) && NextOK(h, p) && PrevOK(h, p)
  {
    assert ChunkOK(h, p);
  }

  lemma NoNullChunk(h: Tags)
    requires OK(h)
    ensures 0 !in h.ch
  {
    hide SizeOf, Pin, Cin, NextOK, PrevOK, Apart, EndApart, FenceOK;
    if 0 in h.ch {
      ChunkFacts(h, 0);
    }
  }

  /** The words of blocks outside the region are not touched. */
  lemma BlocksOutside(h: Tags, h': Tags, a: Addr, b: Addr, X: set<Addr>, p: Addr)
    requires Region(h, a, b, X) && Framed(h, h', a, b) && p in h.ch && p !in X
    ensures SameBlock(h, h', p, h.ch[p])
  {
  }

  lemma Step(st: State, st': State, k: nat, a: Addr, b: Addr, X: set<Addr>, N: set<Addr>, L: set<Addr>, L': set<Addr>,
      Y: set<Addr>, Y': set<Addr>)
    requires Inv(st, L, Y) && Region(st.tags, a, b, X) && InSeg(st.tags, st.segs, k, a, b) && X !! Records(st.segs)
    requires OK(st'.tags) && Swapped(st.tags, st'.tags, a, b, X, N) && SameRest(st, st') && Loose(st, st', X, N, L, L')
    requires DvTopOK(st') && UsedOK(st', Y')
    ensures Inv(st', L', Y')
    ensures forall p | p !in X && (p in st.live ==> p in st'.live) :: BlockKept(st, st', p)
  {
    hide OK, BinsMatch, SegsOK, MapsOK, FootprintOK, DvTopOK, UsedOK, Swapped, Loose, Region, InSeg, Records, SameRest,
      LeastOK, SameBlock, SameMapped;
    NoNullChunk(st.tags);
    SwapFramed(st.tags, st'.tags, a, b, X, N);
    SegsSwap(st.tags, st'.tags, st.segs, k, a, b, X, N);
    MapsSwap(st, st', k, a, b);
    BinsSwap(st, st', a, b, X, N, L, L');
    LeastSwap(st, st', a, b, X, N);
    forall p | p !in X && (p in st.live ==> p in st'.live) ensures BlockKept(st, st', p) {
      if p in st.tags.ch {
        BlocksOutside(st.tags, st'.tags, a, b, X, p);
      }
    }
  }

  lemma SwapFramed(h: Tags, h': Tags, a: Addr, b: Addr, X: set<Addr>, N: set<Addr>)
    requires Swapped(h, h', a, b, X, N)
    ensures Framed(h, h', a, b)
    ensures forall p | p in h.ch && p !in X :: p in h'.ch && h'.ch[p] == h.ch[p]
  {
  }

  lemma LeastSwap(st: State, st': State, a: Addr, b: Addr, X: set<Addr>, N: set<Addr>)
    requires LeastOK(st) && FootprintOK(st) && Region(st.tags, a, b, X) && Swapped(st.tags, st'.tags, a, b, X, N)
    requires SameRest(st, st')
    ensures LeastOK(st') && FootprintOK(st') && st'.segs == st.segs && st'.maps == st.maps
  {
    hide Framed;
    assert a in st.tags.ch;
  }

  /** A run of chunks in one segment, none of them a segment record, all of them out of the bins. */
  ghost predicate Taken(st: State, k: nat, a: Addr, b: Addr, X: set<Addr>)
  {
    && Region(st.tags, a, b, X) && InSeg(st.tags, st.segs, k, a, b) && X !! Records(st.segs)
    && (forall p | p in X :: p !in st.small && p !in st.tree)
    && (st.tags.top in X ==> TopEnd(st.tags) == b)
  }

  /** What becomes of dv and of the loose chunks. */
  ghost predicate NextLoose(st: State, st': State, X: set<Addr>, N: set<Addr>, L: set<Addr>, L': set<Addr>)
  {
    && ((st'.dv == st.dv && st.dv !in X) || ((st.dv in X || st.dv == 0) && (st'.dv == 0 || st'.dv in N)))
    && L' == (L - X) + (set p | p in N && IsFree(st'.tags, st'.dv, p))
  }

  lemma StepOne(st: State, st': State, k: nat, a: Addr, b: Addr, X: set<Addr>, u: bool, L: set<Addr>, L': set<Addr>,
      Y: set<Addr>, Y': set<Addr>)
    requires Inv(st, L, Y) && Taken(st, k, a, b, X) && OneChunk(st.tags, st'.tags, a, b, X, u)
    requires SameRest(st, st') && NextLoose(st, st', X, {a}, L, L') && DvTopOK(st') && UsedOK(st', Y')
    ensures Inv(st', L', Y')
    ensures forall p | p !in X && (p in st.live ==> p in st'.live) :: BlockKept(st, st', p)
  {
    hide BinsMatch, SegsOK, MapsOK, FootprintOK, DvTopOK, UsedOK, Records, SameRest, LeastOK, BlockKept, AfterOK,
      Framed, SizeOf, Pin, Cin;
    ToOne(st.tags, st'.tags, a, b, X, u);
    hide OK, InSeg;
    SwapOne(st.tags, st'.tags, a, b, X, u);
    Step(st, st', k, a, b, X, {a}, L, L', Y, Y');
  }

  lemma SwapOne(h: Tags, h': Tags, a: Addr, b: Addr, X: set<Addr>, u: bool)
    requires OK(h) && Region(h, a, b, X) && OneChunk(h, h', a, b, X, u) && (h.top in X ==> TopEnd(h) == b)
    ensures Swapped(h, h', a, b, X, {a})
  {
    hide SizeOf, Pin, Cin, AfterOK, OK;
  }

  lemma StepTwo(st: State, st': State, k: nat, a: Addr, m: Addr, b: Addr, X: set<Addr>, u: bool, v: bool, L: set<Addr>,
      L': set<Addr>, Y: set<Addr>, Y': set<Addr>)
    requires Inv(st, L, Y) && Taken(st, k, a, b, X) && TwoChunks(st.tags, st'.tags, a, m, b, X, u, v)
    requires SameRest(st, st') && NextLoose(st, st', X, {a, m}, L, L') && DvTopOK(st') && UsedOK(st', Y')
    ensures Inv(st', L', Y')
    ensures forall p | p !in X && (p in st.live ==> p in st'.live) :: BlockKept(st, st', p)
  {
    hide BinsMatch, SegsOK, MapsOK, FootprintOK, DvTopOK, UsedOK, Records, SameRest, LeastOK, BlockKept, AfterOK,
      Framed, SizeOf, Pin, Cin;
    ToTwo(st.tags, st'.tags, a, m, b, X, u, v);
    SwapTwo(st.tags, st'.tags, a, m, b, X, u, v);
    hide OK, InSeg;
    Step(st, st', k, a, b, X, {a, m}, L, L', Y, Y');
  }

  lemma SwapTwo(h: Tags, h': Tags, a: Addr, m: Addr, b: Addr, X: set<Addr>, u: bool, v: bool)
    requires OK(h) && Region(h, a, b, X) && TwoChunks(h, h', a, m, b, X, u, v) && (h.top in X ==> TopEnd(h) == b)
    ensures Swapped(h, h', a, b, X, {a, m})
  {
    hide SizeOf, Pin, Cin, AfterOK;
    forall p | p in h.ch && p !in X ensures p != a && p != m {
      ChunkFacts(h, p);
    }
  }
}
