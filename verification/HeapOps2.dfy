/** Taking back, cutting and growing chunks: what the writes of boundary tags do to the state. */
module HeapOps2 {
  import opened Words
  import opened BoundaryTags
  import opened Retiling
  import opened HeapState
  import opened HeapSteps
  import opened HeapOps

  /** `st` with the chunks `X` of [a, b) replaced by one chunk at `a`. */
  function OneIn(st: State, a: Addr, b: Addr, X: set<Addr>, m: Mem, u: bool): State
    requires a <= b
  {
    var h := st.tags;
    st.(tags := h.(mem := m, ch := (h.ch - X)[a := b - a], used := (h.used - X) + (if u then {a} else {})))
  }

  /** ... or by two, at `a` and `c`. */
  function TwoIn(st: State, a: Addr, c: Addr, b: Addr, X: set<Addr>, m: Mem, v: bool): State
    requires a <= c <= b
  {
    var h := st.tags;
    st.(tags := h.(mem := m, ch := (h.ch - X)[a := c - a][c := b - c],
      used := (h.used - X) + {a} + (if v then {c} else {})))
  }

  // ----- Taking back -----

  /** `set_free_with_pinuse` on [a, b) */
  function FreedMem(h: Tags, a: Addr, b: Addr): Mem
    requires a <= b && (b - a) % 16 == 0
  {
    h.mem[b + 8 := ClearPin(h.HeadOf(b))][a + 8 := Head(b - a, false, true)][b := b - a]
  }

  /** The chunk `p` in use, with its free neighbours in `X`, becomes one free chunk, dv if dv was among them. */
  function Freed(st: State, a: Addr, b: Addr, X: set<Addr>, p: Addr): State
    requires a <= b && (b - a) % 16 == 0
  {
    OneIn(st, a, b, X, FreedMem(st.tags, a, b), false).(
      live := st.live - {p},
      dv := if st.dv in X then a else st.dv, dvsize := if st.dv in X then b - a else st.dvsize)
  }

  /** `p` is the one chunk in use among `X`. */
  ghost predicate OnlyUsed(st: State, X: set<Addr>, p: Addr)
  {
    p in X && forall x | x in X && x != p :: x !in st.tags.used
  }

  lemma MakeFree(st: State, k: nat, a: Addr, b: Addr, X: set<Addr>, p: Addr, L: set<Addr>, Y: set<Addr>, st': State)
    requires a < b && (b - a) % 16 == 0 && st' == Freed(st, a, b, X, p) && b - a >= MIN_CHUNK_SIZE
    requires Pin(st.tags.HeadOf(a))
    requires b in st.tags.ch && b in st.tags.used && st.tags.top !in X && OnlyUsed(st, X, p) && (p in st.live || p in Y)
    requires Taken(st, k, a, b, X) && Inv(st, L, Y)
    ensures Inv(st', (L - X) + (if st.dv in X then {} else {a}), Y - {p})
    ensures forall q | q != p :: BlockKept(st, st', q)
  {
    hide OK, MapsOK, FootprintOK, LeastOK, SegsOK, BlockKept, SizeOf, Pin, Cin, OneChunk, BinsMatch, Records;
    var h := st.tags;
    NotFence(st, L, Y, b);
    ChunkFactsAt(st, L, Y, b);
    MakeFreeTags(h, a, b, X, p, st'.tags);
    TakenNoBlocks(st, k, a, b, X, p, L, Y);
    hide Taken;
    FreedRest(st, k, a, b, X, p, L, Y, st');
    StepOne(st, st', k, a, b, X, false, L, (L - X) + (if st.dv in X then {} else {a}), Y, Y - {p});
    forall q | q != p ensures BlockKept(st, st', q) {
      if q in X {
        NotABlock(st, st', L, Y, q);
      }
    }
  }

  /** A chunk that is no block and no mapped chunk has nothing to keep. */
  lemma NotABlock(st: State, st': State, L: set<Addr>, Y: set<Addr>, q: Addr)
    requires q !in st.live && q !in st.maps
    ensures BlockKept(st, st', q)
  {
  }

  lemma NotFence(st: State, L: set<Addr>, Y: set<Addr>, b: Addr)
    requires Inv(st, L, Y) && b in st.tags.ch
    ensures b !in st.tags.fence
  {
    FenceNoChunk(st.tags);
  }

  lemma ChunkFactsAt(st: State, L: set<Addr>, Y: set<Addr>, p: Addr)
    requires Inv(st, L, Y) && p in st.tags.ch
    ensures p > 0 && p % 16 == 0 && st.tags.ch[p] % 16 == 0 && st.tags.ch[p] >= 16
    ensures (p != st.tags.top ==> st.tags.ch[p] >= MIN_CHUNK_SIZE)
    ensures HeadOK(st.tags, p) && NextOK(st.tags, p) && PrevOK(st.tags, p)
  {
    hide BinsMatch, DvTopOK, MapsOK, FootprintOK, LeastOK, SegsOK, UsedOK, SizeOf, Pin, Cin, HeadOK, NextOK, PrevOK;
    ChunkFacts(st.tags, p);
  }

  lemma MakeFreeTags(h: Tags, a: Addr, b: Addr, X: set<Addr>, p: Addr, h': Tags)
    requires a < b && (b - a) % 16 == 0 && b - a >= MIN_CHUNK_SIZE && Pin(h.HeadOf(a))
    requires b in h.ch && b in h.used && h.top !in X && b !in h.fence && SizeOf(h.HeadOf(b)) == h.ch[b]
    requires Cin(h.HeadOf(b))
    requires h' == h.(mem := FreedMem(h, a, b), ch := (h.ch - X)[a := b - a], used := (h.used - X) + {})
    ensures OneChunk(h, h', a, b, X, false)
  {
    hide SizeOf, Pin, Cin;
    assert h'.HeadOf(a) == Head(b - a, false, true);
    assert h'.HeadOf(b) == ClearPin(h.HeadOf(b)) && h'.W(b) == b - a;
  }

  lemma TakenNoBlocks(st: State, k: nat, a: Addr, b: Addr, X: set<Addr>, p: Addr, L: set<Addr>, Y: set<Addr>)
    requires OnlyUsed(st, X, p) && Taken(st, k, a, b, X) && Inv(st, L, Y)
    ensures forall x | x in X && x != p :: x !in st.live && x !in st.maps && x !in Y
    ensures p !in st.maps && a in X && 0 < a
  {
    hide OK, FootprintOK, LeastOK, BinsMatch, Records, SizeOf, Pin, Cin, SegOK;
    TakenNotMapped(st, k, a, b, X, L, Y);
  }

  /** Chunks of segments are not mapped chunks. */
  lemma TakenNotMapped(st: State, k: nat, a: Addr, b: Addr, X: set<Addr>, L: set<Addr>, Y: set<Addr>)
    requires Taken(st, k, a, b, X) && Inv(st, L, Y)
    ensures forall x | x in X :: x !in st.maps
    ensures a in X && 0 < a
  {
    hide OK, FootprintOK, LeastOK, BinsMatch, Records, SizeOf, Pin, Cin, SegOK, UsedOK, DvTopOK;
    InSegWords(st.tags, st.segs, k, a, b);
    forall x | x in X && x in st.maps ensures false {
      MappedApart(st, L, Y, x, k);
      ChunkFactsAt(st, L, Y, x);
    }
  }

  lemma MappedApart(st: State, L: set<Addr>, Y: set<Addr>, x: Addr, k: nat)
    requires Inv(st, L, Y) && x in st.maps && k < |st.segs|
    ensures MapApart(st.maps[x], st.segs[k].base, st.segs[k].size) && MapOK(st.tags, x, st.maps[x])
  {
    hide OK, FootprintOK, LeastOK, BinsMatch, SegsOK, UsedOK, DvTopOK;
    assert MapOK(st.tags, x, st.maps[x]);
  }

  lemma FreedRest(st: State, k: nat, a: Addr, b: Addr, X: set<Addr>, p: Addr, L: set<Addr>, Y: set<Addr>, st': State)
    requires a < b && (b - a) % 16 == 0 && st' == Freed(st, a, b, X, p) && st.tags.top !in X && OnlyUsed(st, X, p)
    requires (p in st.live || p in Y)
    requires a in X && 0 < a && (forall x | x in X && x != p :: x !in st.live && x !in Y) && Inv(st, L, Y)
    ensures SameRest(st, st') && NextLoose(st, st', X, {a}, L, (L - X) + (if st.dv in X then {} else {a}))
    ensures DvTopOK(st') && UsedOK(st', Y - {p})
  {
    hide OK, MapsOK, FootprintOK, LeastOK, SegsOK, BinsMatch, Records, FreedMem;
    UsedOnce(st, L, Y, p);
  }

  lemma UsedOnce(st: State, L: set<Addr>, Y: set<Addr>, p: Addr)
    requires Inv(st, L, Y) && (p in st.live || p in Y)
    ensures p in st.tags.ch && p in st.tags.used && p !in Records(st.segs) && (p in st.live <==> p !in Y) && p != st.dv
    ensures p != st.tags.top
  {
    hide MapsOK, FootprintOK, LeastOK, SegsOK, BinsMatch, Records;
    TopFree(st, L, Y);
    NoNullChunk(st.tags);
  }

  lemma TopFree(st: State, L: set<Addr>, Y: set<Addr>)
    requires Inv(st, L, Y)
    ensures st.tags.top !in st.tags.used
  {
    hide BinsMatch, MapsOK, FootprintOK, LeastOK, SegsOK, UsedOK, SizeOf, Pin, Cin;
    if st.tags.top in st.tags.ch {
      ChunkFacts(st.tags, st.tags.top);
    }
  }

  /** The chunk `p` in use, the free chunk before it if in `X`, and top become top. */
  function Topped(st: State, a: Addr, b: Addr, X: set<Addr>, p: Addr): State
    requires a <= b && (b - a) % 16 == 0
  {
    var st1 := OneIn(st, a, b, X, st.tags.mem[a + 8 := Head(b - a, false, true)], false);
    st1.(tags := st1.tags.(top := a), topsize := b - a, live := st.live - {p},
         dv := if st.dv in X then 0 else st.dv, dvsize := if st.dv in X then 0 else st.dvsize)
  }

  lemma MakeTop(st: State, k: nat, a: Addr, b: Addr, X: set<Addr>, p: Addr, L: set<Addr>, Y: set<Addr>, st': State)
    requires a < b && (b - a) % 16 == 0 && st' == Topped(st, a, b, X, p) && b - a >= MIN_CHUNK_SIZE
    requires Pin(st.tags.HeadOf(a))
    requires st.tags.top in X && st.tags.top in st.tags.ch && OnlyUsed(st, X, p) && (p in st.live || p in Y)
    requires Taken(st, k, a, b, X) && Inv(st, L, Y)
    ensures Inv(st', L - X, Y - {p})
    ensures forall q | q != p :: BlockKept(st, st', q)
  {
    hide OK, MapsOK, FootprintOK, LeastOK, SegsOK, BlockKept, SizeOf, Pin, Cin, OneChunk, BinsMatch, Records;
    TopLast(st, L, Y);
    MakeTopTags(st.tags, a, b, X, p, st'.tags);
    TakenNoBlocks(st, k, a, b, X, p, L, Y);
    UsedOnce(st, L, Y, p);
    hide Taken;
    ToppedRest(st, k, a, b, X, p, L, Y, st');
    StepOne(st, st', k, a, b, X, false, L, L - X, Y, Y - {p});
    forall q | q != p ensures BlockKept(st, st', q) {
      if q in X {
        NotABlock(st, st', L, Y, q);
      }
    }
  }

  lemma MakeTopTags(h: Tags, a: Addr, b: Addr, X: set<Addr>, p: Addr, h': Tags)
    requires a < b && (b - a) % 16 == 0 && b - a >= MIN_CHUNK_SIZE && Pin(h.HeadOf(a)) && h.top in X
    requires b !in h.ch && b !in h.fence && h.HeadOf(b) == TOP_FOOT_SIZE
    requires (forall p | p in h.ch && b <= p :: b + 16 <= p)
    requires h' == h.(mem := h.mem[a + 8 := Head(b - a, false, true)], ch := (h.ch - X)[a := b - a],
             used := (h.used - X) + {}, top := a)
    ensures OneChunk(h, h', a, b, X, false)
  {
    hide SizeOf, Pin, Cin;
    assert h'.HeadOf(a) == Head(b - a, false, true);
    assert h'.HeadOf(b) == h.HeadOf(b);
  }

  lemma ToppedRest(st: State, k: nat, a: Addr, b: Addr, X: set<Addr>, p: Addr, L: set<Addr>, Y: set<Addr>, st': State)
    requires Inv(st, L, Y) && a < b && (b - a) % 16 == 0 && st' == Topped(st, a, b, X, p) && OnlyUsed(st, X, p)
    requires (p in st.live || p in Y)
    requires a in X && 0 < a && (forall x | x in X && x != p :: x !in st.live && x !in Y) && st.tags.top in X
    ensures SameRest(st, st') && NextLoose(st, st', X, {a}, L, L - X) && DvTopOK(st') && UsedOK(st', Y - {p})
  {
    hide OK, MapsOK, FootprintOK, LeastOK, SegsOK, BinsMatch, Records;
    UsedOnce(st, L, Y, p);
  }

  // ----- Cutting and growing chunks in use -----

  /** `set_inuse(m, p, nb); set_inuse(m, r, rsize)` */
  function CutMem(h: Tags, p: Addr, r: Addr, b: Addr): Mem
    requires p <= r <= b && (r - p) % 16 == 0 && (b - r) % 16 == 0
  {
    h.mem[p + 8 := Head(r - p, true, Pin(h.HeadOf(p)))][r + 8 := Head(b - r, true, true)][b + 8 := SetPin(h.HeadOf(b))]
  }

  function Cut(st: State, p: Addr, r: Addr, b: Addr, X: set<Addr>): State
    requires p <= r <= b && (r - p) % 16 == 0 && (b - r) % 16 == 0
  {
    TwoIn(st, p, r, b, X, CutMem(st.tags, p, r, b), true)
  }

  /** `p`, in use, perhaps grown by a free chunk, is cut in two; the second part is for the allocator. */
  lemma CutUsed(st: State, k: nat, p: Addr, r: Addr, b: Addr, X: set<Addr>, L: set<Addr>, Y: set<Addr>, st': State)
    requires p + MIN_CHUNK_SIZE <= r && r + MIN_CHUNK_SIZE <= b && (r - p) % 16 == 0 && (b - r) % 16 == 0
    requires st' == Cut(st, p, r, b, X)
    requires b in st.tags.ch && st.tags.top !in X && OnlyUsed(st, X, p) && (p in st.live || p in Y) && st.dv !in X
    requires Taken(st, k, p, b, X) && Inv(st, L, Y)
    ensures Inv(st', L - X, Y + {r})
    ensures forall q | q != p :: BlockKept(st, st', q)
    ensures p in st'.tags.ch && forall n: nat | n <= r - p && p + n + 8 <= b :: SameBlock(st.tags, st'.tags, p, n)
  {
    hide OK, MapsOK, FootprintOK, LeastOK, SegsOK, BlockKept, SizeOf, Pin, Cin, TwoChunks, BinsMatch, Records;
    var h := st.tags;
    NotFence(st, L, Y, b);
    ChunkFactsAt(st, L, Y, b);
    NewPlace(st, k, p, r, b, X, L, Y);
    RegionAligned(st.tags, p, b, X);
    CutTags(h, p, r, b, X, st'.tags);
    TakenNoBlocks(st, k, p, b, X, p, L, Y);
    UsedOnce(st, L, Y, p);
    hide Taken;
    CutRest(st, p, r, b, X, L, Y, st');
    StepTwo(st, st', k, p, r, b, X, true, true, L, L - X, Y, Y + {r});
    forall q | q != p ensures BlockKept(st, st', q) {
      if q in X {
        NotABlock(st, st', L, Y, q);
      }
    }
  }

  /** A place strictly inside the region that is not one of its chunks' starts is no chunk at all. */
  lemma NewPlace(st: State, k: nat, a: Addr, m: Addr, b: Addr, X: set<Addr>, L: set<Addr>, Y: set<Addr>)
    requires a < m < b && Taken(st, k, a, b, X) && Inv(st, L, Y)
    ensures m in st.tags.ch || m == st.dv || m == st.tags.top ==> m in X
    ensures m in st.live || m in Records(st.segs) || m in Y ==> m in X
  {
    hide MapsOK, FootprintOK, LeastOK, SegsOK, BinsMatch, Records;
    UsedAreChunks(st, L, Y);
    if m in st.tags.ch {
      ChunkFactsAt(st, L, Y, m);
    }
  }

  lemma RegionAligned(h: Tags, a: Addr, b: Addr, X: set<Addr>)
    requires Region(h, a, b, X)
    ensures a % 16 == 0 && b % 16 == 0 && a in X && 0 < a
  {
  }

  lemma CutTags(h: Tags, p: Addr, r: Addr, b: Addr, X: set<Addr>, h': Tags)
    requires p + MIN_CHUNK_SIZE <= r && r + MIN_CHUNK_SIZE <= b && p % 16 == 0 && r % 16 == 0 && b % 16 == 0
    requires b in h.ch && h.top !in X && b !in h.fence && SizeOf(h.HeadOf(b)) == h.ch[b]
    requires h' == h.(mem := CutMem(h, p, r, b), ch := (h.ch - X)[p := r - p][r := b - r],
             used := (h.used - X) + {p} + {r})
    ensures TwoChunks(h, h', p, r, b, X, true, true)
  {
    hide SizeOf, Pin, Cin;
    assert h'.HeadOf(p) == Head(r - p, true, Pin(h.HeadOf(p)));
    assert h'.HeadOf(r) == Head(b - r, true, true);
    assert h'.HeadOf(b) == SetPin(h.HeadOf(b));
  }

  lemma CutRest(st: State, p: Addr, r: Addr, b: Addr, X: set<Addr>, L: set<Addr>, Y: set<Addr>, st': State)
    requires p < r < b && (r - p) % 16 == 0 && (b - r) % 16 == 0 && st' == Cut(st, p, r, b, X) && st.tags.top !in X
    requires OnlyUsed(st, X, p)
    requires (p in st.live || p in Y) && st.dv !in X && (forall x | x in X && x != p :: x !in st.live && x !in Y)
    requires (r in st.live || r in Records(st.segs) || r in Y ==> r in X) && r != st.dv && r != st.tags.top
    requires Inv(st, L, Y)
    ensures SameRest(st, st') && NextLoose(st, st', X, {p, r}, L, L - X) && DvTopOK(st') && UsedOK(st', Y + {r})
  {
    hide OK, MapsOK, FootprintOK, LeastOK, SegsOK, BinsMatch, Records, CutMem;
    UsedOnce(st, L, Y, p);
  }

  /** `set_inuse(m, p, newsize)` */
  function GrownMem(h: Tags, p: Addr, b: Addr): Mem
    requires p <= b && (b - p) % 16 == 0
  {
    h.mem[p + 8 := Head(b - p, true, Pin(h.HeadOf(p)))][b + 8 := SetPin(h.HeadOf(b))]
  }

  /** `p` in use takes over the chunks of [p, b); `q` is one of them if it was in use too. */
  function Grown(st: State, p: Addr, b: Addr, X: set<Addr>, q: Addr): State
    requires p <= b && (b - p) % 16 == 0
  {
    OneIn(st, p, b, X, GrownMem(st.tags, p, b), true).(
      live := if q == p then st.live else st.live - {q},
      dv := if st.dv in X then 0 else st.dv, dvsize := if st.dv in X then 0 else st.dvsize)
  }

  lemma GrowWhole(st: State, k: nat, p: Addr, b: Addr, X: set<Addr>, q: Addr, L: set<Addr>, Y: set<Addr>, st': State)
    requires p + MIN_CHUNK_SIZE <= b && (b - p) % 16 == 0 && st' == Grown(st, p, b, X, q) && p in st.live
    requires q in st.live && q in X
    requires b in st.tags.ch && st.tags.top !in X && (forall x | x in X && x != p && x != q :: x !in st.tags.used)
    requires Taken(st, k, p, b, X) && Inv(st, L, Y)
    ensures Inv(st', L - X, Y)
    ensures forall r | r != p && r != q :: BlockKept(st, st', r)
    ensures p in st'.tags.ch && forall n: nat | p + n + 8 <= b :: SameBlock(st.tags, st'.tags, p, n)
  {
    hide OK, MapsOK, FootprintOK, LeastOK, SegsOK, BlockKept, SizeOf, Pin, Cin, OneChunk, BinsMatch, Records;
    var h := st.tags;
    NotFence(st, L, Y, b);
    ChunkFactsAt(st, L, Y, b);
    RegionAligned(h, p, b, X);
    GrowTags(h, p, b, X, st'.tags);
    TakenNotMapped(st, k, p, b, X, L, Y);
    hide Taken;
    GrowRest(st, p, b, X, q, L, Y, st');
    StepOne(st, st', k, p, b, X, true, L, L - X, Y, Y);
    forall r | r != p && r != q ensures BlockKept(st, st', r) {
      if r in X {
        FreeNotLive(st, L, Y, r);
        NotABlock(st, st', L, Y, r);
      }
    }
  }

  lemma FreeNotLive(st: State, L: set<Addr>, Y: set<Addr>, r: Addr)
    requires Inv(st, L, Y) && r !in st.tags.used
    ensures r !in st.live
  {
    hide OK, MapsOK, FootprintOK, LeastOK, SegsOK, BinsMatch, Records;
  }

  lemma GrowTags(h: Tags, p: Addr, b: Addr, X: set<Addr>, h': Tags)
    requires p + MIN_CHUNK_SIZE <= b && (b - p) % 16 == 0
    requires b in h.ch && h.top !in X && b !in h.fence && SizeOf(h.HeadOf(b)) == h.ch[b]
    requires h' == h.(mem := GrownMem(h, p, b), ch := (h.ch - X)[p := b - p], used := (h.used - X) + {p})
    ensures OneChunk(h, h', p, b, X, true)
  {
    hide SizeOf, Pin, Cin;
    assert h'.HeadOf(p) == Head(b - p, true, Pin(h.HeadOf(p)));
    assert h'.HeadOf(b) == SetPin(h.HeadOf(b));
  }

  lemma GrowRest(st: State, p: Addr, b: Addr, X: set<Addr>, q: Addr, L: set<Addr>, Y: set<Addr>, st': State)
    requires p < b && (b - p) % 16 == 0 && st' == Grown(st, p, b, X, q) && p in st.live && q in st.live && q in X
    requires p in X
    requires st.tags.top !in X && (forall x | x in X && x != p && x != q :: x !in st.tags.used) && Inv(st, L, Y)
    ensures SameRest(st, st') && NextLoose(st, st', X, {p}, L, L - X) && DvTopOK(st') && UsedOK(st', Y)
  {
    hide OK, MapsOK, FootprintOK, LeastOK, SegsOK, BinsMatch, Records, GrownMem;
    UsedOnce(st, L, Y, p);
    UsedOnce(st, L, Y, q);
  }

  /** `p` grows into dv and leaves the rest of it as the new dv. */
  function GrownDv(st: State, p: Addr, r: Addr, b: Addr, X: set<Addr>): State
    requires p <= r <= b && (r - p) % 16 == 0 && (b - r) % 16 == 0
  {
    var h := st.tags;
    TwoIn(st, p, r, b, X,
      h.mem[p + 8 := Head(r - p, true, Pin(h.HeadOf(p)))][r + 8 := Head(b - r, false, true)][b := b - r]
        [b + 8 := ClearPin(h.HeadOf(b))], false).(
      dv := r, dvsize := b - r)
  }

  lemma GrowIntoDv(st: State, k: nat, p: Addr, r: Addr, b: Addr, X: set<Addr>, L: set<Addr>, Y: set<Addr>, st': State)
    requires p + MIN_CHUNK_SIZE <= r && r + MIN_CHUNK_SIZE <= b && (r - p) % 16 == 0 && (b - r) % 16 == 0
    requires st' == GrownDv(st, p, r, b, X)
    requires b in st.tags.ch && b in st.tags.used && st.tags.top !in X && OnlyUsed(st, X, p) && p in st.live
    requires st.dv in X && st.dv in st.tags.ch
    requires Taken(st, k, p, b, X) && Inv(st, L, Y)
    ensures Inv(st', L - X, Y)
    ensures forall q | q != p :: BlockKept(st, st', q)
    ensures p in st'.tags.ch && forall n: nat | n <= r - p && p + n + 8 <= b :: SameBlock(st.tags, st'.tags, p, n)
  {
    hide OK, MapsOK, FootprintOK, LeastOK, SegsOK, BlockKept, SizeOf, Pin, Cin, TwoChunks, BinsMatch, Records;
    var h := st.tags;
    NotFence(st, L, Y, b);
    ChunkFactsAt(st, L, Y, b);
    NewPlace(st, k, p, r, b, X, L, Y);
    RegionAligned(h, p, b, X);
    assert TwoChunks(h, st'.tags, p, r, b, X, true, false) by {
      GrowDvTags(h, p, r, b, X, st'.tags);
    }
    TakenNoBlocks(st, k, p, b, X, p, L, Y);
    UsedOnce(st, L, Y, p);
    hide Taken;
    GrowDvRest(st, p, r, b, X, L, Y, st');
    StepTwo(st, st', k, p, r, b, X, true, false, L, L - X, Y, Y);
    forall q | q != p ensures BlockKept(st, st', q) {
      if q in X {
        NotABlock(st, st', L, Y, q);
      }
    }
  }

  lemma GrowDvTags(h: Tags, p: Addr, r: Addr, b: Addr, X: set<Addr>, h': Tags)
    requires p + MIN_CHUNK_SIZE <= r && r + MIN_CHUNK_SIZE <= b && p % 16 == 0 && r % 16 == 0 && b % 16 == 0
    requires b in h.ch && b in h.used && h.top !in X && b !in h.fence && SizeOf(h.HeadOf(b)) == h.ch[b]
    requires h' == h.(mem := h.mem[p + 8 := Head(r - p, true, Pin(h.HeadOf(p)))][r + 8 := Head(b - r, false, true)]
             [b := b - r][b + 8 := ClearPin(h.HeadOf(b))],
                      ch := (h.ch - X)[p := r - p][r := b - r], used := (h.used - X) + {p} + {})
    requires r !in h.used || r in X
    ensures TwoChunks(h, h', p, r, b, X, true, false)
  {
    hide SizeOf, Pin, Cin;
    assert h'.HeadOf(p) == Head(r - p, true, Pin(h.HeadOf(p)));
    assert h'.HeadOf(r) == Head(b - r, false, true);
    assert h'.HeadOf(b) == ClearPin(h.HeadOf(b)) && h'.W(b) == b - r;
  }

  lemma GrowDvRest(st: State, p: Addr, r: Addr, b: Addr, X: set<Addr>, L: set<Addr>, Y: set<Addr>, st': State)
    requires p < r < b && (r - p) % 16 == 0 && (b - r) % 16 == 0 && st' == GrownDv(st, p, r, b, X) && st.tags.top !in X
    requires OnlyUsed(st, X, p)
    requires p in st.live && st.dv in X && (forall x | x in X && x != p :: x !in st.live && x !in Y) && r != st.tags.top
    requires (r in st.live || r in Records(st.segs) || r in Y ==> r in X) && (r in st.tags.ch ==> r in X)
    requires Inv(st, L, Y)
    ensures SameRest(st, st') && NextLoose(st, st', X, {p, r}, L, L - X) && DvTopOK(st') && UsedOK(st', Y)
  {
    hide OK, MapsOK, FootprintOK, LeastOK, SegsOK, BinsMatch, Records;
    UsedOnce(st, L, Y, p);
  }

  /** `p` grows into top. */
  function GrownTop(st: State, p: Addr, r: Addr, b: Addr, X: set<Addr>): State
    requires p <= r <= b && (r - p) % 16 == 0 && (b - r) % 16 == 0
  {
    var h := st.tags;
    var st1 := TwoIn(st, p, r, b, X,
      h.mem[p + 8 := Head(r - p, true, Pin(h.HeadOf(p)))][r + 8 := Head(b - r, false, true)], false);
    st1.(tags := st1.tags.(top := r), topsize := b - r)
  }

  lemma GrowIntoTop(st: State, k: nat, p: Addr, r: Addr, b: Addr, X: set<Addr>, L: set<Addr>, Y: set<Addr>, st': State)
    requires p + MIN_CHUNK_SIZE <= r && r + 16 <= b && (r - p) % 16 == 0 && (b - r) % 16 == 0
    requires st' == GrownTop(st, p, r, b, X)
    requires st.tags.top in X && st.tags.top in st.tags.ch && OnlyUsed(st, X, p) && p in st.live && st.dv !in X
    requires Taken(st, k, p, b, X) && Inv(st, L, Y)
    ensures Inv(st', L - X, Y)
    ensures forall q | q != p :: BlockKept(st, st', q)
    ensures p in st'.tags.ch && forall n: nat | n <= r - p :: SameBlock(st.tags, st'.tags, p, n)
  {
    hide OK, MapsOK, FootprintOK, LeastOK, SegsOK, BlockKept, SizeOf, Pin, Cin, TwoChunks, BinsMatch, Records;
    var h := st.tags;
    TopLast(st, L, Y);
    NewPlace(st, k, p, r, b, X, L, Y);
    RegionAligned(h, p, b, X);
    assert TwoChunks(h, st'.tags, p, r, b, X, true, false) by {
      GrowTopTags(h, p, r, b, X, st'.tags);
    }
    TakenNoBlocks(st, k, p, b, X, p, L, Y);
    UsedOnce(st, L, Y, p);
    hide Taken;
    GrowTopRest(st, p, r, b, X, L, Y, st');
    StepTwo(st, st', k, p, r, b, X, true, false, L, L - X, Y, Y);
    forall q | q != p ensures BlockKept(st, st', q) {
      if q in X {
        NotABlock(st, st', L, Y, q);
      }
    }
  }

  lemma GrowTopTags(h: Tags, p: Addr, r: Addr, b: Addr, X: set<Addr>, h': Tags)
    requires p + MIN_CHUNK_SIZE <= r && r + 16 <= b && p % 16 == 0 && r % 16 == 0 && b % 16 == 0 && h.top in X
    requires b !in h.ch && b !in h.fence && h.HeadOf(b) == TOP_FOOT_SIZE
    requires (forall p | p in h.ch && b <= p :: b + 16 <= p)
    requires h' == h.(mem := h.mem[p + 8 := Head(r - p, true, Pin(h.HeadOf(p)))][r + 8 := Head(b - r, false, true)],
                      ch := (h.ch - X)[p := r - p][r := b - r], used := (h.used - X) + {p} + {}, top := r)
    requires r !in h.used || r in X
    ensures TwoChunks(h, h', p, r, b, X, true, false)
  {
    hide SizeOf, Pin, Cin;
    assert h'.HeadOf(p) == Head(r - p, true, Pin(h.HeadOf(p)));
    assert h'.HeadOf(r) == Head(b - r, false, true);
    assert h'.HeadOf(b) == h.HeadOf(b);
    assert Framed(h, h', p, b);
    hide Framed;
    assert LastOK(h, h', X, r, b, false);
  }

  lemma GrowTopRest(st: State, p: Addr, r: Addr, b: Addr, X: set<Addr>, L: set<Addr>, Y: set<Addr>, st': State)
    requires p < r < b && (r - p) % 16 == 0 && (b - r) % 16 == 0 && st' == GrownTop(st, p, r, b, X) && st.tags.top in X
    requires OnlyUsed(st, X, p)
    requires p in st.live && st.dv !in X && (forall x | x in X && x != p :: x !in st.live && x !in Y)
    requires (r == st.dv ==> r in X)
    requires (r in st.live || r in Records(st.segs) || r in Y ==> r in X) && (r in st.tags.ch ==> r in X)
    requires Inv(st, L, Y)
    ensures SameRest(st, st') && NextLoose(st, st', X, {p, r}, L, L - X) && DvTopOK(st') && UsedOK(st', Y)
  {
    hide OK, MapsOK, FootprintOK, LeastOK, SegsOK, BinsMatch, Records;
    UsedOnce(st, L, Y, p);
  }
}
