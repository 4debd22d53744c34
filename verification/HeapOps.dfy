/** What the allocator's writes of boundary tags do to the state, operation by operation. */
module HeapOps {
  import opened Words
  import opened BoundaryTags
  import opened Retiling
  import opened HeapState
  import opened HeapSteps

  type Mem = map<Addr, nat>

  /** Out of the bins: loose, dv, top, or in use without being a segment record. */
  ghost predicate Available(st: State, p: Addr)
  {
    p in st.tags.ch && p !in Records(st.segs) && p !in st.small && p !in st.tree
  }

  lemma TakeOne(st: State, L: set<Addr>, Y: set<Addr>, p: Addr) returns (k: nat)
    requires Inv(st, L, Y) && Available(st, p)
    ensures Taken(st, k, p, p + st.tags.ch[p], {p})
  {
    hide OK, BinsMatch, MapsOK, FootprintOK, DvTopOK, UsedOK, Records, LeastOK, Region;
    Region1(st.tags, p);
    assert InSomeSeg(st.tags, st.segs, p);
    k :| ChunkInSeg(st.tags, st.segs, k, p);
  }

  lemma TakeNext(st: State, L: set<Addr>, Y: set<Addr>, k: nat, a: Addr, m: Addr, X: set<Addr>)
    requires Inv(st, L, Y) && Taken(st, k, a, m, X) && Available(st, m)
    ensures Taken(st, k, a, m + st.tags.ch[m], X + {m})
  {
    hide OK, BinsMatch, MapsOK, FootprintOK, DvTopOK, UsedOK, Records, LeastOK, Region, SegsOK, InSeg;
    Region1(st.tags, m);
    RegionOrder(st.tags, a, m, X);
    RegionJoin(st.tags, a, m, m + st.tags.ch[m], X, {m});
    Adjacent(st.tags, st.segs, k, a, m);
    if st.tags.top in X {
      ChunkFacts(st.tags, st.tags.top);
    }
  }

  lemma RegionOrder(h: Tags, a: Addr, m: Addr, X: set<Addr>)
    requires Region(h, a, m, X)
    ensures a < m
  {
  }

  /** A free chunk that is loose or dv, or top, is available. */
  lemma FreeAvailable(st: State, L: set<Addr>, Y: set<Addr>, p: Addr)
    requires Inv(st, L, Y) && p in st.tags.ch && p !in st.tags.used && (p in L || p == st.dv || p == st.tags.top)
    ensures Available(st, p)
  {
    hide OK, MapsOK, FootprintOK, DvTopOK, LeastOK, SegsOK;
  }

  /** So is a client's block, and a chunk in use for the allocator itself. */
  lemma UsedAvailable(st: State, L: set<Addr>, Y: set<Addr>, p: Addr)
    requires Inv(st, L, Y) && (p in st.live || p in Y)
    ensures Available(st, p)
  {
    hide OK, MapsOK, FootprintOK, DvTopOK, LeastOK, SegsOK;
    UsedAreChunks(st, L, Y);
  }

  lemma UsedAreChunks(st: State, L: set<Addr>, Y: set<Addr>)
    requires Inv(st, L, Y)
    ensures st.tags.used <= st.tags.ch.Keys && st.live <= st.tags.used && Y <= st.tags.used
  {
    hide MapsOK, FootprintOK, DvTopOK, LeastOK, SegsOK, BinsMatch;
  }

  // ----- Handing out -----

  /** `set_inuse_and_pinuse` */
  function InUseWhole(h: Tags, v: Addr, s: nat): Mem
    requires s % 16 == 0
  {
    h.mem[v + 8 := Head(s, true, true)][v + s + 8 := SetPin(h.HeadOf(v + s))]
  }

  function GaveWhole(st: State, v: Addr): State
    requires v in st.tags.ch && st.tags.ch[v] % 16 == 0
  {
    st.(tags := st.tags.(mem := InUseWhole(st.tags, v, st.tags.ch[v]), used := st.tags.used + {v}),
        live := st.live + {v}, dv := if v == st.dv then 0 else st.dv, dvsize := if v == st.dv then 0 else st.dvsize)
  }

  /** A free chunk that is loose or dv is handed out whole. */
  lemma GiveWhole(st: State, v: Addr, L: set<Addr>, Y: set<Addr>, st': State)
    requires v in st.tags.ch && v !in st.tags.used && v != st.tags.top && (v in L || v == st.dv)
    requires st.tags.ch[v] % 16 == 0 && st' == GaveWhole(st, v) && Inv(st, L, Y)
    ensures Inv(st', L - {v}, Y) && v !in st.live
    ensures forall p | p != v :: BlockKept(st, st', p)
  {
    hide OK, MapsOK, FootprintOK, LeastOK, SegsOK, BlockKept, SizeOf, Pin, Cin, Taken, OneChunk;
    var h, s := st.tags, st.tags.ch[v];
    ChunkFacts(h, v);
    FreeAvailable(st, L, Y, v);
    var k := TakeOne(st, L, Y, v);
    assert OneChunk(h, st'.tags, v, v + s, {v}, true) by {
      AfterFree(st, L, Y, v);
      GiveWholeTags(h, v, st'.tags);
    }
    StepOne(st, st', k, v, v + s, {v}, true, L, L - {v}, Y, Y);
  }

  /** The chunk after a free one is in use, and not near the end of a segment. */
  lemma AfterFree(st: State, L: set<Addr>, Y: set<Addr>, v: Addr)
    requires Inv(st, L, Y) && v in st.tags.ch && v !in st.tags.used && v != st.tags.top
    ensures var n := v + st.tags.ch[v];
            n in st.tags.ch && n in st.tags.used && n !in st.tags.fence && Pin(st.tags.HeadOf(v))
    ensures var n := v + st.tags.ch[v];
            Cin(st.tags.HeadOf(n)) && !Pin(st.tags.HeadOf(n)) && SizeOf(st.tags.HeadOf(n)) == st.tags.ch[n]
  {
    hide BinsMatch, DvTopOK, MapsOK, FootprintOK, LeastOK, SegsOK, UsedOK, SizeOf, Pin, Cin;
    ChunkFacts(st.tags, v);
    var n := v + st.tags.ch[v];
    ChunkFacts(st.tags, n);
    FenceNoChunk(st.tags);
  }

  lemma FenceHeads(h: Tags)
    requires OK(h)
    ensures forall f | f in h.fence :: h.HeadOf(f) == FENCEPOST_HEAD
  {
    hide ChunkOK, Apart, EndApart;
    forall f | f in h.fence ensures h.HeadOf(f) == FENCEPOST_HEAD {
      assert FenceOK(h, f);
    }
  }

  lemma FenceNoChunk(h: Tags)
    requires OK(h)
    ensures h.fence !! h.ch.Keys
  {
    hide ChunkOK, Apart, EndApart;
    forall f | f in h.fence ensures f !in h.ch {
      assert FenceOK(h, f);
    }
  }

  lemma GiveWholeTags(h: Tags, v: Addr, h': Tags)
    requires v in h.ch && v !in h.used && v != h.top && h.ch[v] % 16 == 0 && h.ch[v] >= MIN_CHUNK_SIZE
    requires Pin(h.HeadOf(v))
    requires v + h.ch[v] in h.ch && v + h.ch[v] in h.used && v + h.ch[v] !in h.fence
    requires h' == h.(mem := InUseWhole(h, v, h.ch[v]), used := h.used + {v})
    ensures OneChunk(h, h', v, v + h.ch[v], {v}, true)
  {
    hide SizeOf, Pin, Cin;
    assert h'.HeadOf(v) == Head(h.ch[v], true, true);
    assert h'.HeadOf(v + h.ch[v]) == SetPin(h.HeadOf(v + h.ch[v]));
    assert (h.ch - {v})[v := h.ch[v]] == h.ch;
  }

  /** The front `nb` bytes in use, the rest free: `set_size_and_pinuse_of_inuse_chunk` and
      `set_size_and_pinuse_of_free_chunk` */
  function InUseFront(h: Tags, v: Addr, nb: nat, s: nat): Mem
    requires nb % 16 == 0 && s % 16 == 0 && nb <= s
  {
    h.mem[v + 8 := Head(nb, true, true)][v + nb + 8 := Head(s - nb, false, true)][v + s := s - nb]
  }

  function GaveFront(st: State, v: Addr, nb: nat, asDv: bool): State
    requires v in st.tags.ch && nb % 16 == 0 && st.tags.ch[v] % 16 == 0 && nb <= st.tags.ch[v]
  {
    var h, s := st.tags, st.tags.ch[v];
    st.(tags := h.(mem := InUseFront(h, v, nb, s), ch := h.ch[v := nb][v + nb := s - nb], used := h.used + {v}),
        live := st.live + {v}, dv := if asDv then v + nb else st.dv, dvsize := if asDv then s - nb else st.dvsize)
  }

  /** The rest may become dv if there is none or it is being split. */
  predicate DvChoice(st: State, v: Addr, asDv: bool)
  {
    if asDv then st.dv == 0 || st.dv == v else st.dv != v
  }

  function RestLoose(L: set<Addr>, v: Addr, nb: nat, asDv: bool): set<Addr>
  {
    L - {v} + (if asDv then {} else {v + nb})
  }

  /** The front of a free chunk that is loose or dv is handed out; the rest becomes dv or loose. */
  lemma GiveFront(st: State, v: Addr, nb: nat, asDv: bool, L: set<Addr>, Y: set<Addr>, st': State)
    requires v in st.tags.ch && v !in st.tags.used && v != st.tags.top && (v in L || v == st.dv)
    requires nb % 16 == 0 && nb >= MIN_CHUNK_SIZE && nb + MIN_CHUNK_SIZE <= st.tags.ch[v] && st.tags.ch[v] % 16 == 0
    requires DvChoice(st, v, asDv) && st' == GaveFront(st, v, nb, asDv) && Inv(st, L, Y)
    ensures Inv(st', RestLoose(L, v, nb, asDv), Y) && v !in st.live
    ensures forall p | p != v :: BlockKept(st, st', p)
  {
    hide OK, MapsOK, FootprintOK, LeastOK, SegsOK, BlockKept, SizeOf, Pin, Cin, Taken, TwoChunks, BinsMatch;
    var h, s := st.tags, st.tags.ch[v];
    ChunkFacts(h, v);
    FreeAvailable(st, L, Y, v);
    var k := TakeOne(st, L, Y, v);
    AfterFree(st, L, Y, v);
    InsideNotChunk(h, v, v + nb);
    UsedAreChunks(st, L, Y);
    GiveFrontTags(h, v, nb, st'.tags);
    LiveNotFree(st, L, Y, v);
    StepTwo(st, st', k, v, v + nb, v + s, {v}, true, false, L, RestLoose(L, v, nb, asDv), Y, Y);
  }

  lemma LiveNotFree(st: State, L: set<Addr>, Y: set<Addr>, v: Addr)
    requires Inv(st, L, Y) && v !in st.tags.used
    ensures v !in st.live && v !in Y && v !in Records(st.segs)
  {
    hide OK, MapsOK, FootprintOK, LeastOK, SegsOK, BinsMatch, Records;
  }

  /** No chunk starts inside another. */
  lemma InsideNotChunk(h: Tags, v: Addr, m: Addr)
    requires OK(h) && v in h.ch && v < m < v + h.ch[v]
    ensures m !in h.ch
  {
    hide SizeOf, Pin, Cin, NextOK, PrevOK, EndApart, FenceOK;
    if m in h.ch {
      ChunkFacts(h, m);
      ChunksApart(h, v, m);
    }
  }

  lemma ChunksApart(h: Tags, p: Addr, q: Addr)
    requires OK(h) && p in h.ch && q in h.ch && p != q
    ensures Apart(h, p, q)
  {
    hide ChunkOK;
  }

  lemma GiveFrontTags(h: Tags, v: Addr, nb: nat, h': Tags)
    requires v in h.ch && v !in h.used && v != h.top && h.ch[v] % 16 == 0 && Pin(h.HeadOf(v))
    requires nb % 16 == 0 && nb >= MIN_CHUNK_SIZE && nb + MIN_CHUNK_SIZE <= h.ch[v]
    requires v + h.ch[v] in h.ch && v + h.ch[v] in h.used && v + h.ch[v] !in h.fence && !Pin(h.HeadOf(v + h.ch[v]))
    requires v % 16 == 0
    requires h' == h.(mem := InUseFront(h, v, nb, h.ch[v]), ch := h.ch[v := nb][v + nb := h.ch[v] - nb],
             used := h.used + {v})
    requires v + nb !in h.used
    ensures TwoChunks(h, h', v, v + nb, v + h.ch[v], {v}, true, false)
  {
    hide SizeOf, Pin, Cin;
    var s := h.ch[v];
    assert h'.HeadOf(v) == Head(nb, true, true);
    assert h'.HeadOf(v + nb) == Head(s - nb, false, true);
    assert h'.HeadOf(v + s) == h.HeadOf(v + s) && h'.W(v + s) == s - nb;
    assert (h.ch - {v})[v := nb][v + nb := s - nb] == h.ch[v := nb][v + nb := s - nb];
  }

  /** The front of top. */
  function InUseTop(h: Tags, v: Addr, nb: nat, s: nat): Mem
    requires nb % 16 == 0 && s % 16 == 0 && nb <= s
  {
    h.mem[v + nb + 8 := Head(s - nb, false, true)][v + 8 := Head(nb, true, true)]
  }

  function GaveTop(st: State, nb: nat): State
    requires st.tags.top in st.tags.ch && nb % 16 == 0 && st.tags.ch[st.tags.top] % 16 == 0
    requires nb <= st.tags.ch[st.tags.top]
  {
    var h, v, s := st.tags, st.tags.top, st.tags.ch[st.tags.top];
    st.(tags := h.(mem := InUseTop(h, v, nb, s), ch := h.ch[v := nb][v + nb := s - nb], used := h.used + {v},
      top := v + nb),
        live := st.live + {v}, topsize := s - nb)
  }

  lemma GiveTop(st: State, nb: nat, L: set<Addr>, Y: set<Addr>, st': State)
    requires st.tags.top in st.tags.ch && st.tags.ch[st.tags.top] % 16 == 0
    requires nb % 16 == 0 && nb >= MIN_CHUNK_SIZE && nb < st.tags.ch[st.tags.top]
    requires st' == GaveTop(st, nb) && Inv(st, L, Y)
    ensures Inv(st', L - {st.tags.top}, Y) && st.tags.top !in st.live
    ensures forall p | p != st.tags.top :: BlockKept(st, st', p)
  {
    hide OK, MapsOK, FootprintOK, LeastOK, SegsOK, BlockKept, SizeOf, Pin, Cin, Taken, TwoChunks, BinsMatch;
    var h, v, s := st.tags, st.tags.top, st.tags.ch[st.tags.top];
    ChunkFacts(h, v);
    FreeAvailable(st, L, Y, v);
    var k := TakeOne(st, L, Y, v);
    InsideNotChunk(h, v, v + nb);
    TopLast(st, L, Y);
    UsedAreChunks(st, L, Y);
    GiveTopTags(h, v, nb, st'.tags);
    LiveNotFree(st, L, Y, v);
    StepTwo(st, st', k, v, v + nb, v + s, {v}, true, false, L, L - {v}, Y, Y);
  }

  /** Past the end of top there is no chunk for a while, and no fencepost at its end. */
  lemma TopLast(st: State, L: set<Addr>, Y: set<Addr>)
    requires Inv(st, L, Y) && st.tags.top in st.tags.ch
    ensures var b := TopEnd(st.tags); b !in st.tags.ch && b !in st.tags.fence && forall p | p in st.tags.ch && b <= p ::
            b + 16 <= p
    ensures st.tags.HeadOf(TopEnd(st.tags)) == TOP_FOOT_SIZE && st.tags.top !in st.tags.used
  {
    hide BinsMatch, MapsOK, FootprintOK, LeastOK, UsedOK, SizeOf, Pin, Cin;
    var h := st.tags;
    ChunkFacts(h, h.top);
    forall p | p in h.ch && TopEnd(h) <= p ensures TopEnd(h) + 16 <= p {
      assert EndApart(h, TopEnd(h), p);
      ChunkFacts(h, p);
    }
    FenceHeads(h);
  }

  lemma GiveTopTags(h: Tags, v: Addr, nb: nat, h': Tags)
    requires v in h.ch && v !in h.used && v == h.top && h.ch[v] % 16 == 0 && Pin(h.HeadOf(v)) && v % 16 == 0
    requires nb % 16 == 0 && nb >= MIN_CHUNK_SIZE && nb + 16 <= h.ch[v]
    requires v + h.ch[v] !in h.ch && v + h.ch[v] !in h.fence && h.HeadOf(v + h.ch[v]) == TOP_FOOT_SIZE
    requires forall p | p in h.ch && v + h.ch[v] <= p :: v + h.ch[v] + 16 <= p
    requires h' == h.(mem := InUseTop(h, v, nb, h.ch[v]), ch := h.ch[v := nb][v + nb := h.ch[v] - nb],
             used := h.used + {v}, top := v + nb)
    requires v + nb !in h.used
    ensures TwoChunks(h, h', v, v + nb, v + h.ch[v], {v}, true, false)
  {
    hide SizeOf, Pin, Cin, TopEnd;
    var s := h.ch[v];
    assert h'.HeadOf(v) == Head(nb, true, true);
    assert h'.HeadOf(v + nb) == Head(s - nb, false, true);
    assert h'.HeadOf(v + s) == h.HeadOf(v + s);
    assert (h.ch - {v})[v := nb][v + nb := s - nb] == h.ch[v := nb][v + nb := s - nb];
    assert Framed(h, h', v, v + s);
    hide Framed, InUseTop;
    assert LastOK(h, h', {v}, v + nb, v + s, false);
  }
}
