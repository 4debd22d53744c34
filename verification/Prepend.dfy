/** New memory in front of a segment: `prepend_alloc`. */
module Prepend {
  import opened Words
  import opened BoundaryTags
  import opened HeapState
  import opened HeapSteps
  import opened HeapOps
  import opened HeapOps2
  import opened HeapBins
  import opened GrowFree
  import opened MallocState
  import opened HandOut
  import opened SegmentOps
  import opened SegmentGrow
  import opened SegmentFront
  import SB = SmallBins
  import TB = TreeBins

  /** The new memory [p, p + size) is one block of the state `st`, in front of another chunk. */
  ghost predicate InFront(st: State, p: Addr, size: nat, nb: nat)
  {
    && p in st.tags.ch && st.tags.ch[p] == size && p in st.live && p + size in st.tags.ch
       && Pin(st.tags.HeadOf(p + size))
    && size % 16 == 0 && nb % 16 == 0 && nb >= MIN_CHUNK_SIZE && nb + MIN_CHUNK_SIZE <= size && Pin(st.tags.HeadOf(p))
    && Inv(st, {}, {})
  }

  /** The allocator's state is `st`, but for the head of `p` that is not written yet. */
  ghost predicate HeadMissing(m: MState, st: State, p: Addr, size: nat)
    requires size % 16 == 0
    reads m, m.small, m.trees
  {
    m.S() == st.(tags := st.tags.(mem := m.mem)) && st.tags.mem == m.mem[p + 8 := Head(size, true, true)]
  }

  // ----- The three ways to join the rest with the chunk behind -----

  function JoinedTop(st: State, p: Addr, nb: nat): State
    requires st.tags.top in st.tags.ch && st.tags.ch[st.tags.top] == st.topsize && p + nb <= st.tags.top + st.topsize
    requires nb % 16 == 0 && (st.tags.top + st.topsize - p - nb) % 16 == 0
  {
    GrownTop(st, p, p + nb, st.tags.top + st.topsize, {p, st.tags.top})
  }

  lemma JoinTop(st: State, p: Addr, size: nat, nb: nat)
    requires InFront(st, p, size, nb) && p + size == st.tags.top
    ensures st.tags.ch[st.tags.top] == st.topsize && st.topsize % 16 == 0
    ensures (st.tags.top + st.topsize - p - nb) % 16 == 0
    ensures Inv(JoinedTop(st, p, nb), {}, {}) && forall q | q != p :: BlockKept(st, JoinedTop(st, p, nb), q)
  {
    hide Inv, BlockKept, Pin, Taken;
    var X := {p, st.tags.top};
    FrontFacts(st, p, size, nb);
    ChunkFactsAt(st, {}, {}, st.tags.top);
    DvWordTop(st, {}, {});
    UsedAvailable(st, {}, {}, p);
    FreeAvailable(st, {}, {}, st.tags.top);
    var k := TakeOne(st, {}, {}, p);
    TakeNext(st, {}, {}, k, p, st.tags.top, {p});
    assert {p} + {st.tags.top} == X;
    DvNotTop(st);
    GrowIntoTop(st, k, p, p + nb, st.tags.top + st.topsize, X, {}, {}, JoinedTop(st, p, nb));
    assert {} - X == {};
  }

  lemma FrontFacts(st: State, p: Addr, size: nat, nb: nat)
    requires InFront(st, p, size, nb)
    ensures p in st.tags.used && p != st.dv && p != st.tags.top && p % 16 == 0 && p > 0
  {
    hide OK, BinsMatch, SegsOK, MapsOK, FootprintOK, LeastOK, DvTopOK;
    UsedOnce(st, {}, {}, p);
    ChunkFactsAt(st, {}, {}, p);
  }

  lemma DvNotTop(st: State)
    requires st.tags.top != 0 && Inv(st, {}, {})
    ensures st.dv != st.tags.top
  {
    hide OK, BinsMatch, SegsOK, MapsOK, FootprintOK, LeastOK, UsedOK;
  }

  function JoinedDv(st: State, p: Addr, nb: nat): State
    requires st.dv in st.tags.ch && st.tags.ch[st.dv] == st.dvsize && p + nb <= st.dv + st.dvsize
    requires nb % 16 == 0 && (st.dv + st.dvsize - p - nb) % 16 == 0
  {
    GrownDv(st, p, p + nb, st.dv + st.dvsize, {p, st.dv})
  }

  lemma JoinDv(st: State, p: Addr, size: nat, nb: nat)
    requires InFront(st, p, size, nb) && p + size == st.dv
    ensures st.tags.ch[st.dv] == st.dvsize && (st.dv + st.dvsize - p - nb) % 16 == 0
    ensures Inv(JoinedDv(st, p, nb), {}, {}) && forall q | q != p :: BlockKept(st, JoinedDv(st, p, nb), q)
    ensures ClearPin(st.tags.HeadOf(st.dv + st.dvsize)) == st.tags.HeadOf(st.dv + st.dvsize)
    ensures st.tags.HeadOf(st.dv + st.dvsize) > 0
  {
    hide Inv, BlockKept, Taken, SizeOf, Cin, Pin, ClearPin;
    var X, b := {p, st.dv}, st.dv + st.dvsize;
    FrontFacts(st, p, size, nb);
    DvWord(st, {}, {});
    ChunkFactsAt(st, {}, {}, st.dv);
    AfterFree(st, {}, {}, st.dv);
    ChunkFactsAt(st, {}, {}, b);
    HeadWords(st.tags.HeadOf(b), st.tags.ch[b]);
    UsedAvailable(st, {}, {}, p);
    FreeAvailable(st, {}, {}, st.dv);
    var k := TakeOne(st, {}, {}, p);
    TakeNext(st, {}, {}, k, p, st.dv, {p});
    assert {p} + {st.dv} == X;
    GrowIntoDv(st, k, p, p + nb, b, X, {}, {}, JoinedDv(st, p, nb));
    assert {} - X == {};
  }

  lemma HeadWords(w: nat, s: nat)
    requires SizeOf(w) == s && s > 0 && !Pin(w)
    ensures ClearPin(w) == w && w > 0
  {
  }

  function JoinedFree(st: State, p: Addr, nb: nat, b: Addr, X: set<Addr>): State
    requires p + nb <= b && nb % 16 == 0 && (b - p - nb) % 16 == 0
  {
    GrownLoose(st, p, p + nb, b, X)
  }

  /** The chunk behind is in use. */
  lemma JoinUsed(st: State, p: Addr, size: nat, nb: nat)
    requires InFront(st, p, size, nb) && p + size in st.tags.used
    ensures (size - nb) % 16 == 0
    ensures var st' := JoinedFree(st, p, nb, p + size, {p});
            Inv(st', {p + nb}, {}) && IsFree(st'.tags, st'.dv, p + nb) && forall q | q != p :: BlockKept(st, st', q)
  {
    hide Inv, BlockKept, Taken, SizeOf, Cin, Pin, ClearPin, IsFree;
    FrontFacts(st, p, size, nb);
    UsedAvailable(st, {}, {}, p);
    var k := TakeOne(st, {}, {}, p);
    GrowIntoLoose(st, k, p, p + nb, p + size, {p}, {}, {}, JoinedFree(st, p, nb, p + size, {p}));
    assert {} - {p} + {p + nb} == {p + nb};
  }

  /** The chunk behind is free and out of its bin. */
  lemma JoinLoose(st: State, p: Addr, size: nat, nb: nat)
    requires size % 16 == 0 && nb % 16 == 0 && nb >= MIN_CHUNK_SIZE && nb + MIN_CHUNK_SIZE <= size
    requires p in st.tags.ch && st.tags.ch[p] == size && p in st.live && IsFree(st.tags, st.dv, p + size)
    requires Inv(st, {p + size}, {})
    ensures var b := p + size + st.tags.ch[p + size]; (b - p - nb) % 16 == 0
    ensures var b, X := p + size + st.tags.ch[p + size], {p, p + size};
            var st' := JoinedFree(st, p, nb, b, X);
            Inv(st', {p + nb}, {}) && IsFree(st'.tags, st'.dv, p + nb) && forall q | q != p :: BlockKept(st, st', q)
  {
    hide Inv, BlockKept, Taken, SizeOf, Cin, Pin, ClearPin;
    var f := p + size;
    var b, X := f + st.tags.ch[f], {p, f};
    LoosePlace(st, p, f);
    ChunkFactsAt(st, {f}, {}, f);
    AfterFree(st, {f}, {}, f);
    UsedAvailable(st, {f}, {}, p);
    FreeAvailable(st, {f}, {}, f);
    var k := TakeOne(st, {f}, {}, p);
    TakeNext(st, {f}, {}, k, p, f, {p});
    assert {p} + {f} == X;
    hide IsFree;
    GrowIntoLoose(st, k, p, p + nb, b, X, {f}, {}, JoinedFree(st, p, nb, b, X));
    assert {f} - X + {p + nb} == {p + nb};
  }

  lemma LoosePlace(st: State, p: Addr, f: Addr)
    requires p in st.live && Inv(st, {f}, {})
    ensures p in st.tags.used && p != st.dv && p != st.tags.top && p % 16 == 0 && p > 0
  {
    hide OK, BinsMatch, SegsOK, MapsOK, FootprintOK, LeastOK, DvTopOK;
    UsedOnce(st, {f}, {}, p);
    ChunkFactsAt(st, {f}, {}, p);
  }

  // ----- The writes -----

  method PrependToTop(m: MState, p: Addr, psize: nat, nb: nat, ghost st: State)
    requires m.Valid() && InFront(st, p, psize, nb) && HeadMissing(m, st, p, psize) && p + psize == m.top
    requires st.tags.ch[st.tags.top] == st.topsize && (st.tags.top + st.topsize - p - nb) % 16 == 0
    modifies m`mem, m`top, m`topsize, m`layout
    ensures m.Valid() && m.S() == JoinedTop(st, p, nb)
  {
    hide Inv, SB.BinsOK, TB.BinsOK, Pin, BlockKept, SB.SmallBins.Contents, TB.TreeBins.Contents;
    JoinTop(st, p, psize, nb);
    var q, qsize := p + nb, psize - nb;
    var tsize := m.topsize + qsize;
    TopMemory(st, m.mem, p, psize, nb);
    ghost var g := JoinedTop(st, p, nb);
    m.mem := SetSizeAndPinuseOfInuse(m.mem, p, nb)[q + 8 := Head(tsize, false, true)];
    m.topsize := tsize;
    m.top := q;
    m.layout := LayoutOf(g);
  }

  lemma TopMemory(st: State, mem: Mem, p: Addr, psize: nat, nb: nat)
    requires psize % 16 == 0 && st.tags.mem == mem[p + 8 := Head(psize, true, true)] && nb % 16 == 0 && nb >= 32
    requires nb <= psize
    requires st.tags.top in st.tags.ch && st.tags.ch[st.tags.top] == st.topsize && st.topsize % 16 == 0
    requires p + psize == st.tags.top
    ensures (st.tags.top + st.topsize - p - nb) % 16 == 0
    ensures JoinedTop(st, p, nb).tags.mem
            == SetSizeAndPinuseOfInuse(mem, p, nb)[p + nb + 8 := Head(st.topsize + (psize - nb), false, true)]
  {
    hide Pin, SizeOf, Cin;
    assert st.tags.HeadOf(p) == Head(psize, true, true);
    assert st.tags.top + st.topsize - (p + nb) == st.topsize + (psize - nb);
  }

  method PrependToDv(m: MState, p: Addr, psize: nat, nb: nat, ghost st: State)
    requires m.Valid() && InFront(st, p, psize, nb) && HeadMissing(m, st, p, psize) && p + psize == m.dv
    requires st.tags.ch[st.dv] == st.dvsize && (st.dv + st.dvsize - p - nb) % 16 == 0
    modifies m`mem, m`dv, m`dvsize, m`layout
    ensures m.Valid() && m.S() == JoinedDv(st, p, nb)
  {
    hide Inv, SB.BinsOK, TB.BinsOK, Pin, BlockKept, SB.SmallBins.Contents, TB.TreeBins.Contents, ClearPin,
      SetSizeAndPinuseOfFree;
    JoinDv(st, p, psize, nb);
    var q, qsize := p + nb, psize - nb;
    var dsize := m.dvsize + qsize;
    DvMemory(st, m.mem, p, psize, nb);
    ghost var g := JoinedDv(st, p, nb);
    m.mem := SetSizeAndPinuseOfFree(SetSizeAndPinuseOfInuse(m.mem, p, nb), q, dsize);
    m.dvsize := dsize;
    m.dv := q;
    m.layout := LayoutOf(g);
  }

  lemma DvMemory(st: State, mem: Mem, p: Addr, psize: nat, nb: nat)
    requires psize % 16 == 0 && st.tags.mem == mem[p + 8 := Head(psize, true, true)] && nb % 16 == 0 && nb >= 32
    requires nb + 32 <= psize
    requires st.dv in st.tags.ch && st.tags.ch[st.dv] == st.dvsize && (st.dv + st.dvsize - p - nb) % 16 == 0
    requires p + psize == st.dv
    requires ClearPin(st.tags.HeadOf(st.dv + st.dvsize)) == st.tags.HeadOf(st.dv + st.dvsize)
    requires st.tags.HeadOf(st.dv + st.dvsize) > 0
    ensures (st.dvsize + (psize - nb)) % 16 == 0
    ensures JoinedDv(st, p, nb).tags.mem
            == SetSizeAndPinuseOfFree(SetSizeAndPinuseOfInuse(mem, p, nb), p + nb, st.dvsize + (psize - nb))
  {
    hide Pin, SizeOf, Cin, ClearPin;
    assert st.tags.HeadOf(p) == Head(psize, true, true);
    assert st.dv + st.dvsize - (p + nb) == st.dvsize + (psize - nb);
  }

  /** The head of the chunk behind, as memory has it. */
  lemma BehindHead(m: MState, st: State, p: Addr, psize: nat, nb: nat)
    requires InFront(st, p, psize, nb) && HeadMissing(m, st, p, psize)
    ensures var f := p + psize; SizeOf(m.HeadOf(f)) == st.tags.ch[f] && (Inuse(m.HeadOf(f)) <==> f in st.tags.used)
    ensures p + psize != st.tags.top && p + psize != st.dv && p + psize !in st.tags.used ==> InBins(st, p + psize)
  {
    hide OK, SegsOK, MapsOK, FootprintOK, LeastOK, DvTopOK, UsedOK, SizeOf, Cin, Pin, NextOK, PrevOK;
    var f := p + psize;
    ChunkFactsAt(st, {}, {}, f);
    assert m.HeadOf(f) == st.tags.HeadOf(f);
    assert f != st.tags.top && f != st.dv && f !in st.tags.used ==> IsFree(st.tags, st.dv, f);
  }

  method PrependToOther(m: MState, p: Addr, psize: nat, nb: nat, ghost st: State) returns (ok: bool)
    requires m.Valid() && InFront(st, p, psize, nb) && HeadMissing(m, st, p, psize) && p + psize != m.top
    requires p + psize != m.dv
    modifies m`mem, m`layout, m.small, m.trees
    ensures ok && m.Valid() && Inv(m.S(), {}, {})
    ensures m.layout.live == st.live && m.layout.maps == st.maps && p in m.layout.ch && m.layout.ch[p] == nb
    ensures forall q | q != p :: BlockKept(st, m.S(), q)
  {
    hide Inv, SB.BinsOK, TB.BinsOK, Pin, Cin, SizeOf, Inuse, BlockKept, IsFree, SB.SmallBins.Contents,
      TB.TreeBins.Contents, SB.SmallBins.Valid, TB.TreeBins.Valid, SetSizeAndPinuseOfInuse, SetFreeWithPinuse;
    BehindHead(m, st, p, psize, nb);
    FrontFacts(st, p, psize, nb);
    var oldfirst, q, qsize := p + psize, p + nb, psize - nb;
    if !Inuse(m.HeadOf(oldfirst)) {
      var nsize := SizeOf(m.HeadOf(oldfirst));
      ok := PrependToFree(m, p, psize, nb, oldfirst, nsize, st);
      oldfirst := oldfirst + nsize;
      qsize := qsize + nsize;
    } else {
      JoinUsed(st, p, psize, nb);
      WriteRest(m, p, psize, nb, oldfirst, {p}, st);
    }
    ghost var st2 := m.S();
    ok := InsertChunk(m, q, qsize, {q}, {});
    assert {q} - {q} == {};
    BinsUnseen(st2, m.S());
    KeptBoth(st, st2, m.S(), p);
  }

  lemma KeptBoth(st0: State, st1: State, st2: State, p: Addr)
    requires (forall q | q != p :: BlockKept(st0, st1, q)) && (forall q | q != p :: BlockKept(st1, st2, q))
    ensures forall q | q != p :: BlockKept(st0, st2, q)
  {
    hide BlockKept;
    forall q | q != p ensures BlockKept(st0, st2, q) {
      KeptOne(st0, st1, st2, q);
    }
  }

  /** The free chunk behind leaves its bin and joins the rest. */
  method PrependToFree(m: MState, p: Addr, psize: nat, nb: nat, f: Addr, nsize: nat, ghost st: State) returns (ok: bool)
    requires m.Valid() && InFront(st, p, psize, nb) && HeadMissing(m, st, p, psize) && f == p + psize && InBins(st, f)
    requires nsize == st.tags.ch[f]
    modifies m`mem, m`layout, m.small, m.trees
    ensures ok && m.Valid() && Inv(m.S(), {p + nb}, {}) && m.layout.live == st.live && m.layout.maps == st.maps
    ensures p in m.layout.ch && m.layout.ch[p] == nb && p + nb in m.layout.ch
    ensures m.layout.ch[p + nb] == psize - nb + nsize
    ensures IsFree(m.H(), m.dv, p + nb) && forall q | q != p :: BlockKept(st, m.S(), q)
  {
    hide Inv, SB.BinsOK, TB.BinsOK, Pin, Cin, SizeOf, BlockKept, IsFree, SB.SmallBins.Valid, TB.TreeBins.Valid,
      SetSizeAndPinuseOfInuse, SetFreeWithPinuse;
    BinFacts(st, f, {}, {});
    HeldSame(m, st, f);
    ok := UnlinkBinned(m, f, nsize);
    Unbin(st, f, {}, {});
    ghost var st2 := Unbinned(st, f);
    assert {} + {f} == {f};
    JoinLoose(st2, p, psize, nb);
    WriteRest(m, p, psize, nb, f + nsize, {p, f}, st2);
    BinsUnseen(st, st2);
    KeptBoth(st, st2, m.S(), p);
  }

  /** The heads of `p` and of the rest, which is free, and its foot */
  method WriteRest(m: MState, p: Addr, psize: nat, nb: nat, b: Addr, ghost X: set<Addr>, ghost st: State)
    requires psize % 16 == 0 && nb % 16 == 0 && nb >= MIN_CHUNK_SIZE && p + nb + MIN_CHUNK_SIZE <= b
    requires (b - p - nb) % 16 == 0
    requires HeadMissing(m, st, p, psize)
    modifies m`mem, m`layout
    ensures m.S() == JoinedFree(st, p, nb, b, X)
    ensures p in m.layout.ch && m.layout.ch[p] == nb && p + nb in m.layout.ch && m.layout.ch[p + nb] == b - p - nb
  {
    hide SB.SmallBins.Contents, TB.TreeBins.Contents, SetSizeAndPinuseOfInuse, SetFreeWithPinuse, Pin;
    RestMemory(st, m.mem, p, psize, nb, b, X);
    ghost var g := JoinedFree(st, p, nb, b, X);
    m.mem := SetFreeWithPinuse(SetSizeAndPinuseOfInuse(m.mem, p, nb), p + nb, b - p - nb, b);
    m.layout := LayoutOf(g);
  }

  lemma RestMemory(st: State, mem: Mem, p: Addr, psize: nat, nb: nat, b: Addr, X: set<Addr>)
    requires psize % 16 == 0 && nb % 16 == 0 && nb >= MIN_CHUNK_SIZE && p + nb + MIN_CHUNK_SIZE <= b
    requires (b - p - nb) % 16 == 0
    requires st.tags.mem == mem[p + 8 := Head(psize, true, true)]
    ensures JoinedFree(st, p, nb, b, X).tags.mem
            == SetFreeWithPinuse(SetSizeAndPinuseOfInuse(mem, p, nb), p + nb, b - p - nb, b)
  {
    hide Pin, SizeOf, Cin, ClearPin;
    assert st.tags.HeadOf(p) == Head(psize, true, true);
    assert b - (p + nb) == b - p - nb;
    assert WordAt(SetSizeAndPinuseOfInuse(mem, p, nb), b + 8) == st.tags.HeadOf(b);
  }

  // ----- prepend_alloc -----

  lemma FrontedInFront(st: State, k: nat, base: Addr, size: nat, nb: nat)
    requires k < |st.segs| && size % 16 == 0 && Vacant(st, base, size) && base + size == st.segs[k].base
    requires Inv(st, {}, {})
    requires nb % 16 == 0 && nb >= MIN_CHUNK_SIZE && nb + MIN_CHUNK_SIZE <= size
    ensures InFront(Fronted(st, k, base, size), base, size, nb)
    ensures base !in st.live && base !in st.maps && base > 0 && base % 16 == 0
    ensures forall p :: BlockKept(st, Fronted(st, k, base, size), p)
  {
    hide OK, BinsMatch, SegsOK, MapsOK, FootprintOK, LeastOK, DvTopOK, UsedOK, SizeOf, Cin, Pin, Vacant, BlockKept;
    AddFront(st, k, base, size, {}, {});
    BasePinned(st, k, {}, {});
    VacantPages(st, base, size);
    PageAligned(base);
    var h' := Fronted(st, k, base, size).tags;
    assert h'.HeadOf(base) == Head(size, true, true) && h'.HeadOf(base + size) == st.tags.HeadOf(base + size);
  }

  /** `prepend_alloc`, with what `sys_alloc` does just before it */
  method PrependAlloc(m: MState, tbase: Addr, tsize: nat, k: nat, nb: nat) returns (ok: bool, p: Addr)
    requires Good(m) && k < |m.segs| && Vacant(m.S(), tbase, tsize) && tbase + tsize == m.segs[k].base
    requires nb % 16 == 0 && nb >= MIN_CHUNK_SIZE && nb + MIN_CHUNK_SIZE <= tsize
    modifies m`mem, m`top, m`topsize, m`dv, m`dvsize, m`leastAddr, m`segs, m`footprint, m`layout, m.small, m.trees
    ensures ok && Good(m) && p == tbase && p != 0 && HandedOut(old(m.S()), m.S(), p, nb)
    ensures m.footprint == old(m.footprint) + tsize
    ensures m.segs == old(m.segs)[k := Segment(tbase, old(m.segs[k].size) + tsize, old(m.segs[k].rec))]
  {
    hide Inv, SB.BinsOK, TB.BinsOK, OthersKept, BlockKept, Vacant, InFront, SB.SmallBins.Valid, TB.TreeBins.Valid;
    ghost var st := m.S();
    assert tsize % 16 == 0 by {
      VacantPages(st, tbase, tsize);
      PageAligned(tsize);
    }
    LeastKnown(st);
    FrontedInFront(st, k, tbase, tsize, nb);
    ghost var st1 := Fronted(st, k, tbase, tsize);
    Widen(m, tbase, tsize, k);
    p := tbase;
    ok := JoinRest(m, p, tsize, nb, st1);
    KeptBoth(st, st1, m.S(), p);
    assert OthersKept(st, m.S(), {p}) by {
      KeptBut(st, m.S(), p);
    }
  }

  lemma LeastKnown(st: State)
    requires st.segs != [] && Inv(st, {}, {})
    ensures st.least != 0
  {
    hide OK, BinsMatch, UsedOK, MapsOK, FootprintOK, SegsOK, DvTopOK;
    Seg0(st, {}, {});
  }

  lemma KeptBut(st: State, st': State, p: Addr)
    requires forall q | q != p :: BlockKept(st, st', q)
    ensures OthersKept(st, st', {p})
  {
    hide BlockKept;
  }

  /** `sp->base = tbase; sp->size += tsize` */
  method Widen(m: MState, tbase: Addr, tsize: nat, k: nat)
    requires k < |m.segs| && tsize % 16 == 0 && m.leastAddr != 0
    modifies m`leastAddr, m`segs, m`footprint, m`layout
    ensures HeadMissing(m, Fronted(old(m.S()), k, tbase, tsize), tbase, tsize)
  {
    hide SB.SmallBins.Contents, TB.TreeBins.Contents;
    ghost var g := Fronted(m.S(), k, tbase, tsize);
    m.footprint := m.footprint + tsize;
    if tbase < m.leastAddr {
      m.leastAddr := tbase;
    }
    m.segs := m.segs[k := m.segs[k].(base := tbase, size := m.segs[k].size + tsize)];
    m.layout := LayoutOf(g);
  }

  /** `p` takes `nb` bytes of the new memory, the rest joins the chunk behind. */
  method JoinRest(m: MState, p: Addr, psize: nat, nb: nat, ghost st: State) returns (ok: bool)
    requires m.Valid() && InFront(st, p, psize, nb) && HeadMissing(m, st, p, psize)
    modifies m`mem, m`top, m`topsize, m`dv, m`dvsize, m`layout, m.small, m.trees
    ensures ok && m.Valid() && Inv(m.S(), {}, {})
    ensures m.layout.live == st.live && m.layout.maps == st.maps && p in m.layout.ch && m.layout.ch[p] == nb
    ensures forall q | q != p :: BlockKept(st, m.S(), q)
  {
    hide Inv, SB.BinsOK, TB.BinsOK, BlockKept, SB.SmallBins.Valid, TB.TreeBins.Valid, Pin;
    ok := true;
    if p + psize == m.top {
      JoinTop(st, p, psize, nb);
      PrependToTop(m, p, psize, nb, st);
    } else if p + psize == m.dv {
      JoinDv(st, p, psize, nb);
      PrependToDv(m, p, psize, nb, st);
    } else {
      ok := PrependToOther(m, p, psize, nb, st);
    }
  }
}
