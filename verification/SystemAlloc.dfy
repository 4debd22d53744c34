/** Getting memory from the system: `mmap_alloc`, `prepend_alloc`, `add_segment` and `sys_alloc`. */
module SystemAlloc {
  import opened Words
  import opened BoundaryTags
  import opened HeapState
  import opened HeapSteps
  import opened HeapOps
  import opened HeapOps2
  import opened MallocState
  import opened Prepend
  import opened HandOut
  import opened Requests
  import opened Promises
  import opened SegmentOps
  import opened SegmentGrow
  import opened SegmentNew
  import TreeIndex
  import SB = SmallBins
  import TB = TreeBins

  /** `p` has become a mapped block of its own. */
  ghost predicate MappedOut(st: State, st': State, p: Addr, nb: nat)
  {
    && p !in st.live && p !in st.maps && st'.live == st.live && p in st'.maps && st'.maps == st.maps[p := st'.maps[p]]
    && p > 0 && p % 16 == 0 && nb + 16 <= st'.tags.HeadOf(p) && st'.maps[p].base == p && nb >= MMAP_THRESHOLD
    && OthersKept(st, st', {p})
  }

  /** What the system may answer: failure, or memory that is not yet mapped. */
  ghost predicate Answer(st: State, base: Addr, size: nat)
  {
    base == CMFAIL || Vacant(st, base, size)
  }

  /** The footprint limit allows `size` more bytes. */
  predicate WithinLimit(footprint: nat, limit: nat, size: nat)
  {
    limit == 0 || (footprint < (footprint + size) % WORD_MODULUS <= limit)
  }

  /** `mmap_alloc`; `direct` is the system's answer */
  method MmapAlloc(m: MState, nb: nat, direct: Addr) returns (p: Addr)
    requires Good(m) && MMAP_THRESHOLD <= nb < WORD_MODULUS && Answer(m.S(), direct, MmapSize(nb))
    modifies m`mem, m`leastAddr, m`footprint, m`maxFootprint, m`layout
    ensures Good(m)
    ensures p == 0 ==> m.S() == old(m.S())
    ensures p != 0 ==> MappedOut(old(m.S()), m.S(), p, nb) && m.footprint == old(m.footprint) + MmapSize(nb)
    ensures p != 0 ==> m.layout.maps[p].len == MmapSize(nb)
    ensures m.maxFootprint == if p != 0 && m.footprint > old(m.maxFootprint) then m.footprint else old(m.maxFootprint)
    ensures p != 0 <==>
              direct != CMFAIL && MmapSize(nb) > nb && WithinLimit(old(m.footprint), m.footprintLimit, MmapSize(nb))
  {
    hide Inv, SB.BinsOK, TB.BinsOK, OthersKept, BlockKept, Vacant, AlignUp, MappedMem;
    ghost var st := m.S();
    var mmsize := MmapSize(nb);
    AlignedEnough(nb, 63, PAGE_SIZE);
    p := 0;
    if m.footprintLimit != 0 {
      var fp := (m.footprint + mmsize) % WORD_MODULUS;
      if fp <= m.footprint || fp > m.footprintLimit {
        return;
      }
    }
    if mmsize > nb {
      var mm := direct;
      if mm != CMFAIL {
        VacantPages(st, mm, mmsize);
        PageAligned(mm);
        p := LayMapped(m, mm, mmsize);
        MapNew(st, mm, mmsize, {}, {});
        MappedHead(m.S(), p);
        assert OthersKept(st, m.S(), {p}) by {
          KeptBut(st, m.S(), p);
        }
      }
    }
  }

  /** The chunk is laid out over the whole mapping. */
  method LayMapped(m: MState, mm: Addr, mmsize: nat) returns (p: Addr)
    requires mm % 16 == 0 && mmsize >= MMAP_FOOT_PAD
    modifies m`mem, m`leastAddr, m`footprint, m`maxFootprint, m`layout
    ensures p == mm && m.S() == Mapped(old(m.S()), mm, mmsize)
    ensures m.maxFootprint == if m.footprint > old(m.maxFootprint) then m.footprint else old(m.maxFootprint)
  {
    hide SB.SmallBins.Valid, TB.TreeBins.Valid, SB.SmallBins.Contents, TB.TreeBins.Contents, MappedMem;
    AlignedOffset(mm);
    var offset := AlignOffset(mm + 16);
    var psize := mmsize - offset - MMAP_FOOT_PAD;
    p := mm + offset;
    m.mem := m.mem[p := offset][p + 8 := psize][p + psize + 8 := FENCEPOST_HEAD][p + psize + 16 := 0];
    MappedMemIs(old(m.mem), mm, mmsize);
    if m.leastAddr == 0 || mm < m.leastAddr {
      m.leastAddr := mm;
    }
    m.footprint := m.footprint + mmsize;
    if m.footprint > m.maxFootprint {
      m.maxFootprint := m.footprint;
    }
    m.layout := m.layout.(maps := m.layout.maps[p := Mapping(mm, mmsize)]);
  }

  lemma MappedMemIs(mem: map<Addr, nat>, base: Addr, len: nat)
    requires len >= MMAP_FOOT_PAD
    ensures MappedMem(mem, base, len)
            == mem[base := 0][base + 8 := len - MMAP_FOOT_PAD][base + (len - MMAP_FOOT_PAD) + 8 := FENCEPOST_HEAD]
              [base + (len - MMAP_FOOT_PAD) + 16 := 0]
  {
  }

  lemma MappedHead(st: State, p: Addr)
    requires p in st.maps && Inv(st, {}, {})
    ensures p > 0 && p % 16 == 0 && st.tags.HeadOf(p) == st.maps[p].len - (p - st.maps[p].base) - MMAP_FOOT_PAD
  {
    hide OK, DvTopOK, BinsMatch, SegsOK, UsedOK, FootprintOK, LeastOK;
    MapWords(st, p);
  }

  lemma KeptAll(st: State, st': State)
    requires forall q :: BlockKept(st, st', q)
    ensures OthersKept(st, st', {})
  {
    hide BlockKept;
  }

  /** `init_top`, for an aligned chunk */
  method InitTop(m: MState, p: Addr, psize: nat)
    requires p % 16 == 0 && psize % 16 == 0
    modifies m`mem, m`top, m`topsize, m`trimCheck
    ensures m.top == p && m.topsize == psize && m.mem == TopMem(old(m.mem), p, psize) && m.trimCheck == TRIM_THRESHOLD
  {
    AlignedOffset(p);
    var offset := AlignOffset(p + 16);
    m.top := p + offset;
    m.topsize := psize - offset;
    m.mem := m.mem[m.top + 8 := Head(m.topsize, false, true)][m.top + m.topsize + 8 := TOP_FOOT_SIZE];
    m.trimCheck := TRIM_THRESHOLD;
  }

  /** The front of top becomes a block. */
  method SplitTop(m: MState, nb: nat, ghost st0: State) returns (p: Addr)
    requires Good(m) && nb < m.topsize && nb % 16 == 0 && nb >= MIN_CHUNK_SIZE && ClientsKept(st0, m.S())
    modifies m`mem, m`top, m`topsize, m`layout
    ensures Good(m) && p != 0 && HandedOut(st0, m.S(), p, nb) && m.layout.ch[p] == nb && p == old(m.top)
  {
    hide Inv, SB.BinsOK, TB.BinsOK, OthersKept, BlockKept, InUseTop;
    ghost var st := m.S();
    TopWord(st);
    NotMapped(st, {}, {}, m.top);
    p := CutTop(m, nb);
    GiveTop(st, nb, {}, {}, m.S());
    assert {} - {p} == {};
    Handed(st0, st, m.S(), p, nb);
  }

  method CutTop(m: MState, nb: nat) returns (p: Addr)
    requires m.top in m.layout.ch && m.layout.ch[m.top] == m.topsize && nb < m.topsize && nb % 16 == 0
    requires m.topsize % 16 == 0
    modifies m`mem, m`top, m`topsize, m`layout
    ensures p == old(m.top) && m.S() == GaveTop(old(m.S()), nb)
  {
    hide SB.SmallBins.Valid, TB.TreeBins.Valid, SB.SmallBins.Contents, TB.TreeBins.Contents;
    var rsize := m.topsize - nb;
    m.topsize := rsize;
    p := m.top;
    var r := p + nb;
    m.top := r;
    m.mem := SetSizeAndPinuseOfInuse(m.mem[r + 8 := Head(rsize, false, true)], p, nb);
    m.layout := m.layout.(ch := m.layout.ch[p := nb][r := rsize], used := m.layout.used + {p},
      live := m.layout.live + {p});
  }

  lemma TopWord(st: State)
    requires st.topsize > 0 && Inv(st, {}, {})
    ensures st.tags.top in st.tags.ch && st.tags.ch[st.tags.top] == st.topsize && st.tags.top > 0
    ensures st.topsize % 16 == 0 && st.tags.top % 16 == 0 && st.segs != []
  {
    hide OK, BinsMatch, UsedOK, MapsOK, FootprintOK, LeastOK, SegOK;
    ChunkFactsAt(st, {}, {}, st.tags.top);
  }

  /** The first segment */
  method FirstTime(m: MState, tbase: Addr, tsize: nat)
    requires Good(m) && m.top == 0 && Vacant(m.S(), tbase, tsize)
    modifies m`mem, m`top, m`topsize, m`trimCheck, m`leastAddr, m`releaseChecks, m`segs, m`footprint, m`layout
    ensures Good(m) && ClientsKept(old(m.S()), m.S()) && m.topsize + TOP_FOOT_SIZE == tsize
    ensures m.footprint == old(m.footprint) + tsize
    ensures m.trimCheck == 0x20_0000 && m.releaseChecks == 4095 && Placed(old(m.segs), m.segs, tbase, tsize)
  {
    hide Inv, SB.BinsOK, TB.BinsOK, OthersKept, BlockKept, TopMem, Vacant;
    ghost var st := m.S();
    VacantPages(st, tbase, tsize);
    PageSizes(tsize);
    PageAligned(tbase);
    NothingYet(st);
    LayFirst(m, tbase, tsize);
    FirstSegment(st, tbase, tsize);
    KeptAll(st, m.S());
  }

  method LayFirst(m: MState, tbase: Addr, tsize: nat)
    requires tbase % 16 == 0 && tsize >= TOP_FOOT_SIZE && (tsize - TOP_FOOT_SIZE) % 16 == 0 && m.layout.used == {}
    requires m.layout.fence == {}
    modifies m`mem, m`top, m`topsize, m`trimCheck, m`leastAddr, m`releaseChecks, m`segs, m`footprint, m`layout
    ensures m.S() == First(old(m.S()), tbase, tsize)
    ensures m.trimCheck == TRIM_THRESHOLD && m.releaseChecks == MAX_RELEASE_CHECK_RATE
  {
    hide SB.SmallBins.Valid, TB.TreeBins.Valid, SB.SmallBins.Contents, TB.TreeBins.Contents, TopMem;
    m.footprint := m.footprint + tsize;
    if m.leastAddr == 0 || tbase < m.leastAddr {
      m.leastAddr := tbase;
    }
    m.segs := [Segment(tbase, tsize, 0)];
    m.releaseChecks := MAX_RELEASE_CHECK_RATE;
    InitTop(m, tbase, tsize - TOP_FOOT_SIZE);
    m.layout := m.layout.(ch := map[tbase := tsize - TOP_FOOT_SIZE]);
  }

  /** The segment with top continues in the new memory. */
  method Append(m: MState, tbase: Addr, tsize: nat, i: nat)
    requires Good(m) && i < |m.segs| && tbase == m.segs[i].base + m.segs[i].size
    requires m.segs[i].base <= m.top < m.segs[i].base + m.segs[i].size && Vacant(m.S(), tbase, tsize)
    modifies m`mem, m`top, m`topsize, m`trimCheck, m`segs, m`footprint, m`layout
    ensures Good(m) && ClientsKept(old(m.S()), m.S()) && m.topsize == old(m.topsize) + tsize
    ensures m.footprint == old(m.footprint) + tsize && m.trimCheck == 0x20_0000
    ensures Placed(old(m.segs), m.segs, tbase, tsize)
  {
    hide Inv, SB.BinsOK, TB.BinsOK, OthersKept, BlockKept, TopMem, Vacant, SB.SmallBins.Valid, TB.TreeBins.Valid,
      SB.SmallBins.Contents, TB.TreeBins.Contents, ClientsKept;
    ghost var st := m.S();
    TopInFirst(st, i);
    AppendKeeps(st, tbase, tsize);
    Extend(m, tsize, i);
  }

  lemma AppendKeeps(st: State, tbase: Addr, tsize: nat)
    requires st.segs != [] && tbase == st.segs[0].base + st.segs[0].size && Vacant(st, tbase, tsize) && Inv(st, {}, {})
    ensures st.tags.top % 16 == 0 && (st.topsize + tsize) % 16 == 0
    ensures var st' := Resized(st, st.segs[0].size + tsize);
            Inv(st', {}, {}) && ClientsKept(st, st') && st'.footprint == st.footprint + tsize
  {
    hide Inv, BlockKept, TopMem, Vacant, OthersKept;
    VacantPages(st, tbase, tsize);
    Seg0(st, {}, {});
    PageAligned(tsize);
    Page2(st.segs[0].size, tsize);
    Aligned2(st.topsize, tsize);
    Extendable(st, tsize);
    ResizeTop(st, st.segs[0].size + tsize, {}, {});
    KeptAll(st, Resized(st, st.segs[0].size + tsize));
  }

  lemma Aligned2(a: nat, b: nat)
    requires a % 16 == 0 && b % 16 == 0
    ensures (a + b) % 16 == 0
  {
  }

  lemma Extendable(st: State, tsize: nat)
    requires st.segs != [] && st.segs[0].size % 4096 == 0 && (st.segs[0].size + tsize) % 4096 == 0
    requires tsize >= 16 && Vacant(st, st.segs[0].base + st.segs[0].size, tsize)
    ensures MayResize(st, st.segs[0].size + tsize)
  {
    hide Vacant;
    assert st.segs[0].size + tsize - st.segs[0].size == tsize;
  }

  method Extend(m: MState, tsize: nat, i: nat)
    requires i == 0 && m.segs != [] && m.top % 16 == 0 && (m.topsize + tsize) % 16 == 0
    modifies m`mem, m`top, m`topsize, m`trimCheck, m`segs, m`footprint, m`layout
    ensures m.S() == Resized(old(m.S()), old(m.segs[0].size) + tsize) && m.trimCheck == TRIM_THRESHOLD
  {
    hide SB.SmallBins.Valid, TB.TreeBins.Valid, SB.SmallBins.Contents, TB.TreeBins.Contents, TopMem;
    m.footprint := m.footprint + tsize;
    m.segs := m.segs[i := m.segs[i].(size := m.segs[i].size + tsize)];
    InitTop(m, m.top, m.topsize + tsize);
    m.layout := m.layout.(ch := m.layout.ch[m.top := m.topsize]);
  }

  lemma Page2(a: nat, b: nat)
    requires a % 4096 == 0 && b % 4096 == 0
    ensures (a + b) % 4096 == 0
  {
  }

  /** Only the first segment holds top. */
  lemma TopInFirst(st: State, i: nat)
    requires i < |st.segs| && st.segs[i].base <= st.tags.top < st.segs[i].base + st.segs[i].size && Inv(st, {}, {})
    ensures i == 0
  {
    hide OK, BinsMatch, UsedOK, MapsOK, FootprintOK, LeastOK, SegsOK, DvTopOK;
    Seg0(st, {}, {});
    if i != 0 {
      SegsApartAt(st.tags, st.segs, 0, i);
    }
  }

  /** `add_segment` */
  method AddSegmentTo(m: MState, tbase: Addr, tsize: nat) returns (ok: bool)
    requires Good(m) && m.top != 0 && Vacant(m.S(), tbase, tsize)
    modifies m`mem, m`top, m`topsize, m`trimCheck, m`leastAddr, m`segs, m`footprint, m`layout, m.small, m.trees
    ensures ok && Good(m) && ClientsKept(old(m.S()), m.S()) && m.topsize + TOP_FOOT_SIZE == tsize
    ensures m.footprint == old(m.footprint) + tsize && m.trimCheck == 0x20_0000
    ensures |m.segs| == |old(m.segs)| + 1 && m.segs[0] == Segment(tbase, tsize, 0) && m.segs[2..] == old(m.segs[1..])
    ensures m.segs[1].base == old(m.segs[0].base) && m.segs[1].size == old(m.segs[0].size)
  {
    hide Inv, SB.BinsOK, TB.BinsOK, OthersKept, BlockKept, TopMem, Vacant, SealedWords, IsFree, SealedLoose,
      ClientsKept;
    ghost var st := m.S();
    VacantPages(st, tbase, tsize);
    PageSizes(tsize);
    PageAligned(tbase);
    HasSegment(st);
    Seg0(st, {}, {});
    VacantSeg(st, tbase, tsize, 0);
    m.footprint := m.footprint + tsize;
    if tbase < m.leastAddr {
      m.leastAddr := tbase;
    }
    LeastKnown(st);
    var oldTop := m.top;
    var psize := m.topsize;
    ghost var st0 := m.S();
    Seal(m, tbase, tsize);
    SealedWordsSame(st0, st, m.H(), tbase, tsize);
    assert m.S() == Sealed(st, m.mem, tbase, tsize);
    assert Sealing(st, m.S(), tbase, tsize, {}, {});
    AddSegment(st, m.S(), tbase, tsize, {}, {});
    ghost var st1 := m.S();
    assert ClientsKept(st, st1) by {
      KeptSame(st, st1);
    }
    ok := true;
    if psize >= MIN_CHUNK_SIZE {
      OldTopFree(st, st1, tbase, tsize);
      LooseTop(st);
      ok := InsertChunk(m, oldTop, psize, {oldTop}, {});
      assert {oldTop} - {oldTop} == {};
      ClientsUnaware(st1, m.S());
      ClientsKeptThrough(st, st1, m.S());
    } else {
      NoLooseTop(st);
    }
  }

  lemma SealedWordsSame(st: State, st1: State, h': Tags, base: Addr, size: nat)
    requires size >= TOP_FOOT_SIZE && (size - TOP_FOOT_SIZE) % 16 == 0 && st.topsize % 16 == 0
    requires st1.tags == st.tags && st1.topsize == st.topsize && SealedWords(st, h', base, size)
    ensures SealedWords(st1, h', base, size)
  {
  }

  lemma LooseTop(st: State)
    requires st.topsize >= MIN_CHUNK_SIZE
    ensures SealedLoose(st, {}) == {st.tags.top}
  {
  }

  lemma NoLooseTop(st: State)
    requires st.topsize < MIN_CHUNK_SIZE
    ensures SealedLoose(st, {}) == {}
  {
  }

  lemma KeptSame(st: State, st': State)
    requires st'.live == st.live && st'.maps == st.maps && forall q :: BlockKept(st, st', q)
    ensures ClientsKept(st, st')
  {
    KeptAll(st, st');
  }

  lemma HasSegment(st: State)
    requires st.tags.top != 0 && Inv(st, {}, {})
    ensures st.segs != []
  {
    hide OK, BinsMatch, UsedOK, MapsOK, FootprintOK, LeastOK, SegOK;
  }

  lemma OldTopFree(st: State, st': State, base: Addr, size: nat)
    requires Sealing(st, st', base, size, {}, {}) && st.topsize >= MIN_CHUNK_SIZE
    ensures IsFree(st'.tags, st'.dv, st.tags.top) && st'.tags.ch[st.tags.top] == st.topsize
  {
    hide Inv, SealedWords, Vacant;
    Numbers(st, st', base, size, {}, {});
    UsedChunks(st, {}, {}, st', base, size);
  }

  /** The part of `add_segment` that lays out the end of the old segment and the new top. */
  method Seal(m: MState, tbase: Addr, tsize: nat)
    requires m.segs != [] && tsize >= 4096 && (tsize - TOP_FOOT_SIZE) % 16 == 0 && tbase % 16 == 0
    requires m.topsize % 16 == 0 && m.topsize >= 16 && m.top % 16 == 0 && m.top > 0
    requires m.top + m.topsize + TOP_FOOT_SIZE == m.segs[0].base + m.segs[0].size && m.segs[0].base <= m.top
    requires m.segs[0].base + m.segs[0].size <= tbase || tbase + tsize <= m.segs[0].base
    modifies m`mem, m`top, m`topsize, m`trimCheck, m`segs, m`layout
    ensures m.S() == Sealed(old(m.S()), m.mem, tbase, tsize).(footprint := old(m.footprint), least := old(m.leastAddr))
    ensures SealedWords(old(m.S()), m.H(), tbase, tsize) && m.trimCheck == TRIM_THRESHOLD
  {
    hide SB.SmallBins.Valid, TB.TreeBins.Valid, SB.SmallBins.Contents, TB.TreeBins.Contents, TopMem, FencesOnly,
      AlignOffset, SealedWords;
    ghost var st := m.S();
    var oldTop := m.top;
    var oldsp := m.segs[0];
    var oldEnd := oldsp.base + oldsp.size;
    var ssize := SEGMENT_RECORD;
    var rawsp := oldEnd - (ssize + 32 + 15);
    var offset := AlignOffset(rawsp + 16);
    var asp := rawsp + offset;
    var csp := if asp < oldTop + MIN_CHUNK_SIZE then oldTop else asp;
    var tnext := csp + ssize;
    assert csp == RecAt(st) && asp == oldEnd - TOP_FOOT_SIZE by {
      RecordPlace(oldEnd);
    }
    InitTop(m, tbase, tsize - TOP_FOOT_SIZE);
    m.mem := SetSizeAndPinuseOfInuse(m.mem, csp, ssize);
    ghost var mem1 := m.mem;
    m.segs := [Segment(tbase, tsize, 0), oldsp.(rec := csp)] + m.segs[1..];
    Fenceposts(m, tnext, oldEnd);
    ghost var mem2 := m.mem;
    FreeOldTop(m, csp, oldTop);
    m.layout := m.layout.(ch := m.layout.ch[csp := ssize][tbase := tsize - TOP_FOOT_SIZE],
      used := m.layout.used + {csp}, fence := m.layout.fence + {tnext});
    SealedMem(st, m.H(), mem1, mem2, csp, tbase, tsize);
  }

  method FreeOldTop(m: MState, csp: Addr, oldTop: Addr)
    requires oldTop <= csp && (csp - oldTop) % 16 == 0
    modifies m`mem
    ensures m.mem == if csp == oldTop then old(m.mem)
            else old(m.mem)[csp + 8 := ClearPin(WordAt(old(m.mem), csp + 8))]
                 [oldTop + 8 := Head(csp - oldTop, false, true)][csp := csp - oldTop]
  {
    if csp != oldTop {
      var psize := csp - oldTop;
      m.mem := SetFreeWithPinuse(m.mem, oldTop, psize, oldTop + psize);
    }
  }

  lemma RecordPlace(oldEnd: nat)
    requires oldEnd % 16 == 0 && oldEnd >= 96
    ensures oldEnd - 95 + AlignOffset(oldEnd - 95 + 16) == oldEnd - 80
  {
  }

  lemma SealedMem(st: State, h': Tags, mem1: map<Addr, nat>, mem2: map<Addr, nat>, c: Addr, base: Addr, size: nat)
    requires size >= 4096 && (size - TOP_FOOT_SIZE) % 16 == 0 && st.topsize % 16 == 0 && c == RecAt(st)
    requires st.topsize >= 16
    requires st.tags.top + st.topsize + TOP_FOOT_SIZE <= base || base + size <= st.tags.top
    requires mem1 == TopMem(st.tags.mem, base, size - TOP_FOOT_SIZE)[c + 8 := Head(SEGMENT_RECORD, true, true)]
    requires FencesOnly(mem1, mem2, FenceAt(st), st.tags.top + st.topsize + TOP_FOOT_SIZE)
    requires var t, s := st.tags.top, st.topsize;
             h'.mem == if c == t then mem2
               else mem2[c + 8 := ClearPin(WordAt(mem2, c + 8))][t + 8 := Head(s, false, true)][c := s]
    ensures SealedWords(st, h', base, size)
  {
    var t, s := st.tags.top, st.topsize;
    assert SameWord(mem1, mem2, c + 8) && SameWord(mem1, mem2, base + 8)
           && SameWord(mem1, mem2, base + (size - TOP_FOOT_SIZE) + 8);
    forall w: Addr | (w < t + 8 || t + s + TOP_FOOT_SIZE <= w) && (w < base || base + size <= w)
      ensures h'.W(w) == st.tags.W(w) {
      assert SameWord(mem1, mem2, w);
    }
    assert WordAt(mem2, c + 8) == Head(SEGMENT_RECORD, true, true);
    assert h'.HeadOf(base) == Head(size - TOP_FOOT_SIZE, false, true);
    assert h'.HeadOf(base + (size - TOP_FOOT_SIZE)) == TOP_FOOT_SIZE;
    assert h'.HeadOf(c) == Head(SEGMENT_RECORD, true, c == t);
    assert h'.HeadOf(FenceAt(st)) == FENCEPOST_HEAD;
  }

  /** Fenceposts are written from the head at `f` up to `end`, and nothing else. */
  ghost predicate FencesOnly(mem: Mem, mem': Mem, f: Addr, end: Addr)
  {
    WordAt(mem', f + 8) == FENCEPOST_HEAD && forall w: Addr | w < f + 8 || end <= w :: SameWord(mem, mem', w)
  }

  predicate SameWord(mem: Mem, mem': Mem, w: Addr)
  {
    (w in mem' <==> w in mem) && (w in mem ==> w in mem' && mem'[w] == mem[w])
  }

  /** The loop that inserts trailing fenceposts */
  method Fenceposts(m: MState, tnext: Addr, oldEnd: Addr)
    requires tnext + 32 <= oldEnd && (oldEnd - tnext) % 8 == 0
    modifies m`mem
    ensures FencesOnly(old(m.mem), m.mem, tnext, oldEnd)
  {
    var p := tnext;
    var nfences := 0;
    while true
      invariant tnext <= p && p + 8 < oldEnd && (oldEnd - p) % 8 == 0 && nfences * 8 == p - tnext
      invariant p > tnext ==> WordAt(m.mem, tnext + 8) == FENCEPOST_HEAD
      invariant forall w: Addr | w < tnext + 8 || oldEnd <= w :: SameWord(old(m.mem), m.mem, w)
      decreases oldEnd - p
    {
      var nextp := p + 8;
      ghost var was := m.mem;
      m.mem := m.mem[p + 8 := FENCEPOST_HEAD];
      forall w: Addr | w < tnext + 8 || oldEnd <= w ensures SameWord(old(m.mem), m.mem, w) {
        assert SameWord(old(m.mem), was, w);
      }
      nfences := nfences + 1;
      if nextp + 8 < oldEnd {
        p := nextp;
      } else {
        break;
      }
    }
    assert nfences >= 2;
  }


  // ----- sys_alloc -----

  /** The rest of `sys_alloc`, once the system has given memory */
  method UseNewSegment(m: MState, nb: nat, tbase: Addr, tsize: nat) returns (ok: bool, p: Addr)
    requires Good(m) && nb % 16 == 0 && MIN_CHUNK_SIZE <= nb && nb + SYS_ALLOC_PADDING <= tsize
    requires Vacant(m.S(), tbase, tsize)
    modifies m`mem, m`top, m`topsize, m`dv, m`dvsize, m`trimCheck, m`releaseChecks, m`leastAddr, m`segs, m`footprint,
             m`maxFootprint, m`layout, m.small, m.trees
    ensures ok && Good(m) && p != 0 && HandedOut(old(m.S()), m.S(), p, nb) && m.footprint == old(m.footprint) + tsize
    ensures Placed(old(m.segs), m.segs, tbase, tsize)
    ensures m.maxFootprint == if m.footprint > old(m.maxFootprint) then m.footprint else old(m.maxFootprint)
    ensures |m.segs| > |old(m.segs)| ==> m.trimCheck == 0x20_0000
    ensures m.releaseChecks == if old(m.segs) == [] && m.segs != [] then 4095 else old(m.releaseChecks)
  {
    hide Inv, SB.BinsOK, TB.BinsOK, OthersKept, BlockKept, Vacant, HandedOut, ClientsKept, SB.SmallBins.Valid,
      TB.TreeBins.Valid;
    ghost var st := m.S();
    HoldsTop(st);
    ok := true;
    if m.footprint + tsize > m.maxFootprint {
      m.maxFootprint := m.footprint + tsize;
    }
    if m.top == 0 {
      FirstTime(m, tbase, tsize);
    } else {
      var i := 0;
      while i < |m.segs| && tbase != m.segs[i].base + m.segs[i].size
        invariant 0 <= i <= |m.segs| && (i > 0 ==> tbase != m.segs[0].base + m.segs[0].size)
      {
        i := i + 1;
      }
      if i < |m.segs| && m.segs[i].base <= m.top < m.segs[i].base + m.segs[i].size {
        Append(m, tbase, tsize, i);
      } else {
        i := 0;
        while i < |m.segs| && m.segs[i].base != tbase + tsize
          invariant 0 <= i <= |m.segs| && forall k: nat | k < i :: !Before(m.segs, k, tbase, tsize)
        {
          i := i + 1;
        }
        if i < |m.segs| {
          assert Before(m.segs, i, tbase, tsize);
          ok, p := PrependAlloc(m, tbase, tsize, i, nb);
          return;
        } else {
          ok := AddSegmentTo(m, tbase, tsize);
        }
      }
    }
    assert nb < m.topsize;
    p := SplitTop(m, nb, st);
  }

  /** Top is in the first segment. */
  lemma HoldsTop(st: State)
    requires Inv(st, {}, {})
    ensures st.tags.top == 0 <==> st.segs == []
    ensures st.segs != [] ==> st.segs[0].base <= st.tags.top < st.segs[0].base + st.segs[0].size
  {
    hide OK, BinsMatch, UsedOK, MapsOK, FootprintOK, LeastOK, SegOK;
    if st.segs != [] {
      Seg0(st, {}, {});
    }
  }

  /** The footprint is far from wrapping around. */
  lemma FootprintExact(st: State)
    requires Inv(st, {}, {})
    ensures st.footprint < TreeIndex.INDEX_LIMIT && st.footprint % WORD_MODULUS == st.footprint
  {
    hide OK, BinsMatch, UsedOK, MapsOK, LeastOK, SegsOK, DvTopOK;
    WrapNone(st.footprint);
  }

  lemma OfItsKind(st: State, st': State, p: Addr, nb: nat)
    ensures MappedOut(st, st', p, nb) ==> p in st'.maps
    ensures HandedOut(st, st', p, nb) ==> p !in st'.maps
  {
  }

  /** `sys_alloc`; `direct` and `mp` are the system's answers to the requests for a chunk of its own and for a
      segment. The result is 0, or a chunk that the client now owns. */
  method SysAlloc(m: MState, nb: nat, direct: Addr, mp: Addr) returns (ok: bool, p: Addr)
    requires Good(m) && MIN_CHUNK_SIZE <= nb < WORD_MODULUS && (nb % 16 == 0 || nb == MAX_SIZE_T)
    requires Answer(m.S(), direct, MmapSize(nb)) && Answer(m.S(), mp, SegmentSize(nb))
    modifies m`mem, m`top, m`topsize, m`dv, m`dvsize, m`trimCheck, m`releaseChecks, m`leastAddr, m`segs, m`footprint,
             m`maxFootprint, m`layout, m.small, m.trees
    ensures ok && Good(m)
    ensures p == 0 ==> m.S() == old(m.S())
    ensures p != 0 ==>
              if p in m.layout.maps
              then MappedOut(old(m.S()), m.S(), p, nb) && m.layout.maps[p].len == MmapSize(nb)
                   && m.footprint == old(m.footprint) + MmapSize(nb)
              else HandedOut(old(m.S()), m.S(), p, nb) && m.footprint == old(m.footprint) + SegmentSize(nb)
    ensures p != 0 ==> nb % 16 == 0 && (m.footprintLimit != 0 ==> m.footprint <= m.footprintLimit)
    ensures p != 0 && p in m.layout.maps ==> m.segs == old(m.segs)
    ensures p != 0 && p !in m.layout.maps ==> SegmentSize(nb) > nb && Placed(old(m.segs), m.segs, mp, SegmentSize(nb))
    ensures m.maxFootprint == if p != 0 && m.footprint > old(m.maxFootprint) then m.footprint else old(m.maxFootprint)
    ensures |m.segs| > |old(m.segs)| ==> m.trimCheck == 0x20_0000
    ensures m.releaseChecks == if old(m.segs) == [] && m.segs != [] then 4095 else old(m.releaseChecks)
    ensures p != 0 && p in m.layout.maps <==>
              && nb >= MMAP_THRESHOLD && old(m.topsize) != 0 && direct != CMFAIL && MmapSize(nb) > nb
              && WithinLimit(old(m.footprint), m.footprintLimit, MmapSize(nb))
    ensures mp != CMFAIL && SegmentSize(nb) > nb && WithinLimit(old(m.footprint), m.footprintLimit, SegmentSize(nb)) ==>
              p != 0
  {
    hide Inv, SB.BinsOK, TB.BinsOK, OthersKept, BlockKept, Vacant, Placed, HandedOut, MappedOut, AlignUp,
      SB.SmallBins.Valid, TB.TreeBins.Valid;
    ghost var st := m.S();
    ok, p := true, 0;
    AlignedEnough(nb, 63, PAGE_SIZE);
    if nb >= MMAP_THRESHOLD && m.topsize != 0 {
      p := MmapAlloc(m, nb, direct);
      if p != 0 {
        OfItsKind(st, m.S(), p, nb);
        FootprintExact(m.S());
        return;
      }
    }
    var asize := SegmentSize(nb);
    AlignedEnough(nb, SYS_ALLOC_PADDING, GRANULARITY);
    if asize <= nb {
      return;
    }
    if m.footprintLimit != 0 {
      var fp := (m.footprint + asize) % WORD_MODULUS;
      if fp <= m.footprint || fp > m.footprintLimit {
        return;
      }
    }
    var tbase := mp;
    if tbase != CMFAIL {
      VacantRoom(m.S(), tbase, asize);
      ok, p := UseNewSegment(m, nb, tbase, asize);
      OfItsKind(st, m.S(), p, nb);
      FootprintExact(m.S());
    }
  }
}
