/** A segment grows at its front: the new memory is first one block. */
module SegmentFront {
  import opened Words
  import opened BoundaryTags
  import opened HeapState
  import opened HeapSteps
  import opened HeapOps
  import opened HeapOps2
  import opened SegmentOps
  import opened SegmentGrow

  function Fronted(st: State, k: nat, base: Addr, size: nat): State
    requires k < |st.segs| && size % 16 == 0
  {
    var h := st.tags;
    st.(tags := h.(mem := h.mem[base + 8 := Head(size, true, true)], ch := h.ch[base := size], used := h.used + {base}),
      live := st.live + {base},
        segs := st.segs[k := st.segs[k].(base := base, size := st.segs[k].size + size)],
        footprint := st.footprint + size, least := LeastOf(st.least, base))
  }

  lemma AddFront(st: State, k: nat, base: Addr, size: nat, L: set<Addr>, Y: set<Addr>)
    requires k < |st.segs| && size % 16 == 0 && Vacant(st, base, size) && base + size == st.segs[k].base
    requires Inv(st, L, Y)
    ensures Inv(Fronted(st, k, base, size), L, Y) && base !in st.tags.ch && base !in st.live && base !in st.maps
    ensures forall p :: BlockKept(st, Fronted(st, k, base, size), p)
  {
    hide MapsOK, LeastOK, FootprintOK, BinsMatch, UsedOK, SegsOK, DvTopOK, BlockKept, OK, Vacant;
    var st' := Fronted(st, k, base, size);
    MapNewDead(st, base, size, L, Y);
    MapNotThere(st, base, size, L, Y);
    FrontTags(st, k, base, size, L, Y);
    FrontSegs(st, k, base, size, L, Y);
    FrontRest(st, k, base, size, L, Y);
    FrontMaps(st, k, base, size, L, Y);
    forall p ensures BlockKept(st, st', p) {
      FrontKept(st, k, base, size, L, Y, p);
    }
  }

  lemma MapNotThere(st: State, base: Addr, size: nat, L: set<Addr>, Y: set<Addr>)
    requires Vacant(st, base, size) && Inv(st, L, Y)
    ensures base !in st.maps
  {
    hide MapsOK, LeastOK, FootprintOK, BinsMatch, UsedOK, SegsOK, DvTopOK, OK, Vacant;
    VacantPages(st, base, size);
    if base in st.maps {
      VacantMap(st, base, size, base);
      MapWords(st, base);
    }
  }

  /** Chunks are well apart from vacant memory. */
  lemma OutOfVacant(st: State, base: Addr, size: nat, L: set<Addr>, Y: set<Addr>, p: Addr)
    requires p in st.tags.ch && Vacant(st, base, size) && Inv(st, L, Y)
    ensures p + st.tags.ch[p] + 32 <= base || base + size <= p
  {
    hide MapsOK, LeastOK, FootprintOK, BinsMatch, UsedOK, DvTopOK, SegsOK, Vacant, OK;
    var k := SegOf(st.tags, st.segs, p);
    VacantSeg(st, base, size, k);
  }

  lemma FrontTags(st: State, k: nat, base: Addr, size: nat, L: set<Addr>, Y: set<Addr>)
    requires k < |st.segs| && size % 16 == 0 && Vacant(st, base, size) && base + size == st.segs[k].base
    requires base !in st.tags.ch && Inv(st, L, Y)
    ensures OK(Fronted(st, k, base, size).tags)
  {
    hide MapsOK, LeastOK, FootprintOK, BinsMatch, UsedOK, SegsOK, DvTopOK, Vacant, ChunkOK, FenceOK;
    var h, h' := st.tags, Fronted(st, k, base, size).tags;
    VacantPages(st, base, size);
    forall p | p in h.ch ensures ChunkOK(h', p) && (p + h.ch[p] + 32 <= base || base + size <= p) {
      OutOfVacant(st, base, size, L, Y, p);
      FrontOther(st, k, base, size, L, Y, p);
    }
    FrontNew(st, k, base, size, L, Y);
    forall p, q | p in h'.ch && q in h'.ch && p != q ensures Apart(h', p, q) {
      if p != base && q != base {
        assert Apart(h, p, q);
      }
    }
    forall f | f in h'.fence ensures FenceOK(h', f) && (f + 32 <= base || base + size <= f) {
      FrontFence(st, k, base, size, L, Y, f);
    }
    forall f, p | f in h'.fence && p in h'.ch ensures EndApart(h', f, p) {
      assert p != base ==> EndApart(h, f, p);
    }
    FrontTop(st, k, base, size, L, Y);
    forall p | p in h'.ch && h'.top in h'.ch ensures EndApart(h', TopEnd(h'), p) {
      assert p != base ==> EndApart(h, TopEnd(h), p);
    }
  }

  lemma FrontOther(st: State, k: nat, base: Addr, size: nat, L: set<Addr>, Y: set<Addr>, p: Addr)
    requires k < |st.segs| && size % 16 == 0 && Vacant(st, base, size) && base !in st.tags.ch && p in st.tags.ch
    requires Inv(st, L, Y)
    ensures ChunkOK(Fronted(st, k, base, size).tags, p)
  {
    hide MapsOK, LeastOK, FootprintOK, BinsMatch, SegsOK, Vacant, OK, Pin, ChunkOK;
    var h, h' := st.tags, Fronted(st, k, base, size).tags;
    UsedAreChunks(st, L, Y);
    VacantPages(st, base, size);
    OutOfVacant(st, base, size, L, Y, p);
    ChunkAt(h, p);
    ChunkFactsAt(st, L, Y, p);
    DvWordTop(st, L, Y);
    KeepChunk(h, h', p);
  }

  lemma DvWordTop(st: State, L: set<Addr>, Y: set<Addr>)
    requires Inv(st, L, Y)
    ensures (st.tags.top in st.tags.ch || st.tags.top == 0) && 0 !in st.tags.ch && st.tags.top !in st.tags.used
    ensures st.dv !in st.tags.used
    ensures st.tags.top in st.tags.ch ==> st.tags.ch[st.tags.top] == st.topsize
  {
    hide MapsOK, LeastOK, FootprintOK, BinsMatch, SegsOK, UsedOK;
    NoNullChunk(st.tags);
    TopFree(st, L, Y);
  }

  lemma FrontNew(st: State, k: nat, base: Addr, size: nat, L: set<Addr>, Y: set<Addr>)
    requires k < |st.segs| && size % 16 == 0 && Vacant(st, base, size) && base + size == st.segs[k].base
    requires base !in st.tags.ch && Inv(st, L, Y)
    ensures ChunkOK(Fronted(st, k, base, size).tags, base)
  {
    hide MapsOK, LeastOK, FootprintOK, BinsMatch, SegsOK, Vacant, OK, Pin, Cin, SizeOf;
    var h, h' := st.tags, Fronted(st, k, base, size).tags;
    VacantPages(st, base, size);
    PageSizes(size);
    PageAligned(base);
    DvWordTop(st, L, Y);
    BasePinned(st, k, L, Y);
    assert h'.HeadOf(base) == Head(size, true, true) && h'.HeadOf(base + size) == h.HeadOf(base + size);
  }

  lemma BasePinned(st: State, k: nat, L: set<Addr>, Y: set<Addr>)
    requires k < |st.segs| && Inv(st, L, Y)
    ensures st.segs[k].base in st.tags.ch && Pin(st.tags.HeadOf(st.segs[k].base))
  {
    hide MapsOK, LeastOK, FootprintOK, BinsMatch, OK, Pin, InSomeSeg;
    assert SegOK(st.tags, st.segs, k);
  }

  lemma FrontFence(st: State, k: nat, base: Addr, size: nat, L: set<Addr>, Y: set<Addr>, f: Addr)
    requires k < |st.segs| && size % 16 == 0 && Vacant(st, base, size) && f in st.tags.fence && base !in st.tags.ch
    requires Inv(st, L, Y)
    ensures FenceOK(Fronted(st, k, base, size).tags, f) && (f + 32 <= base || base + size <= f)
  {
    hide MapsOK, LeastOK, FootprintOK, BinsMatch, SegsOK, Vacant, UsedOK, DvTopOK, ChunkOK, Apart, EndApart;
    VacantPages(st, base, size);
    var j := FenceSeg(st.tags, st.segs, f);
    VacantSeg(st, base, size, j);
    assert FenceOK(st.tags, f);
  }

  /** top's end is apart from vacant memory, too. */
  lemma FrontTop(st: State, k: nat, base: Addr, size: nat, L: set<Addr>, Y: set<Addr>)
    requires k < |st.segs| && Vacant(st, base, size) && Inv(st, L, Y)
    ensures st.tags.top in st.tags.ch && st.tags.top > 0
    ensures TopEnd(st.tags) + TOP_FOOT_SIZE <= base || base + size <= st.tags.top
    ensures base + size == st.segs[0].base ==> base + size <= st.tags.top
  {
    hide Inv, Vacant;
    VacantSeg(st, base, size, 0);
    Seg0(st, L, Y);
  }

  lemma FrontSegs(st: State, k: nat, base: Addr, size: nat, L: set<Addr>, Y: set<Addr>)
    requires k < |st.segs| && size % 16 == 0 && Vacant(st, base, size) && base + size == st.segs[k].base
    requires base !in st.tags.ch && Inv(st, L, Y)
    ensures SegsOK(Fronted(st, k, base, size).tags, Fronted(st, k, base, size).segs)
  {
    hide MapsOK, LeastOK, FootprintOK, BinsMatch, UsedOK, DvTopOK, Vacant, OK, Pin, SegOK, SegsApart;
    var h, st' := st.tags, Fronted(st, k, base, size);
    FrontTop(st, k, base, size, L, Y);
    forall j: nat | j < |st.segs| ensures SegEnd(st'.tags, st'.segs, j) == SegEnd(h, st.segs, j) {
    }
    forall j: nat | j < |st'.segs| ensures SegOK(st'.tags, st'.segs, j) {
      FrontSeg(st, k, base, size, L, Y, j);
    }
    forall i: nat, j: nat | i < |st'.segs| && j < |st'.segs| && i != j ensures SegsApart(st'.segs, i, j) {
      FrontApart(st, k, base, size, L, Y, i, j);
    }
    forall p | p in st'.tags.ch ensures InSomeSeg(st'.tags, st'.segs, p) {
      if p == base {
        FrontIn(st, k, base, size, L, Y);
      } else {
        assert InSomeSeg(h, st.segs, p);
        var j: nat :| ChunkInSeg(h, st.segs, j, p);
        assert ChunkInSeg(st'.tags, st'.segs, j, p);
      }
    }
    forall f | f in st'.tags.fence ensures exists j: nat :: 0 < j < |st'.segs| && f == SegEnd(st'.tags, st'.segs, j) {
      var j := FenceSeg(h, st.segs, f);
      assert f == SegEnd(st'.tags, st'.segs, j);
    }
  }

  lemma FrontIn(st: State, k: nat, base: Addr, size: nat, L: set<Addr>, Y: set<Addr>)
    requires k < |st.segs| && size % 16 == 0 && base + size == st.segs[k].base && base !in st.tags.ch && Inv(st, L, Y)
    ensures ChunkInSeg(Fronted(st, k, base, size).tags, Fronted(st, k, base, size).segs, k, base)
  {
    hide MapsOK, LeastOK, FootprintOK, BinsMatch, UsedOK, DvTopOK, OK, Pin, SegsApart, InSomeSeg;
    assert SegOK(st.tags, st.segs, k);
  }

  lemma FrontSeg(st: State, k: nat, base: Addr, size: nat, L: set<Addr>, Y: set<Addr>, j: nat)
    requires k < |st.segs| && size % 16 == 0 && Vacant(st, base, size) && base + size == st.segs[k].base
    requires base !in st.tags.ch && j < |st.segs|
    requires Inv(st, L, Y)
    ensures SegOK(Fronted(st, k, base, size).tags, Fronted(st, k, base, size).segs, j)
  {
    hide MapsOK, LeastOK, FootprintOK, BinsMatch, UsedOK, DvTopOK, Vacant, OK, Pin, SegsApart, InSomeSeg;
    var h, st' := st.tags, Fronted(st, k, base, size);
    VacantPages(st, base, size);
    VacantSeg(st, base, size, j);
    assert SegOK(h, st.segs, j);
    FrontTop(st, k, base, size, L, Y);
    if j == k {
      assert st'.tags.HeadOf(base) == Head(size, true, true);
    }
  }

  lemma FrontApart(st: State, k: nat, base: Addr, size: nat, L: set<Addr>, Y: set<Addr>, i: nat, j: nat)
    requires k < |st.segs| && size % 16 == 0 && Vacant(st, base, size) && base + size == st.segs[k].base
    requires i < |st.segs| && j < |st.segs| && i != j
    requires Inv(st, L, Y)
    ensures SegsApart(Fronted(st, k, base, size).segs, i, j)
  {
    hide MapsOK, LeastOK, FootprintOK, BinsMatch, UsedOK, DvTopOK, Vacant, OK, SegsOK;
    VacantSeg(st, base, size, i);
    VacantSeg(st, base, size, j);
    SegsApartAt(st.tags, st.segs, i, j);
    SegSizePos(st.tags, st.segs, i);
    SegSizePos(st.tags, st.segs, j);
  }

  lemma FrontRest(st: State, k: nat, base: Addr, size: nat, L: set<Addr>, Y: set<Addr>)
    requires k < |st.segs| && size % 16 == 0 && Vacant(st, base, size) && base !in st.tags.ch && base !in st.maps
    requires Inv(st, L, Y)
    ensures var st' := Fronted(st, k, base, size);
            DvTopOK(st') && BinsMatch(st', L) && UsedOK(st', Y) && FootprintOK(st') && LeastOK(st')
  {
    hide MapsOK, SegsOK, OK, Vacant;
    var st' := Fronted(st, k, base, size);
    DvWordTop(st, L, Y);
    VacantRoom(st, base, size);
    VacantPages(st, base, size);
    assert Records(st'.segs) == Records(st.segs) by {
      SameRecords(st.segs, st'.segs);
    }
    SegSizesSet(st.segs, k, st'.segs[k]);
    FrontBins(st, st', base, L);
    UsedNew(st, L, Y, base);
  }

  lemma UsedNew(st: State, L: set<Addr>, Y: set<Addr>, base: Addr)
    requires base !in st.tags.ch && Inv(st, L, Y)
    ensures base !in st.live && base !in Records(st.segs) && base !in Y && base !in st.tags.used
  {
    hide MapsOK, SegsOK, LeastOK, FootprintOK, BinsMatch, DvTopOK, Records;
    UsedAreChunks(st, L, Y);
  }

  lemma FrontBins(st: State, st': State, base: Addr, L: set<Addr>)
    requires BinsMatch(st, L) && st'.small == st.small && st'.tree == st.tree && st'.dv == st.dv && base !in st.tags.ch
    requires st'.tags.used == st.tags.used + {base} && st'.tags.top == st.tags.top && base in st'.tags.ch
    requires st'.tags.ch == st.tags.ch[base := st'.tags.ch[base]]
    ensures BinsMatch(st', L)
  {
    forall p | IsFree(st'.tags, st'.dv, p) ensures p in L || p in st'.small || p in st'.tree {
      assert IsFree(st.tags, st.dv, p);
    }
    forall p | p in st'.small || p in st'.tree ensures IsFree(st'.tags, st'.dv, p) && st'.tags.ch[p] == st.tags.ch[p] {
      assert IsFree(st.tags, st.dv, p);
    }
  }

  lemma {:induction false} SegSizesSet(segs: seq<Segment>, k: nat, s: Segment)
    requires k < |segs|
    ensures SegSizes(segs[k := s]) == SegSizes(segs) - segs[k].size + s.size
  {
    if k == 0 {
      assert segs[k := s][1..] == segs[1..];
    } else {
      SegSizesSet(segs[1..], k - 1, s);
      assert segs[k := s][1..] == segs[1..][k - 1 := s];
    }
  }

  lemma FrontMaps(st: State, k: nat, base: Addr, size: nat, L: set<Addr>, Y: set<Addr>)
    requires k < |st.segs| && size % 16 == 0 && Vacant(st, base, size) && base + size == st.segs[k].base
    requires Inv(st, L, Y)
    ensures MapsOK(Fronted(st, k, base, size))
    ensures forall p | p in st.maps :: SameMapped(st.tags, Fronted(st, k, base, size).tags, p, st.maps[p])
  {
    hide MapsOK, Vacant, LeastOK, FootprintOK, BinsMatch, UsedOK, DvTopOK, SegsOK, OK;
    var st' := Fronted(st, k, base, size);
    VacantPages(st, base, size);
    PageSizes(size);
    forall p | p in st.maps
      ensures MapApart(st.maps[p], base, size) && MapApart(st.maps[p], base, size + st.segs[k].size) {
      MapSeg(st, p, k);
      MapWords(st, p);
      VacantMap(st, base, size, p);
    }
    MapsMoved(st, st', base, size);
  }

  lemma FrontKept(st: State, k: nat, base: Addr, size: nat, L: set<Addr>, Y: set<Addr>, p: Addr)
    requires k < |st.segs| && size % 16 == 0 && Vacant(st, base, size) && base !in st.tags.ch
    requires p in st.maps ==> SameMapped(st.tags, Fronted(st, k, base, size).tags, p, st.maps[p])
    requires Inv(st, L, Y)
    ensures BlockKept(st, Fronted(st, k, base, size), p)
  {
    hide MapsOK, Vacant, LeastOK, FootprintOK, BinsMatch, DvTopOK, SegsOK, OK, SameMapped, UsedOK;
    VacantPages(st, base, size);
    if p in st.live {
      UsedAreChunks(st, L, Y);
      OutOfVacant(st, base, size, L, Y, p);
      PageSizes(size);
      assert SameBlock(st.tags, Fronted(st, k, base, size).tags, p, st.tags.ch[p]);
    }
  }
}
