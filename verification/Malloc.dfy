/** `dlmalloc` */
module Malloc {
  import opened Words
  import opened BoundaryTags
  import opened HeapState
  import opened HeapSteps
  import opened HeapOps
  import opened HeapBins
  import opened MallocState
  import opened HandOut
  import opened Requests
  import opened TreeMalloc
  import opened SystemAlloc
  import opened Promises
  import opened Exhaustion
  import BinMap
  import TreeIndex
  import SB = SmallBins
  import TB = TreeBins

  /** The chunk size that malloc looks for; a size that cannot be had if the request is too large */
  function ChunkSizeFor(bytes: nat): (nb: nat)
    requires bytes < WORD_MODULUS
    ensures MIN_CHUNK_SIZE <= nb < WORD_MODULUS && (nb % 16 == 0 || nb == MAX_SIZE_T)
  {
    if bytes >= MAX_REQUEST then MAX_SIZE_T else
      RequestFits(bytes);
      RequestSize(bytes)
  }

  /** `unlink_first_small_chunk` of a bin that is marked */
  method UnlinkFirstSmall(m: MState, i: nat) returns (ok: bool, p: Addr)
    requires Good(m) && i < 32 && BinMap.Marked(m.small.smallmap, i)
    modifies m.small
    ensures ok && m.Valid() && p in old(m.S()).small && old(m.S()).small[p] == 8 * i
    ensures m.S() == Unbinned(old(m.S()), p) && Inv(m.S(), {p}, {})
    ensures IsFree(m.H(), m.dv, p) && m.layout.ch[p] == 8 * i && (8 * i) % 16 == 0
  {
    hide Inv, SB.BinsOK, TB.BinsOK, IsFree, BinMap.Marked;
    ghost var st := m.S();
    AboveLeast(m);
    ok, p := m.small.UnlinkFirst(i, m.leastAddr);
    assert p in st.small && st.small[p] == 8 * i;
    BinFacts(st, p, {}, {});
    NotInTree(st, p);
    assert m.S().tree == st.tree - {p};
    Unbin(st, p, {}, {});
    assert {} + {p} == {p};
    ChunkFactsSmall(st, p);
  }

  lemma AboveLeast(m: MState)
    requires Good(m)
    ensures forall q | q in m.small.node :: m.leastAddr <= q
  {
    hide Inv, SB.BinsOK, TB.BinsOK;
    BinsAboveLeast(m.S(), {}, {});
    assert forall q | q in m.small.node :: q in m.S().small;
  }

  lemma NotInTree(st: State, p: Addr)
    requires p in st.small && Inv(st, {}, {})
    ensures p !in st.tree && p in st.tags.ch && st.tags.ch[p] == st.small[p]
  {
    hide OK, DvTopOK, SegsOK, UsedOK, MapsOK, FootprintOK, LeastOK;
  }

  lemma ChunkFactsSmall(st: State, p: Addr)
    requires p in st.tags.ch && Inv(st, {}, {})
    ensures st.tags.ch[p] % 16 == 0 && st.tags.ch[p] >= 16 && (p != st.tags.top ==> st.tags.ch[p] >= MIN_CHUNK_SIZE)
  {
    hide DvTopOK, BinsMatch, SegsOK, UsedOK, MapsOK, FootprintOK, LeastOK;
    ChunkFacts(st.tags, p);
  }

  /** A remainderless fit from the bin for `nb` or the next one */
  method SmallExact(m: MState, nb: nat, i: nat) returns (ok: bool, p: Addr)
    requires Good(m) && nb % 16 == 0 && nb >= MIN_CHUNK_SIZE && nb <= 8 * i <= nb + 8 && i < 32
    requires BinMap.Marked(m.small.smallmap, i)
    modifies m`mem, m`layout, m.small
    ensures ok && Good(m) && p != 0 && HandedOut(old(m.S()), m.S(), p, nb)
    ensures p in old(m.S()).small && old(m.S()).small[p] == nb
  {
    hide Inv, SB.BinsOK, TB.BinsOK, IsFree, OthersKept, BlockKept, ClientsKept, BinMap.Marked;
    ghost var st := m.S();
    ok, p := UnlinkFirstSmall(m, i);
    ClientsUnaware(st, m.S());
    TakeWhole(m, p, 8 * i, nb, st);
  }

  /** The least non-empty small bin above `idx` */
  method NextSmallBin(smallmap: BinMap.Bits, smallbits: BinMap.Bits, idx: nat) returns (i: nat)
    requires idx < 31 && smallbits == BinMap.ShiftDown(smallmap, idx) && !BinMap.LowTwo(smallbits) && smallbits != 0
    ensures idx + 1 < i < 32 && BinMap.Marked(smallmap, i)
    ensures forall j: nat | idx <= j < i :: !BinMap.Marked(smallmap, j)
  {
    hide BinMap.Marked, BinMap.ShiftDown, BinMap.ShiftUp, BinMap.LowTwo, BinMap.LeftBits, BinMap.LeastBit, BinMap.Bit,
      BinMap.LowestClear;
    var leftbits := BinMap.And(BinMap.LeftBits(BinMap.Bit(idx)), BinMap.ShiftUp(smallbits, idx));
    LeftSmall(smallmap, leftbits, idx);
    var leastbit := BinMap.LeastBit(leftbits);
    BinMap.LeastBitIndex(leftbits);
    i := BinMap.CountTrailing(leastbit);
  }

  lemma LeftSmall(smallmap: BinMap.Bits, leftbits: BinMap.Bits, idx: nat)
    requires idx < 31 && !BinMap.LowTwo(BinMap.ShiftDown(smallmap, idx)) && BinMap.ShiftDown(smallmap, idx) != 0
    requires leftbits == BinMap.And(BinMap.LeftBits(BinMap.Bit(idx)),
             BinMap.ShiftUp(BinMap.ShiftDown(smallmap, idx), idx))
    ensures leftbits != 0
    ensures forall j: nat | j < 32 :: BinMap.Marked(leftbits, j) <==> idx + 1 < j && BinMap.Marked(smallmap, j)
    ensures !BinMap.Marked(smallmap, idx) && !BinMap.Marked(smallmap, idx + 1)
  {
    hide BinMap.Marked, BinMap.ShiftDown, BinMap.ShiftUp, BinMap.LowTwo, BinMap.LeftBits, BinMap.LeastBit, BinMap.Bit,
      BinMap.LowestClear;
    BinMap.ShiftedLowBits(smallmap, idx);
    BinMap.ShiftedZero(smallmap, idx);
    forall j: nat | j < 32 ensures BinMap.Marked(leftbits, j) <==> idx + 1 < j && BinMap.Marked(smallmap, j) {
      BinMap.LeftBitsAbove(BinMap.ShiftUp(BinMap.ShiftDown(smallmap, idx), idx), idx, j);
      BinMap.ShiftedBack(smallmap, idx, j);
    }
    BinMap.ZeroUnmarked(leftbits);
  }

  /** A chunk from the next non-empty small bin; what is left of it, if worth it, becomes dv. */
  method SmallNext(m: MState, nb: nat, i: nat) returns (ok: bool, p: Addr)
    requires Good(m) && nb % 16 == 0 && nb >= MIN_CHUNK_SIZE && nb < 8 * i && i < 32
    requires BinMap.Marked(m.small.smallmap, i)
    requires m.dvsize < TreeIndex.MIN_LARGE_SIZE
    modifies m`mem, m`layout, m`dv, m`dvsize, m.small, m.trees
    ensures ok && Good(m) && p != 0 && HandedOut(old(m.S()), m.S(), p, nb)
    ensures p in old(m.S()).small && old(m.S()).small[p] == 8 * i
  {
    hide Inv, SB.BinsOK, TB.BinsOK, IsFree, OthersKept, BlockKept, ClientsKept, BinMap.Marked, SB.SmallBins.Valid,
      TB.TreeBins.Valid;
    ghost var st := m.S();
    ok, p := UnlinkFirstSmall(m, i);
    ClientsUnaware(st, m.S());
    var rsize := 8 * i - nb;
    if rsize < MIN_CHUNK_SIZE {
      TakeWhole(m, p, 8 * i, nb, st);
    } else {
      var r := TakeFront(m, p, 8 * i, nb, st);
      ghost var st2 := m.S();
      ok := ReplaceDv(m, r, rsize, {r}, {});
      assert {r} - {r} == {};
      StillHanded(st, st2, m.S(), p, nb);
    }
  }

  // ----- dv -----

  method TakeDv(m: MState, nb: nat) returns (p: Addr)
    requires Good(m) && nb <= m.dvsize && nb % 16 == 0 && nb >= MIN_CHUNK_SIZE
    modifies m`mem, m`layout, m`dv, m`dvsize
    ensures Good(m) && p != 0 && p == old(m.dv) && HandedOut(old(m.S()), m.S(), p, nb)
  {
    hide Inv, SB.BinsOK, TB.BinsOK, OthersKept, BlockKept, ClientsKept, InUseFront, InUseWhole, SB.SmallBins.Valid,
      TB.TreeBins.Valid;
    ghost var st := m.S();
    DvWord(st, {}, {});
    ChunkFactsSmall(st, m.dv);
    NotMapped(st, {}, {}, m.dv);
    ClientsUnaware(st, st);
    var rsize := m.dvsize - nb;
    p := m.dv;
    if rsize >= MIN_CHUNK_SIZE {
      CutDv(m, nb);
      GiveFront(st, p, nb, true, {}, {}, m.S());
      assert RestLoose({}, p, nb, true) == {};
    } else {
      ExhaustDv(m);
      GiveWhole(st, p, {}, {}, m.S());
      assert {} - {p} == {};
    }
    Handed(st, st, m.S(), p, nb);
  }

  method CutDv(m: MState, nb: nat)
    requires m.dv in m.layout.ch && m.layout.ch[m.dv] == m.dvsize && m.dvsize % 16 == 0 && nb % 16 == 0
    requires 0 < nb <= m.dvsize
    modifies m`mem, m`layout, m`dv, m`dvsize
    ensures m.S() == GaveFront(old(m.S()), old(m.dv), nb, true)
  {
    hide SB.SmallBins.Contents, TB.TreeBins.Contents, InUseFront, SetSizeAndPinuseOfFree, SetSizeAndPinuseOfInuse;
    ghost var g := GaveFront(m.S(), m.dv, nb, true);
    CutDvMem(m.H(), m.dv, nb, m.dvsize);
    var rsize, p := m.dvsize - nb, m.dv;
    var r := p + nb;
    m.dv := r;
    m.dvsize := rsize;
    m.mem := SetSizeAndPinuseOfInuse(SetSizeAndPinuseOfFree(m.mem, r, rsize), p, nb);
    m.layout := LayoutOf(g);
  }

  lemma CutDvMem(h: Tags, v: Addr, nb: nat, s: nat)
    requires nb % 16 == 0 && s % 16 == 0 && 0 < nb <= s
    ensures InUseFront(h, v, nb, s) == SetSizeAndPinuseOfInuse(SetSizeAndPinuseOfFree(h.mem, v + nb, s - nb), v, nb)
  {
    assert v + nb + (s - nb) == v + s;
  }

  method ExhaustDv(m: MState)
    requires m.dv in m.layout.ch && m.layout.ch[m.dv] == m.dvsize && m.dvsize % 16 == 0 && m.dvsize > 0
    modifies m`mem, m`layout, m`dv, m`dvsize
    ensures m.S() == GaveWhole(old(m.S()), old(m.dv))
  {
    hide SB.SmallBins.Contents, TB.TreeBins.Contents, InUseWhole, SetInuseAndPinuse;
    ghost var g := GaveWhole(m.S(), m.dv);
    InUseWholeIs(m.H(), m.dv, m.dvsize);
    var dvs, p := m.dvsize, m.dv;
    m.dvsize := 0;
    m.dv := 0;
    m.mem := SetInuseAndPinuse(m.mem, p, dvs);
    m.layout := LayoutOf(g);
  }

  // ----- dlmalloc -----

  /** What malloc gives: a chunk of a segment, or one mapped for it alone. */
  ghost predicate Granted(st: State, st': State, p: Addr, nb: nat)
  {
    HandedOut(st, st', p, nb) || MappedOut(st, st', p, nb)
  }

  /** A chunk of just the size; or, if there is none and dv is too small, the least small one that is large enough,
      or else the least of the tree bins */
  ghost predicate FromSmall(st: State, nb: nat, p: Addr)
  {
    || (p in st.small && st.small[p] == nb)
    || (st.dvsize < nb && p in st.small && st.small[p] > nb
        && forall q | q in st.small && st.small[q] >= nb :: st.small[p] <= st.small[q])
    || (st.dvsize < nb && p in st.tree && (forall q | q in st.small :: st.small[q] < nb)
        && forall q | q in st.tree :: st.tree[p] <= st.tree[q])
  }

  /** The paths of a small request before dv and top; 0 if none of them serves. */
  method SmallRequest(m: MState, nb: nat) returns (ok: bool, p: Addr)
    requires Good(m) && nb % 16 == 0 && MIN_CHUNK_SIZE <= nb <= 240
    modifies m`mem, m`layout, m`dv, m`dvsize, m.small, m.trees
    ensures ok && Good(m)
    ensures p == 0 ==> m.S() == old(m.S()) && forall q | q in m.S().small :: m.S().small[q] != nb
    ensures p == 0 && m.dvsize < nb ==> (forall q | q in m.S().small :: m.S().small[q] < nb) && m.S().tree == map[]
    ensures p != 0 ==> HandedOut(old(m.S()), m.S(), p, nb) && FromSmall(old(m.S()), nb, p)
  {
    hide Inv, SB.BinsOK, TB.BinsOK, HandedOut, OthersKept, BinMap.Marked, BinMap.ShiftDown, BinMap.LowTwo,
      BinMap.LowestClear, SB.SmallBins.Valid, TB.TreeBins.Valid;
    ok, p := true, 0;
    var idx := nb / 8;
    var smallbits := BinMap.ShiftDown(m.small.smallmap, idx);
    BinMap.ShiftedLowBits(m.small.smallmap, idx);
    if BinMap.LowTwo(smallbits) {
      if BinMap.LowestClear(smallbits) {
        idx := idx + 1;
      }
      ok, p := SmallExact(m, nb, idx);
    } else if nb > m.dvsize {
      if smallbits != 0 {
        var i := NextSmallBin(m.small.smallmap, smallbits, idx);
        SmallerBins(m, nb, i);
        ok, p := SmallNext(m, nb, i);
      } else {
        BinMap.ShiftedZero(m.small.smallmap, idx);
        SmallerBins(m, nb, 32);
        if m.trees.treemap != 0 {
          ok, p := TmallocSmall(m, nb);
        } else {
          NoTreeChunk(m);
        }
      }
    } else {
      SmallerBins(m, nb, idx + 1);
    }
  }

  // ----- From padded sizes to bytes -----

  lemma PaddedFits(bytes: nat, size: nat)
    requires bytes < MAX_REQUEST && size % 16 == 0 && size >= 32
    ensures var nb := RequestSize(bytes);
            && (nb <= size <==> Fits(size, bytes)) && (nb == size <==> Exact(size, bytes))
            && (nb < size <==> 32 < size && bytes + 24 <= size)
  {
  }

  /** Sizes of free chunks are multiples of 16, and of 32 bytes at least; dv and top may be missing. */
  lemma FreeSizes(st: State)
    requires Inv(st, {}, {})
    ensures forall p | p in st.tags.ch && p != st.tags.top :: st.tags.ch[p] % 16 == 0 && st.tags.ch[p] >= 32
    ensures forall p | p in st.small :: FreeFor(st, p, 0) && st.tags.ch[p] == st.small[p]
    ensures forall p | p in st.tree :: FreeFor(st, p, 0) && st.tags.ch[p] == st.tree[p] >= TreeIndex.MIN_LARGE_SIZE
    ensures st.dvsize > 0 ==> FreeFor(st, st.dv, 0) && st.tags.ch[st.dv] == st.dvsize
    ensures st.topsize % 16 == 0
  {
    hide OK, SegsOK, UsedOK, MapsOK, FootprintOK, LeastOK;
    NoNullChunk(st.tags);
    forall p | p in st.tags.ch && p != st.tags.top ensures st.tags.ch[p] % 16 == 0 && st.tags.ch[p] >= 32 {
      ChunkFactsSmall(st, p);
    }
    if st.tags.top in st.tags.ch {
      ChunkFactsSmall(st, st.tags.top);
    }
  }

  /** A chunk that is chosen is one that serves. */
  lemma ServesBy(st: State, bytes: nat, p: Addr)
    requires FreeFor(st, p, 0) && Fits(st.tags.ch[p], bytes)
    ensures HeapServes(st, bytes)
  {
    assert FreeFor(st, p, bytes);
  }

  lemma ChoseSmall(st: State, bytes: nat, p: Addr)
    requires bytes <= MAX_SMALL_REQUEST && FromSmall(st, RequestSize(bytes), p) && Inv(st, {}, {})
    ensures HeapServes(st, bytes) && Choice(st, bytes, p)
  {
    hide Inv, HeapServes;
    FreeSizes(st);
    var nb := RequestSize(bytes);
    RequestFits(bytes);
    SizesFit(st, bytes);
    if p in st.small && st.small[p] == nb {
      ServesBy(st, bytes, p);
    } else if p in st.small && st.small[p] > nb {
      ServesBy(st, bytes, p);
    } else {
      ServesBy(st, bytes, p);
    }
  }

  /** The bins' sizes and dv's against the request */
  lemma SizesFit(st: State, bytes: nat)
    requires bytes < MAX_REQUEST && Inv(st, {}, {})
    ensures var nb := RequestSize(bytes);
            && (forall q | q in st.small :: (nb <= st.small[q] <==> Fits(st.small[q], bytes))
                  && (nb == st.small[q] <==> Exact(st.small[q], bytes)))
            && (forall q | q in st.tree :: nb <= st.tree[q] <==> Fits(st.tree[q], bytes))
            && (nb <= st.dvsize <==> Fits(st.dvsize, bytes)) && (nb < st.topsize <==> TopServes(st, bytes))
  {
    hide Inv;
    FreeSizes(st);
    RequestFits(bytes);
    forall q | q in st.small
      ensures (RequestSize(bytes) <= st.small[q] <==> Fits(st.small[q], bytes))
              && (RequestSize(bytes) == st.small[q] <==> Exact(st.small[q], bytes)) {
      PaddedFits(bytes, st.small[q]);
    }
    forall q | q in st.tree ensures RequestSize(bytes) <= st.tree[q] <==> Fits(st.tree[q], bytes) {
      PaddedFits(bytes, st.tree[q]);
    }
    if st.dvsize > 0 {
      PaddedFits(bytes, st.dvsize);
    }
    if st.topsize >= 32 {
      PaddedFits(bytes, st.topsize);
    }
  }

  lemma ChoseTree(st: State, bytes: nat, p: Addr)
    requires MAX_SMALL_REQUEST < bytes < MAX_REQUEST && TightestInTree(st, p, RequestSize(bytes)) && Inv(st, {}, {})
    ensures HeapServes(st, bytes) && Choice(st, bytes, p)
  {
    hide Inv, HeapServes, RequestSize;
    FreeSizes(st);
    SizesFit(st, bytes);
    ServesBy(st, bytes, p);
  }

  /** The bins have not served the request. */
  ghost predicate Passed(st: State, bytes: nat, nb: nat)
  {
    if bytes <= MAX_SMALL_REQUEST then
      && (forall q | q in st.small :: st.small[q] != nb)
      && (st.dvsize < nb ==> (forall q | q in st.small :: st.small[q] < nb) && st.tree == map[])
    else
      NoneTighter(st, nb)
  }

  lemma ChoseRest(st: State, bytes: nat, p: Addr)
    requires bytes < MAX_REQUEST && Passed(st, bytes, RequestSize(bytes)) && Inv(st, {}, {})
    requires var nb := RequestSize(bytes);
             if nb <= st.dvsize then p == st.dv else nb < st.topsize && p == st.tags.top
    ensures HeapServes(st, bytes) && Choice(st, bytes, p)
  {
    hide Inv, RequestSize;
    FreeSizes(st);
    RequestFits(bytes);
    SizesFit(st, bytes);
    if RequestSize(bytes) <= st.dvsize {
      ServesBy(st, bytes, p);
    }
  }

  lemma NotServed(st: State, bytes: nat)
    requires bytes < MAX_REQUEST && NothingFits(st, RequestSize(bytes)) && Inv(st, {}, {})
    ensures !HeapServes(st, bytes)
  {
    hide Inv, RequestSize;
    FreeSizes(st);
    SizesFit(st, bytes);
    if p :| FreeFor(st, p, bytes) {
      PaddedFits(bytes, st.tags.ch[p]);
    }
  }

  /** What the system is asked for, in bytes */
  lemma Asked(bytes: nat)
    requires bytes < MAX_REQUEST
    ensures var nb := RequestSize(bytes);
            && SegmentSize(nb) % 65536 == 0
            && (SegmentSize(nb) == 0
               || (nb < SegmentSize(nb) && bytes + 96 <= SegmentSize(nb) <= RoundedUp(bytes + 128, 65536)))
            && MmapSize(nb) % 4096 == 0
            && (MmapSize(nb) == 0 || (nb < MmapSize(nb) && bytes + 48 <= MmapSize(nb) <= RoundedUp(bytes + 128, 4096)))
            && (nb >= MMAP_THRESHOLD <==> bytes >= 262121)
  {
    hide RequestSize, AlignUp;
    var nb := RequestSize(bytes);
    RequestFits(bytes);
    PaddedFits(bytes, MMAP_THRESHOLD - 16);
    AlignedEnough(nb, SYS_ALLOC_PADDING, GRANULARITY);
    AlignedEnough(nb, 63, PAGE_SIZE);
    WrapNone(nb + SYS_ALLOC_PADDING);
    WrapNone(nb + 63);
    AlignMod(nb + SYS_ALLOC_PADDING, GRANULARITY);
    AlignMod(nb + 63, PAGE_SIZE);
    LeastAbove(SegmentSize(nb), nb + SYS_ALLOC_PADDING, bytes + 128, 65536);
    LeastAbove(MmapSize(nb), nb + 63, bytes + 128, 4096);
  }

  /** A multiple that is less than one unit above `n` */
  lemma LeastAbove(s: nat, n: nat, m: nat, unit: nat)
    requires unit == 4096 || unit == 65536
    ensures s % unit == 0 && s < n + unit && n <= m ==> s <= RoundedUp(m, unit)
  {
  }

  /** Memory that the system gives is enough, and within the limit. */
  lemma GivenFits(st: State, limit: nat, answer: Addr, size: nat, most: nat, nb: nat)
    requires Answer(st, answer, size) && Given(st, limit, answer, most) && (size == 0 || nb < size <= most)
    ensures answer != CMFAIL && nb < size && WithinLimit(st.footprint, limit, size)
  {
    WrapNone(st.footprint + size);
  }

  lemma GrantedSize(st: State, st': State, bytes: nat, p: Addr)
    requires bytes < MAX_REQUEST && Granted(st, st', p, RequestSize(bytes))
    ensures (p + 16) % 16 == 0 && Sized(st', p, bytes)
  {
    RequestFits(bytes);
  }

  lemma FromHeap(st: State, st': State, limit: nat, bytes: nat, direct: Addr, mp: Addr, p: Addr)
    requires bytes < MAX_REQUEST && HandedOut(st, st', p, RequestSize(bytes)) && st'.footprint == st.footprint
    requires HeapServes(st, bytes) && Choice(st, bytes, p)
    ensures Allocated(st, st', limit, bytes, direct, mp, p + 16)
  {
    hide HeapServes, Choice, RequestSize, Sized;
    OfItsKind(st, st', p, RequestSize(bytes));
    GrantedSize(st, st', bytes, p);
    hide HandedOut;
  }

  lemma FromSystem(st: State, st': State, limit: nat, bytes: nat, direct: Addr, mp: Addr, p: Addr)
    requires bytes < MAX_REQUEST && NothingFits(st, RequestSize(bytes)) && Inv(st, {}, {}) && Inv(st', {}, {})
    requires var nb := RequestSize(bytes); Answer(st, direct, MmapSize(nb)) && Answer(st, mp, SegmentSize(nb))
    requires var nb := RequestSize(bytes);
             && (p == 0 ==> st' == st)
             && (p != 0 ==> if p in st'.maps
                   then MappedOut(st, st', p, nb)
                     && st'.footprint == st.footprint + MmapSize(nb) == st.footprint + st'.maps[p].len
                   else HandedOut(st, st', p, nb) && st'.footprint == st.footprint + SegmentSize(nb))
             && (p != 0 ==> limit != 0 ==> st'.footprint <= limit)
             && (p != 0 && p !in st'.maps ==> SegmentSize(nb) > nb)
             && (p != 0 && p in st'.maps <==>
                   && nb >= MMAP_THRESHOLD && st.topsize != 0 && direct != CMFAIL && MmapSize(nb) > nb
                   && WithinLimit(st.footprint, limit, MmapSize(nb)))
             && (mp != CMFAIL && SegmentSize(nb) > nb && WithinLimit(st.footprint, limit, SegmentSize(nb)) ==> p != 0)
    ensures Allocated(st, st', limit, bytes, direct, mp, if p == 0 then 0 else p + 16)
  {
    hide Inv, HeapServes, RequestSize, SegmentSize, MmapSize, Answer, WithinLimit, RoundedUp, Sized, NothingFits, Given;
    var nb := RequestSize(bytes);
    NotServed(st, bytes);
    Asked(bytes);
    if OwnMapping(st, limit, bytes, direct) {
      GivenFits(st, limit, direct, MmapSize(nb), RoundedUp(bytes + 128, 4096), nb);
    }
    if Given(st, limit, mp, RoundedUp(bytes + 128, 65536)) {
      GivenFits(st, limit, mp, SegmentSize(nb), RoundedUp(bytes + 128, 65536), nb);
    }
    if p != 0 {
      GrantedSize(st, st', bytes, p);
    }
  }

  /** `dlmalloc`: the address of the block's memory, or 0; `direct` and `mp` are the system's answers if asked. */
  method Dlmalloc(m: MState, bytes: nat, direct: Addr, mp: Addr) returns (ok: bool, mem: Addr)
    requires Good(m) && bytes < WORD_MODULUS
    requires Answer(m.S(), direct, MmapSize(ChunkSizeFor(bytes))) && Answer(m.S(), mp, SegmentSize(ChunkSizeFor(bytes)))
    modifies m, m.small, m.trees
    ensures ok && Good(m)
    ensures Allocated(old(m.S()), m.S(), old(m.footprintLimit), bytes, direct, mp, mem)
    ensures mem == 0 ==> m.S() == old(m.S())
    ensures m.footprintLimit == old(m.footprintLimit) && (|m.segs| > |old(m.segs)| ==> m.trimCheck == 0x20_0000)
    ensures m.releaseChecks == if old(m.segs) == [] && m.segs != [] then 4095 else old(m.releaseChecks)
    ensures m.segs == old(m.segs) || Placed(old(m.segs), m.segs, mp, m.footprint - old(m.footprint))
    ensures m.maxFootprint == if m.footprint > old(m.footprint) && m.footprint > old(m.maxFootprint) then m.footprint
                              else old(m.maxFootprint)
    ensures mem != 0 ==> mem >= 16 && bytes < MAX_REQUEST && Granted(old(m.S()), m.S(), mem - 16, RequestSize(bytes))
  {
    hide Inv, SB.BinsOK, TB.BinsOK, HandedOut, MappedOut, OthersKept, SB.SmallBins.Valid, TB.TreeBins.Valid, Answer,
      AlignUp, NothingFits, SegmentSize, Choice, HeapServes, FromSmall, TightestInTree, NoneTighter, Allocated, Passed,
      Placed, MmapSize, WithinLimit, SB.SmallBins.Contents, TB.TreeBins.Contents;
    ghost var st := m.S();
    ok, mem := true, 0;
    var nb, p := ChunkSizeFor(bytes), 0;
    if bytes < MAX_REQUEST {
      RequestFits(bytes);
    }
    if bytes <= MAX_SMALL_REQUEST {
      ok, p := SmallRequest(m, nb);
      if p != 0 {
        ChoseSmall(st, bytes, p);
      } else {
        PassedSmall(st, bytes, nb);
      }
    } else if bytes < MAX_REQUEST {
      if m.trees.treemap != 0 {
        ok, p := TmallocLarge(m, nb);
      } else {
        NoTreeChunk(m);
        PassedLarge(st, bytes, nb);
      }
      if p != 0 {
        ChoseTree(st, bytes, p);
      } else {
        PassedLarge(st, bytes, nb);
      }
    }
    if p == 0 {
      NoneInBins(st, bytes, nb);
      DvBounded(m.S());
      if nb <= m.dvsize {
        ChoseRest(st, bytes, m.dv);
        p := TakeDv(m, nb);
      } else if nb < m.topsize {
        ChoseRest(st, bytes, m.top);
        ClientsUnaware(m.S(), m.S());
        p := SplitTop(m, nb, m.S());
      } else {
        ok, p := SysAlloc(m, nb, direct, mp);
        if bytes < MAX_REQUEST {
          FromSystem(st, m.S(), m.footprintLimit, bytes, direct, mp, p);
        } else {
          NeverServed(st, m.footprintLimit, bytes, direct, mp);
        }
        mem := if p != 0 then p + 16 else 0;
        return;
      }
    }
    mem := p + 16;
    FromHeap(st, m.S(), m.footprintLimit, bytes, direct, mp, p);
  }

  lemma NeverServed(st: State, limit: nat, bytes: nat, direct: Addr, mp: Addr)
    requires bytes >= MAX_REQUEST
    ensures Allocated(st, st, limit, bytes, direct, mp, 0)
  {
  }

  lemma PassedSmall(st: State, bytes: nat, nb: nat)
    requires bytes <= MAX_SMALL_REQUEST && forall q | q in st.small :: st.small[q] != nb
    requires st.dvsize < nb ==> (forall q | q in st.small :: st.small[q] < nb) && st.tree == map[]
    ensures Passed(st, bytes, nb)
  {
  }

  lemma PassedLarge(st: State, bytes: nat, nb: nat)
    requires bytes > MAX_SMALL_REQUEST && (st.tree == map[] || NoneTighter(st, nb))
    ensures NoneTighter(st, nb) && Passed(st, bytes, nb)
  {
  }

  /** Where the bins have not served a request, they cannot, unless dv can. */
  lemma NoneInBins(st: State, bytes: nat, nb: nat)
    requires bytes < WORD_MODULUS && nb == ChunkSizeFor(bytes) && (bytes < MAX_REQUEST ==> Passed(st, bytes, nb))
    requires Inv(st, {}, {})
    ensures st.dvsize < nb && st.topsize <= nb ==> NothingFits(st, nb)
  {
    hide Inv, NothingFits;
    if bytes >= MAX_REQUEST {
      TooLarge(st);
    } else if st.dvsize < nb && st.topsize <= nb {
      RequestFits(bytes);
      SmallSizes(st);
      NothingLeft(st, nb);
    }
  }

  /** dv and top are smaller than any size that stands for failure. */
  lemma DvBounded(st: State)
    requires Inv(st, {}, {})
    ensures st.dvsize < MAX_SIZE_T && st.topsize < MAX_SIZE_T
  {
    hide OK, BinsMatch, UsedOK, MapsOK, FootprintOK, SegsOK, LeastOK;
    DvWord(st, {}, {});
    if st.dv != 0 {
      ChunkBelowLimit(st, {}, {}, st.dv);
    }
    if st.tags.top != 0 {
      ChunkBelowLimit(st, {}, {}, st.tags.top);
    }
  }
}
