/** Segments: the first one, the one with top growing or shrinking, new ones, and ones given back. */
module SegmentGrow {
  import opened Words
  import opened BoundaryTags
  import opened HeapState
  import opened HeapSteps
  import opened HeapOps
  import opened HeapOps2
  import opened HeapBins
  import opened SegmentOps
  import TreeIndex

  function LeastOf(least: Addr, base: Addr): Addr
  {
    if least == 0 || base < least then base else least
  }

  /** `init_top` */
  function TopMem(mem: map<Addr, nat>, p: Addr, psize: nat): map<Addr, nat>
    requires psize % 16 == 0
  {
    mem[p + 8 := Head(psize, false, true)][p + psize + 8 := TOP_FOOT_SIZE]
  }

  lemma PageSizes(size: nat)
    requires size > 0 && size % 4096 == 0
    ensures size >= 4096 && (size - TOP_FOOT_SIZE) % 16 == 0
  {
  }

  // ----- The first segment -----

  function First(st: State, base: Addr, size: nat): State
    requires size >= TOP_FOOT_SIZE && (size - TOP_FOOT_SIZE) % 16 == 0
  {
    var s: nat := size - TOP_FOOT_SIZE;
    st.(tags := Tags(TopMem(st.tags.mem, base, s), map[base := s], {}, base, {}), topsize := s,
        segs := [Segment(base, size, 0)], footprint := st.footprint + size, least := LeastOf(st.least, base))
  }

  lemma FirstSegment(st: State, base: Addr, size: nat)
    requires st.tags.top == 0 && Vacant(st, base, size) && size >= TOP_FOOT_SIZE && (size - TOP_FOOT_SIZE) % 16 == 0
    requires Inv(st, {}, {})
    ensures Inv(First(st, base, size), {}, {})
    ensures forall p :: BlockKept(st, First(st, base, size), p)
  {
    hide MapsOK, LeastOK, FootprintOK, BinsMatch, UsedOK, SegsOK, DvTopOK, BlockKept, OK, Vacant;
    var st' := First(st, base, size);
    VacantPages(st, base, size);
    NothingYet(st);
    FirstTags(st'.tags, st.tags.mem, base, size);
    FirstSegs(st'.tags, st.tags.mem, base, size);
    FirstRest(st, base, size);
    FirstMaps(st, base, size);
    forall p ensures BlockKept(st, st', p) {
      FirstKept(st, base, size, p);
    }
  }

  /** Without a segment there are no chunks. */
  lemma NothingYet(st: State)
    requires st.tags.top == 0 && Inv(st, {}, {})
    ensures st.segs == [] && st.tags.ch == map[] && st.tags.used == {} && st.tags.fence == {} && st.live == {}
    ensures st.dv == 0
    ensures st.small == map[] && st.tree == map[]
  {
    hide MapsOK, LeastOK, FootprintOK;
    var h := st.tags;
    if p :| p in h.ch {
      var k := SegOf(h, st.segs, p);
      assert false;
    }
    if f :| f in h.fence {
      var k := FenceSeg(h, st.segs, f);
      assert false;
    }
    BinsAboveLeast(st, {}, {});
    assert h.ch == map[] && st.small == map[] && st.tree == map[];
    assert Records([]) == {};
  }

  lemma FirstTags(h': Tags, mem: map<Addr, nat>, base: Addr, size: nat)
    requires base > 0 && base % 4096 == 0 && size > 0 && size % 4096 == 0 && base + size <= TreeIndex.SIZE_MODULUS
    requires size >= TOP_FOOT_SIZE && (size - TOP_FOOT_SIZE) % 16 == 0
    requires h' == Tags(TopMem(mem, base, size - TOP_FOOT_SIZE), map[base := size - TOP_FOOT_SIZE], {}, base, {})
    ensures OK(h')
  {
    hide SizeOf, Pin, Cin;
    PageSizes(size);
    PageAligned(base);
    var s := size - TOP_FOOT_SIZE;
    assert h'.HeadOf(base) == Head(s, false, true) && h'.HeadOf(base + s) == TOP_FOOT_SIZE;
    assert ChunkOK(h', base);
  }

  lemma FirstSegs(h': Tags, mem: map<Addr, nat>, base: Addr, size: nat)
    requires base > 0 && base % 4096 == 0 && size > 0 && size % 4096 == 0 && base + size <= TreeIndex.SIZE_MODULUS
    requires size >= TOP_FOOT_SIZE && (size - TOP_FOOT_SIZE) % 16 == 0
    requires h' == Tags(TopMem(mem, base, size - TOP_FOOT_SIZE), map[base := size - TOP_FOOT_SIZE], {}, base, {})
    ensures SegsOK(h', [Segment(base, size, 0)])
  {
    hide SizeOf, Pin, Cin;
    var s, segs := size - TOP_FOOT_SIZE, [Segment(base, size, 0)];
    assert h'.HeadOf(base) == Head(s, false, true);
    assert SegOK(h', segs, 0);
    assert ChunkInSeg(h', segs, 0, base);
    assert InSomeSeg(h', segs, base);
  }

  lemma FirstRest(st: State, base: Addr, size: nat)
    requires st.segs == [] && st.tags.ch == map[] && st.tags.used == {} && st.tags.fence == {} && st.live == {}
    requires st.dv == 0
    requires st.small == map[] && st.tree == map[] && FootprintOK(st) && Vacant(st, base, size)
    requires size >= TOP_FOOT_SIZE && (size - TOP_FOOT_SIZE) % 16 == 0 && DvTopOK(st) && LeastOK(st)
    ensures var st' := First(st, base, size);
            DvTopOK(st') && BinsMatch(st', {}) && UsedOK(st', {}) && FootprintOK(st') && LeastOK(st')
  {
    hide TopMem;
    PageSizes(size);
    var st' := First(st, base, size);
    assert Records(st'.segs) == {};
    assert st'.segs[1..] == [];
  }

  lemma FirstMaps(st: State, base: Addr, size: nat)
    requires Vacant(st, base, size) && size >= TOP_FOOT_SIZE && (size - TOP_FOOT_SIZE) % 16 == 0 && MapsOK(st)
    ensures MapsOK(First(st, base, size))
    ensures forall p | p in st.maps :: SameMapped(st.tags, First(st, base, size).tags, p, st.maps[p])
  {
    hide MapsOK, Vacant;
    var st' := First(st, base, size);
    forall p | p in st.maps ensures MapApart(st.maps[p], base, size) {
      VacantMap(st, base, size, p);
    }
    MapsMoved(st, st', base, size);
  }

  /** Words change only in a place apart from the mapped chunks, where all the segments are. */
  lemma MapsMoved(st: State, st': State, lo: Addr, len: nat)
    requires MapsOK(st) && st'.maps == st.maps && WordsKept(st.tags, st'.tags, lo, lo + len)
    requires forall p | p in st.maps :: MapApart(st.maps[p], lo, len)
    requires forall k: nat, p | k < |st'.segs| && p in st.maps ::
             (k < |st.segs| && st'.segs[k] == st.segs[k]) || MapApart(st.maps[p], st'.segs[k].base, st'.segs[k].size)
    ensures MapsOK(st')
    ensures forall p | p in st.maps :: SameMapped(st.tags, st'.tags, p, st.maps[p])
  {
    hide MapsOK, MapApart, WordsKept, MapOK;
    forall p | p in st.maps ensures MapOK(st'.tags, p, st'.maps[p]) && SameMapped(st.tags, st'.tags, p, st.maps[p]) {
      MapWords(st, p);
      MapUntouched(st.tags, st'.tags, p, st.maps[p], lo, len);
    }
    forall p, q | p in st'.maps && q in st'.maps && p != q
      ensures MapApart(st'.maps[p], st'.maps[q].base, st'.maps[q].len) {
      MapPair(st, p, q);
    }
    forall p, k: nat | p in st'.maps && k < |st'.segs|
      ensures MapApart(st'.maps[p], st'.segs[k].base, st'.segs[k].size) {
      if k < |st.segs| && st'.segs[k] == st.segs[k] {
        MapSeg(st, p, k);
      }
    }
    AssembleMaps(st');
  }

  lemma MapUntouched(h: Tags, h': Tags, p: Addr, m: Mapping, lo: Addr, len: nat)
    requires MapOK(h, p, m) && MapApart(m, lo, len) && WordsKept(h, h', lo, lo + len)
    ensures MapOK(h', p, m) && SameMapped(h, h', p, m)
  {
  }

  lemma FirstKept(st: State, base: Addr, size: nat, p: Addr)
    requires size >= TOP_FOOT_SIZE && (size - TOP_FOOT_SIZE) % 16 == 0 && st.live == {}
    requires p in st.maps ==> SameMapped(st.tags, First(st, base, size).tags, p, st.maps[p])
    ensures BlockKept(st, First(st, base, size), p)
  {
    hide SameMapped;
  }

  // ----- The segment with top grows or shrinks at its end -----

  /** `top` resized so that its segment has `size` bytes. */
  function Resized(st: State, size: nat): State
    requires st.segs != [] && st.topsize + size >= st.segs[0].size && st.footprint + size >= st.segs[0].size
    requires (st.topsize + size - st.segs[0].size) % 16 == 0
  {
    var s: nat := st.topsize + size - st.segs[0].size;
    st.(tags := st.tags.(mem := TopMem(st.tags.mem, st.tags.top, s), ch := st.tags.ch[st.tags.top := s]), topsize := s,
        segs := st.segs[0 := st.segs[0].(size := size)], footprint := st.footprint + size - st.segs[0].size)
  }

  /** The new size: room for some top is left, and what is added was vacant. */
  ghost predicate MayResize(st: State, size: nat)
  {
    && st.segs != [] && size % 4096 == 0 && st.topsize + size >= st.segs[0].size + 16
    && (if size > st.segs[0].size then Vacant(st, st.segs[0].base + st.segs[0].size, size - st.segs[0].size)
       else size < st.segs[0].size)
  }

  /** Where the resizing writes, past the head of top. */
  function ZoneEnd(st: State, size: nat): Addr
    requires st.segs != []
  {
    st.segs[0].base + if size > st.segs[0].size then size else st.segs[0].size
  }

  lemma ResizeTop(st: State, size: nat, L: set<Addr>, Y: set<Addr>)
    requires MayResize(st, size) && Inv(st, L, Y)
    ensures st.footprint + size >= st.segs[0].size && (st.topsize + size - st.segs[0].size) % 16 == 0
    ensures Inv(Resized(st, size), L, Y)
    ensures forall p :: BlockKept(st, Resized(st, size), p)
  {
    hide MapsOK, LeastOK, FootprintOK, BinsMatch, UsedOK, SegsOK, DvTopOK, BlockKept, OK, Vacant;
    ResizeFits(st, size, L, Y);
    var st' := Resized(st, size);
    ResizeTags(st, size, L, Y);
    ResizeSegs(st, size, L, Y);
    ResizeRest(st, size, L, Y);
    ResizeMaps(st, size, L, Y);
    forall p ensures BlockKept(st, st', p) {
      ResizeKept(st, size, L, Y, p);
    }
  }

  lemma Seg0(st: State, L: set<Addr>, Y: set<Addr>)
    requires st.segs != [] && Inv(st, L, Y)
    ensures var h := st.tags;
            h.top in h.ch && h.ch[h.top] == st.topsize && h.top !in h.used && h.top != st.dv && h.top > 0
    ensures st.topsize >= 16 && st.topsize % 16 == 0 && st.tags.top % 16 == 0
    ensures st.segs[0].base <= st.tags.top
    ensures st.tags.top + st.topsize + TOP_FOOT_SIZE == st.segs[0].base + st.segs[0].size
    ensures st.segs[0].size % 4096 == 0 && st.segs[0].size <= st.footprint
  {
    hide BinsMatch, UsedOK, MapsOK, LeastOK;
    assert SegOK(st.tags, st.segs, 0);
    SegSizesBound(st.segs, 0);
    ChunkFactsAt(st, L, Y, st.tags.top);
  }

  lemma ResizeFits(st: State, size: nat, L: set<Addr>, Y: set<Addr>)
    requires MayResize(st, size) && Inv(st, L, Y)
    ensures st.footprint + size >= st.segs[0].size && (st.topsize + size - st.segs[0].size) % 16 == 0
  {
    hide Vacant, Inv;
    Seg0(st, L, Y);
    PageAligned(size);
    PageAligned(st.segs[0].size);
    hide *;
    Sum16(st.topsize, size, st.segs[0].size);
  }

  lemma Sum16(a: nat, b: nat, c: nat)
    requires a % 16 == 0 && b % 16 == 0 && c % 16 == 0
    ensures (a + b - c) % 16 == 0
  {
  }

  lemma ResizeTags(st: State, size: nat, L: set<Addr>, Y: set<Addr>)
    requires MayResize(st, size) && st.footprint + size >= st.segs[0].size
    requires (st.topsize + size - st.segs[0].size) % 16 == 0
    requires Inv(st, L, Y)
    ensures OK(Resized(st, size).tags)
  {
    hide MapsOK, LeastOK, FootprintOK, BinsMatch, UsedOK, SegsOK, DvTopOK, Vacant, ChunkOK, Apart, EndApart, FenceOK;
    var h, h' := st.tags, Resized(st, size).tags;
    Seg0(st, L, Y);
    forall p | p in h'.ch ensures ChunkOK(h', p) && (p != h.top ==> p + h.ch[p] <= h.top || ZoneEnd(st, size) <= p) {
      if p == h.top {
        ResizedTop(st, size, L, Y);
      } else {
        ResizedOther(st, size, L, Y, p);
      }
    }
    forall p, q | p in h'.ch && q in h'.ch && p != q ensures Apart(h', p, q) {
      assert Apart(h, p, q);
      ApartResized(st, size, p, q);
    }
    forall f, p | f in h'.fence && p in h'.ch ensures FenceOK(h', f) && EndApart(h', f, p) {
      assert EndApart(h, f, p) && FenceOK(h, f);
      ResizedFence(st, size, L, Y, f, p);
    }
    forall f | f in h'.fence ensures FenceOK(h', f) {
      assert h.top in h'.ch && EndApart(h, f, h.top) && FenceOK(h, f);
      ResizedFence(st, size, L, Y, f, h.top);
    }
    forall p | p in h'.ch ensures EndApart(h', TopEnd(h'), p) {
      EndResized(st, size, p);
    }
  }

  lemma ApartResized(st: State, size: nat, p: Addr, q: Addr)
    requires MayResize(st, size) && st.footprint + size >= st.segs[0].size
    requires (st.topsize + size - st.segs[0].size) % 16 == 0
    requires p in st.tags.ch && q in st.tags.ch && p != q && Apart(st.tags, p, q) && st.tags.top in st.tags.ch
    requires st.tags.top + st.topsize + TOP_FOOT_SIZE == st.segs[0].base + st.segs[0].size
    requires p != st.tags.top ==> p + st.tags.ch[p] <= st.tags.top || ZoneEnd(st, size) <= p
    requires q != st.tags.top ==> q + st.tags.ch[q] <= st.tags.top || ZoneEnd(st, size) <= q
    ensures Apart(Resized(st, size).tags, p, q)
  {
    hide Vacant;
  }

  lemma EndResized(st: State, size: nat, p: Addr)
    requires MayResize(st, size) && st.footprint + size >= st.segs[0].size
    requires (st.topsize + size - st.segs[0].size) % 16 == 0
    requires p in st.tags.ch && st.tags.top in st.tags.ch
    requires st.tags.top + st.topsize + TOP_FOOT_SIZE == st.segs[0].base + st.segs[0].size
    requires p != st.tags.top ==> p + st.tags.ch[p] <= st.tags.top || ZoneEnd(st, size) <= p
    ensures var h' := Resized(st, size).tags; EndApart(h', TopEnd(h'), p)
  {
    hide Vacant;
  }

  lemma ResizedTop(st: State, size: nat, L: set<Addr>, Y: set<Addr>)
    requires MayResize(st, size) && st.footprint + size >= st.segs[0].size
    requires (st.topsize + size - st.segs[0].size) % 16 == 0
    requires Inv(st, L, Y)
    ensures ChunkOK(Resized(st, size).tags, st.tags.top)
  {
    hide MapsOK, LeastOK, FootprintOK, BinsMatch, UsedOK, DvTopOK, Vacant, SizeOf, Pin, Cin;
    var h, h' := st.tags, Resized(st, size).tags;
    Seg0(st, L, Y);
    var s := h'.ch[h.top];
    assert h'.HeadOf(h.top) == Head(s, false, true) && h'.HeadOf(h.top + s) == TOP_FOOT_SIZE;
    if h.top + s in h'.ch {
      ResizedOther(st, size, L, Y, h.top + s);
    }
  }

  /** A chunk other than top is outside of the zone that the resizing writes to. */
  lemma OutOfZone(st: State, size: nat, L: set<Addr>, Y: set<Addr>, p: Addr)
    requires MayResize(st, size) && p in st.tags.ch && p != st.tags.top && Inv(st, L, Y)
    ensures p + st.tags.ch[p] <= st.tags.top || ZoneEnd(st, size) <= p
  {
    hide MapsOK, LeastOK, FootprintOK, BinsMatch, UsedOK, DvTopOK, SegsOK, Vacant, OK;
    Seg0(st, L, Y);
    ChunkFactsAt(st, L, Y, p);
    ChunksApart(st.tags, p, st.tags.top);
    var k := SegOf(st.tags, st.segs, p);
    if k != 0 {
      SegsApartAt(st.tags, st.segs, 0, k);
      if size > st.segs[0].size {
        VacantSeg(st, st.segs[0].base + st.segs[0].size, size - st.segs[0].size, k);
      }
    }
  }

  lemma ResizedOther(st: State, size: nat, L: set<Addr>, Y: set<Addr>, p: Addr)
    requires MayResize(st, size) && st.footprint + size >= st.segs[0].size
    requires (st.topsize + size - st.segs[0].size) % 16 == 0
    requires p in st.tags.ch && p != st.tags.top && Inv(st, L, Y)
    ensures p in Resized(st, size).tags.ch && ChunkOK(Resized(st, size).tags, p)
    ensures p + st.tags.ch[p] <= st.tags.top || ZoneEnd(st, size) <= p
  {
    hide MapsOK, LeastOK, FootprintOK, BinsMatch, UsedOK, DvTopOK, SegsOK, Vacant, SizeOf, Cin, OK, ChunkOK, Pin;
    var h, h' := st.tags, Resized(st, size).tags;
    Seg0(st, L, Y);
    OutOfZone(st, size, L, Y, p);
    TopPinned(st, L, Y);
    ChunkAt(h, p);
    var s := h'.ch[h.top];
    assert h'.HeadOf(h.top) == Head(s, false, true);
    KeepChunk(h, h', p);
  }

  lemma ChunkAt(h: Tags, p: Addr)
    requires OK(h) && p in h.ch
    ensures ChunkOK(h, p)
    ensures (!Pin(h.HeadOf(p)) ==>
              h.W(p) <= p && p - h.W(p) != h.top && p - h.W(p) in h.ch && h.ch[p - h.W(p)] == h.W(p))
  {
    assert ChunkOK(h, p);
  }

  lemma TopPinned(st: State, L: set<Addr>, Y: set<Addr>)
    requires st.segs != [] && Inv(st, L, Y)
    ensures Pin(st.tags.HeadOf(st.tags.top))
  {
    hide MapsOK, LeastOK, FootprintOK, BinsMatch, UsedOK, DvTopOK, Pin, SizeOf, Cin, SegsOK;
    Seg0(st, L, Y);
    ChunkFactsAt(st, L, Y, st.tags.top);
  }

  lemma ResizedFence(st: State, size: nat, L: set<Addr>, Y: set<Addr>, f: Addr, p: Addr)
    requires MayResize(st, size) && st.footprint + size >= st.segs[0].size
    requires (st.topsize + size - st.segs[0].size) % 16 == 0
    requires f in st.tags.fence && p in st.tags.ch && EndApart(st.tags, f, p) && FenceOK(st.tags, f) && Inv(st, L, Y)
    ensures FenceOK(Resized(st, size).tags, f) && EndApart(Resized(st, size).tags, f, p)
  {
    hide MapsOK, LeastOK, FootprintOK, BinsMatch, UsedOK, DvTopOK, SegsOK, Vacant, SizeOf, Cin, OK, Pin;
    Seg0(st, L, Y);
    var k := FenceSeg(st.tags, st.segs, f);
    SegsApartAt(st.tags, st.segs, 0, k);
    if size > st.segs[0].size {
      VacantSeg(st, st.segs[0].base + st.segs[0].size, size - st.segs[0].size, k);
    }
  }

  lemma ResizeSegs(st: State, size: nat, L: set<Addr>, Y: set<Addr>)
    requires MayResize(st, size) && st.footprint + size >= st.segs[0].size
    requires (st.topsize + size - st.segs[0].size) % 16 == 0
    requires Inv(st, L, Y)
    ensures SegsOK(Resized(st, size).tags, Resized(st, size).segs)
  {
    hide MapsOK, LeastOK, FootprintOK, BinsMatch, UsedOK, DvTopOK, Vacant, SizeOf, Cin, OK, Pin, SegOK, SegsApart;
    var h, st' := st.tags, Resized(st, size);
    Seg0(st, L, Y);
    forall k: nat | k < |st'.segs| ensures SegOK(st'.tags, st'.segs, k) {
      ResizedSeg(st, size, L, Y, k);
    }
    forall j: nat, k: nat | j < |st'.segs| && k < |st'.segs| && j != k ensures SegsApart(st'.segs, j, k) {
      ResizedApart(st, size, L, Y, j, k);
    }
    forall p | p in st'.tags.ch ensures InSomeSeg(st'.tags, st'.segs, p) {
      assert InSomeSeg(h, st.segs, p);
      var k: nat :| ChunkInSeg(h, st.segs, k, p);
      ResizedIn(st, size, L, Y, k, p);
    }
    forall f | f in st'.tags.fence ensures exists k: nat :: 0 < k < |st'.segs| && f == SegEnd(st'.tags, st'.segs, k) {
      var k := FenceSeg(h, st.segs, f);
      assert f == SegEnd(st'.tags, st'.segs, k);
    }
  }

  lemma ResizedSeg(st: State, size: nat, L: set<Addr>, Y: set<Addr>, k: nat)
    requires MayResize(st, size) && st.footprint + size >= st.segs[0].size
    requires (st.topsize + size - st.segs[0].size) % 16 == 0
    requires k < |st.segs| && Inv(st, L, Y)
    ensures SegOK(Resized(st, size).tags, Resized(st, size).segs, k)
  {
    hide MapsOK, LeastOK, FootprintOK, BinsMatch, UsedOK, DvTopOK, Vacant, SizeOf, Cin, OK, Pin, SegsApart, InSomeSeg;
    var h, h' := st.tags, Resized(st, size).tags;
    Seg0(st, L, Y);
    assert SegOK(h, st.segs, k);
    var b := st.segs[k].base;
    if b == h.top {
      assert h'.HeadOf(b) == Head(h'.ch[b], false, true);
    } else {
      OutOfZone(st, size, L, Y, b);
      ChunkFactsAt(st, L, Y, b);
    }
    if k == 0 && size > st.segs[0].size {
      VacantPages(st, st.segs[0].base + st.segs[0].size, size - st.segs[0].size);
    }
    if k > 0 {
      BaseNotTop(st, L, Y, k);
    }
  }

  lemma BaseNotTop(st: State, L: set<Addr>, Y: set<Addr>, k: nat)
    requires 0 < k < |st.segs| && Inv(st, L, Y)
    ensures st.segs[k].rec != st.tags.top && st.segs[k].base != st.tags.top
  {
    hide MapsOK, LeastOK, FootprintOK, BinsMatch, UsedOK, DvTopOK, SizeOf, Cin, OK, Pin, InSomeSeg;
    Seg0(st, L, Y);
    assert SegOK(st.tags, st.segs, k);
    SegsApartAt(st.tags, st.segs, 0, k);
  }

  lemma ResizedApart(st: State, size: nat, L: set<Addr>, Y: set<Addr>, j: nat, k: nat)
    requires MayResize(st, size) && st.footprint + size >= st.segs[0].size
    requires (st.topsize + size - st.segs[0].size) % 16 == 0
    requires j < |st.segs| && k < |st.segs| && j != k && Inv(st, L, Y)
    ensures SegsApart(Resized(st, size).segs, j, k)
  {
    hide MapsOK, LeastOK, FootprintOK, BinsMatch, UsedOK, DvTopOK, OK, Vacant, SegsOK;
    SegsApartAt(st.tags, st.segs, j, k);
    if size > st.segs[0].size {
      VacantSeg(st, st.segs[0].base + st.segs[0].size, size - st.segs[0].size, if j == 0 then k else j);
      VacantSeg(st, st.segs[0].base + st.segs[0].size, size - st.segs[0].size, if k == 0 then j else k);
    }
    SegSizePos(st.tags, st.segs, j);
    SegSizePos(st.tags, st.segs, k);
  }

  lemma SegSizePos(h: Tags, segs: seq<Segment>, k: nat)
    requires SegsOK(h, segs) && k < |segs|
    ensures segs[k].size > 0 && segs[k].size % 4096 == 0 && segs[k].base > 0 && segs[k].base % 4096 == 0
  {
    assert SegOK(h, segs, k);
  }

  lemma ResizedIn(st: State, size: nat, L: set<Addr>, Y: set<Addr>, k: nat, p: Addr)
    requires MayResize(st, size) && st.footprint + size >= st.segs[0].size
    requires (st.topsize + size - st.segs[0].size) % 16 == 0
    requires ChunkInSeg(st.tags, st.segs, k, p) && Inv(st, L, Y)
    ensures ChunkInSeg(Resized(st, size).tags, Resized(st, size).segs, k, p)
  {
    hide MapsOK, LeastOK, FootprintOK, BinsMatch, UsedOK, DvTopOK, Vacant, SizeOf, Cin, OK, Pin, SegsOK;
    Seg0(st, L, Y);
    if p == st.tags.top {
      InSegWords(st.tags, st.segs, k, p, p + st.tags.ch[p]);
      if k != 0 {
        SegsApartAt(st.tags, st.segs, 0, k);
      }
    } else {
      OutOfZone(st, size, L, Y, p);
    }
  }

  lemma ResizeRest(st: State, size: nat, L: set<Addr>, Y: set<Addr>)
    requires MayResize(st, size) && st.footprint + size >= st.segs[0].size
    requires (st.topsize + size - st.segs[0].size) % 16 == 0
    requires Inv(st, L, Y)
    ensures var st' := Resized(st, size);
            DvTopOK(st') && BinsMatch(st', L) && UsedOK(st', Y) && FootprintOK(st') && LeastOK(st')
  {
    hide MapsOK, SegsOK, OK, TopMem, Vacant;
    var st' := Resized(st, size);
    Seg0(st, L, Y);
    assert Records(st'.segs) == Records(st.segs) by {
      SameRecords(st.segs, st'.segs);
    }
    assert st'.segs[1..] == st.segs[1..];
    if size > st.segs[0].size {
      VacantRoom(st, st.segs[0].base + st.segs[0].size, size - st.segs[0].size);
    }
    ResizeBins(st, st', st'.topsize, L);
  }

  lemma SameRecords(segs: seq<Segment>, segs': seq<Segment>)
    requires |segs'| == |segs| && forall k | 0 < k < |segs| :: segs'[k].rec == segs[k].rec
    ensures Records(segs') == Records(segs)
  {
    forall r | r in Records(segs) ensures r in Records(segs') {
      var k: nat :| 0 < k < |segs| && r == segs[k].rec;
      assert r == segs'[k].rec;
    }
  }

  lemma ResizeBins(st: State, st': State, s: nat, L: set<Addr>)
    requires BinsMatch(st, L) && st'.small == st.small && st'.tree == st.tree && st'.dv == st.dv
    requires st'.tags.used == st.tags.used && st'.tags.top == st.tags.top && st.tags.top in st.tags.ch
    requires st'.tags.ch == st.tags.ch[st.tags.top := s]
    ensures BinsMatch(st', L)
  {
    forall p | IsFree(st'.tags, st'.dv, p) ensures p in L || p in st'.small || p in st'.tree {
      assert IsFree(st.tags, st.dv, p);
    }
    forall p | p in st'.small || p in st'.tree ensures IsFree(st'.tags, st'.dv, p) && st'.tags.ch[p] == st.tags.ch[p] {
      assert IsFree(st.tags, st.dv, p);
    }
  }

  lemma ResizeMaps(st: State, size: nat, L: set<Addr>, Y: set<Addr>)
    requires MayResize(st, size) && st.footprint + size >= st.segs[0].size
    requires (st.topsize + size - st.segs[0].size) % 16 == 0
    requires Inv(st, L, Y)
    ensures MapsOK(Resized(st, size))
    ensures forall p | p in st.maps :: SameMapped(st.tags, Resized(st, size).tags, p, st.maps[p])
  {
    hide MapsOK, Vacant, LeastOK, FootprintOK, BinsMatch, UsedOK, DvTopOK, SegsOK, OK;
    var st' := Resized(st, size);
    Seg0(st, L, Y);
    var lo, len := st.segs[0].base, ZoneEnd(st, size) - st.segs[0].base;
    forall p | p in st.maps ensures MapApart(st.maps[p], lo, len) && MapApart(st.maps[p], lo, size) {
      MapSeg(st, p, 0);
      MapWords(st, p);
      if size > st.segs[0].size {
        VacantMap(st, lo + st.segs[0].size, size - st.segs[0].size, p);
      }
    }
    MapsMoved(st, st', lo, len);
  }

  lemma ResizeKept(st: State, size: nat, L: set<Addr>, Y: set<Addr>, p: Addr)
    requires MayResize(st, size) && st.footprint + size >= st.segs[0].size
    requires (st.topsize + size - st.segs[0].size) % 16 == 0
    requires p in st.maps ==> SameMapped(st.tags, Resized(st, size).tags, p, st.maps[p])
    requires Inv(st, L, Y)
    ensures BlockKept(st, Resized(st, size), p)
  {
    hide MapsOK, Vacant, LeastOK, FootprintOK, BinsMatch, DvTopOK, SegsOK, OK, SameMapped;
    Seg0(st, L, Y);
    if p in st.live {
      UsedAreChunks(st, L, Y);
      OutOfZone(st, size, L, Y, p);
      assert SameBlock(st.tags, Resized(st, size).tags, p, st.tags.ch[p]);
    }
  }
}
