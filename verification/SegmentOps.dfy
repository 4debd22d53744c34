/** Mapping and unmapping memory: what becomes of the state when segments and mapped chunks come and go. */
module SegmentOps {
  import opened Words
  import opened BoundaryTags
  import opened HeapState
  import opened HeapSteps
  import opened HeapOps
  import TreeIndex

  /** [base, base + size) is whole pages, apart from everything mapped, and small enough for the footprint. */
  ghost predicate Vacant(st: State, base: Addr, size: nat)
  {
    && base > 0 && base % 4096 == 0 && size > 0 && size % 4096 == 0 && base + size <= TreeIndex.SIZE_MODULUS
    && st.footprint + size < TreeIndex.INDEX_LIMIT
    && (forall k: nat {:trigger st.segs[k]} | k < |st.segs| :: SegApart(st.segs[k], base, size))
    && (forall p {:trigger st.maps[p]} | p in st.maps :: MapApart(st.maps[p], base, size))
  }

  predicate SegApart(s: Segment, base: Addr, size: nat)
  {
    s.base + s.size <= base || base + size <= s.base
  }

  /** A chunk with the words around it as before, and the same neighbours, is in order. */
  predicate SameAround(h: Tags, h': Tags, p: Addr)
    requires p in h.ch
  {
    var n := p + h.ch[p];
    && (!Pin(h.HeadOf(p)) ==> h'.W(p) == h.W(p)) && h'.HeadOf(p) == h.HeadOf(p) && (p !in h.used ==> h'.W(n) == h.W(n))
    && (if p == h.top then h'.HeadOf(n) == h.HeadOf(n) else Pin(h'.HeadOf(n)) <==> Pin(h.HeadOf(n)))
    && (n in h.ch <==> n in h'.ch) && (p !in h.used && n in h.used ==> n in h'.used) && (n in h.fence ==> n in h'.fence)
  }

  predicate SameStatus(h: Tags, h': Tags, p: Addr)
  {
    && (p in h.ch <==> p in h'.ch) && (p in h.used <==> p in h'.used) && (p == h.top <==> p == h'.top)
    && (p in h.ch ==> p in h'.ch && h'.ch[p] == h.ch[p])
  }

  lemma KeepChunk(h: Tags, h': Tags, p: Addr)
    requires p in h.ch && ChunkOK(h, p) && SameAround(h, h', p) && SameStatus(h, h', p)
    requires !Pin(h.HeadOf(p)) && h.W(p) <= p ==> SameStatus(h, h', p - h.W(p))
    ensures p in h'.ch && ChunkOK(h', p)
  {
    hide Pin, Cin, SizeOf;
  }

  /** Where a chunk lies: in a segment, well before its end. */
  lemma SegOf(h: Tags, segs: seq<Segment>, p: Addr) returns (k: nat)
    requires SegsOK(h, segs) && p in h.ch
    ensures ChunkInSeg(h, segs, k, p) && k < |segs| && segs[k].base <= p
    ensures p + h.ch[p] + 32 <= segs[k].base + segs[k].size
  {
    hide OK, SegOK, SegsApart;
    assert InSomeSeg(h, segs, p);
    k :| ChunkInSeg(h, segs, k, p);
    InSegWords(h, segs, k, p, p + h.ch[p]);
  }

  lemma FenceSeg(h: Tags, segs: seq<Segment>, f: Addr) returns (k: nat)
    requires SegsOK(h, segs) && f in h.fence
    ensures 0 < k < |segs| && f == SegEnd(h, segs, k) && segs[k].base <= f && f + 32 <= segs[k].base + segs[k].size
  {
    hide OK, SegsApart, InSomeSeg;
    k :| 0 < k < |segs| && f == SegEnd(h, segs, k);
    assert SegOK(h, segs, k);
  }

  // ----- Words written outside of all segments -----

  ghost predicate WordsKept(h: Tags, h': Tags, lo: Addr, hi: Addr)
  {
    forall w: Addr {:trigger h'.W(w)} | w < lo || hi <= w :: h'.W(w) == h.W(w)
  }

  ghost predicate SegsClear(segs: seq<Segment>, lo: Addr, hi: Addr)
  {
    forall k: nat {:trigger segs[k]} | k < |segs| :: segs[k].base + segs[k].size <= lo || hi <= segs[k].base
  }

  lemma TagsKept(h: Tags, h': Tags, segs: seq<Segment>, lo: Addr, hi: Addr)
    requires OK(h) && SegsOK(h, segs) && h' == h.(mem := h'.mem) && WordsKept(h, h', lo, hi) && SegsClear(segs, lo, hi)
    requires lo < hi
    ensures OK(h') && SegsOK(h', segs)
    ensures forall p | p in h.ch :: SameBlock(h, h', p, h.ch[p])
  {
    hide ChunkOK, SegsOK, SegsClear, WordsKept, FenceOK;
    forall p | p in h'.ch ensures ChunkOK(h', p) && SameBlock(h, h', p, h.ch[p]) {
      assert ChunkOK(h, p);
      TagsKeptChunk(h, h', segs, lo, hi, p);
    }
    forall p, q | p in h'.ch && q in h'.ch && p != q ensures Apart(h', p, q) {
      assert Apart(h, p, q);
    }
    forall f | f in h'.fence ensures FenceOK(h', f) {
      assert FenceOK(h, f);
      TagsKeptFence(h, h', segs, lo, hi, f);
    }
    forall f, p | f in h'.fence && p in h'.ch ensures EndApart(h', f, p) {
      assert EndApart(h, f, p);
    }
    forall p | p in h'.ch && h'.top in h'.ch ensures EndApart(h', TopEnd(h'), p) {
      assert EndApart(h, TopEnd(h), p);
    }
    TagsKeptSegs(h, h', segs, lo, hi);
  }

  lemma TagsKeptChunk(h: Tags, h': Tags, segs: seq<Segment>, lo: Addr, hi: Addr, p: Addr)
    requires SegsOK(h, segs) && h' == h.(mem := h'.mem) && WordsKept(h, h', lo, hi) && SegsClear(segs, lo, hi)
    requires p in h.ch && ChunkOK(h, p)
    ensures ChunkOK(h', p) && SameBlock(h, h', p, h.ch[p])
  {
    hide ChunkOK, SegsOK;
    var k := SegOf(h, segs, p);
    assert SegsClear(segs, lo, hi) ==> segs[k].base + segs[k].size <= lo || hi <= segs[k].base;
    KeepChunk(h, h', p);
  }

  lemma TagsKeptFence(h: Tags, h': Tags, segs: seq<Segment>, lo: Addr, hi: Addr, f: Addr)
    requires SegsOK(h, segs) && h' == h.(mem := h'.mem) && WordsKept(h, h', lo, hi) && SegsClear(segs, lo, hi)
    requires f in h.fence && FenceOK(h, f)
    ensures FenceOK(h', f)
  {
    hide SegsOK;
    var k := FenceSeg(h, segs, f);
    assert SegsClear(segs, lo, hi) ==> segs[k].base + segs[k].size <= lo || hi <= segs[k].base;
  }

  lemma TagsKeptSegs(h: Tags, h': Tags, segs: seq<Segment>, lo: Addr, hi: Addr)
    requires OK(h) && SegsOK(h, segs) && h' == h.(mem := h'.mem) && WordsKept(h, h', lo, hi) && SegsClear(segs, lo, hi)
    requires lo < hi
    ensures SegsOK(h', segs)
  {
    hide OK, SegsApart, Pin;
    forall k: nat | k < |segs| ensures SegOK(h', segs, k) {
      assert SegOK(h, segs, k);
      assert segs[k].base + segs[k].size <= lo || hi <= segs[k].base;
    }
    forall p | p in h'.ch ensures InSomeSeg(h', segs, p) {
      assert InSomeSeg(h, segs, p);
      var k: nat :| ChunkInSeg(h, segs, k, p);
      assert ChunkInSeg(h', segs, k, p);
    }
    forall f | f in h'.fence ensures exists k: nat :: 0 < k < |segs| && f == SegEnd(h', segs, k) {
      var k := FenceSeg(h, segs, f);
      assert f == SegEnd(h', segs, k);
    }
    forall j: nat, k: nat | j < |segs| && k < |segs| && j != k ensures SegsApart(segs, j, k) {
      SegsApartAt(h, segs, j, k);
    }
  }

  // ----- Mapped chunks -----

  lemma {:induction false} MapSizesAdd(maps: map<Addr, Mapping>, p: Addr)
    requires p in maps
    ensures MapSizes(maps) == maps[p].len + MapSizes(maps - {p})
    decreases |maps|
  {
    var q :| q in maps && MapSizes(maps) == maps[q].len + MapSizes(maps - {q});
    if q != p {
      assert |(maps - {q}).Keys| < |maps.Keys| && |(maps - {p}).Keys| < |maps.Keys| by {
        assert (maps - {q}).Keys == maps.Keys - {q} && (maps - {p}).Keys == maps.Keys - {p};
      }
      MapSizesAdd(maps - {q}, p);
      MapSizesAdd(maps - {p}, q);
      assert maps - {q} - {p} == maps - {p} - {q};
    }
  }

  /** The words of a chunk mapped by itself, with no offset. */
  function MappedMem(mem: map<Addr, nat>, base: Addr, len: nat): map<Addr, nat>
    requires len >= MMAP_FOOT_PAD
  {
    var psize: nat := len - MMAP_FOOT_PAD;
    mem[base := 0][base + 8 := psize][base + psize + 8 := FENCEPOST_HEAD][base + psize + 16 := 0]
  }

  function Mapped(st: State, base: Addr, len: nat): State
    requires len >= MMAP_FOOT_PAD
  {
    st.(tags := st.tags.(mem := MappedMem(st.tags.mem, base, len)), maps := st.maps[base := Mapping(base, len)],
        footprint := st.footprint + len, least := if st.least == 0 || base < st.least then base else st.least)
  }

  lemma MapNew(st: State, base: Addr, len: nat, L: set<Addr>, Y: set<Addr>)
    requires len >= MMAP_FOOT_PAD + TreeIndex.MIN_LARGE_SIZE && Vacant(st, base, len) && Inv(st, L, Y)
    ensures Inv(Mapped(st, base, len), L, Y)
    ensures base !in st.maps && base !in st.live && forall p | p != base :: BlockKept(st, Mapped(st, base, len), p)
  {
    hide OK, SegsOK, MapsOK, BinsMatch, DvTopOK, LeastOK, BlockKept, FootprintOK, UsedOK;
    var st' := Mapped(st, base, len);
    MapNewVacant(st, base, len);
    TagsKept(st.tags, st'.tags, st.segs, base, base + len);
    MapNewRest(st, base, len, L, Y);
    MapNewMaps(st, base, len);
    forall p | p != base ensures BlockKept(st, st', p) {
      MapNewKept(st, base, len, p);
    }
    MapNewFootprint(st, base, len);
    MapNewDead(st, base, len, L, Y);
  }

  lemma MapNewVacant(st: State, base: Addr, len: nat)
    requires len >= MMAP_FOOT_PAD + TreeIndex.MIN_LARGE_SIZE && Vacant(st, base, len)
    ensures SegsClear(st.segs, base, base + len) && WordsKept(st.tags, Mapped(st, base, len).tags, base, base + len)
  {
  }

  lemma MapNewRest(st: State, base: Addr, len: nat, L: set<Addr>, Y: set<Addr>)
    requires len >= MMAP_FOOT_PAD && base > 0 && BinsMatch(st, L) && DvTopOK(st) && UsedOK(st, Y) && LeastOK(st)
    ensures var st' := Mapped(st, base, len); BinsMatch(st', L) && DvTopOK(st') && UsedOK(st', Y) && LeastOK(st')
  {
    hide MappedMem, Records;
    var st' := Mapped(st, base, len);
    forall p | IsFree(st'.tags, st'.dv, p) ensures p in L || p in st'.small || p in st'.tree {
      assert IsFree(st.tags, st.dv, p);
    }
    forall p | p in st'.small || p in st'.tree ensures IsFree(st'.tags, st'.dv, p) {
      assert IsFree(st.tags, st.dv, p);
    }
  }

  lemma MapNewMaps(st: State, base: Addr, len: nat)
    requires len >= MMAP_FOOT_PAD + TreeIndex.MIN_LARGE_SIZE && Vacant(st, base, len) && MapsOK(st)
    ensures MapsOK(Mapped(st, base, len))
  {
    hide MapApart;
    var st' := Mapped(st, base, len);
    forall p | p in st'.maps ensures MapOK(st'.tags, p, st'.maps[p]) {
      MapNewOne(st, base, len, p);
    }
    forall p, q | p in st'.maps && q in st'.maps && p != q
      ensures MapApart(st'.maps[p], st'.maps[q].base, st'.maps[q].len) {
      MapNewPair(st, base, len, p, q);
    }
    forall p, k: nat | p in st'.maps && k < |st'.segs|
      ensures MapApart(st'.maps[p], st'.segs[k].base, st'.segs[k].size) {
      if p == base {
        SegMapApart(st, base, len, k);
      } else {
        assert MapApart(st.maps[p], st.segs[k].base, st.segs[k].size);
      }
    }
  }

  lemma SegMapApart(st: State, base: Addr, len: nat, k: nat)
    requires Vacant(st, base, len) && k < |st.segs|
    ensures MapApart(Mapping(base, len), st.segs[k].base, st.segs[k].size)
  {
    assert SegApart(st.segs[k], base, len);
  }

  lemma MapNewOne(st: State, base: Addr, len: nat, p: Addr)
    requires len >= MMAP_FOOT_PAD + TreeIndex.MIN_LARGE_SIZE && Vacant(st, base, len) && MapsOK(st)
    requires p in Mapped(st, base, len).maps
    ensures MapOK(Mapped(st, base, len).tags, p, Mapped(st, base, len).maps[p])
  {
    hide MapsOK, Vacant, MapOK;
    if p == base {
      assert base > 0 && base % 4096 == 0 && len % 4096 == 0 && base + len <= TreeIndex.SIZE_MODULUS by {
        VacantPages(st, base, len);
      }
      MapNewSelf(st.tags.mem, Mapped(st, base, len).tags, base, len);
    } else {
      VacantMap(st, base, len, p);
      MapWords(st, p);
      MapNewOther(st.tags, Mapped(st, base, len).tags, base, len, p, st.maps[p]);
    }
  }

  lemma VacantPages(st: State, base: Addr, len: nat)
    requires Vacant(st, base, len)
    ensures base > 0 && base % 4096 == 0 && len > 0 && len % 4096 == 0 && base + len <= TreeIndex.SIZE_MODULUS
  {
  }

  lemma VacantMap(st: State, base: Addr, len: nat, p: Addr)
    requires Vacant(st, base, len) && p in st.maps
    ensures MapApart(st.maps[p], base, len)
  {
  }

  lemma VacantSeg(st: State, base: Addr, len: nat, k: nat)
    requires Vacant(st, base, len) && k < |st.segs|
    ensures SegApart(st.segs[k], base, len)
  {
  }

  lemma VacantRoom(st: State, base: Addr, len: nat)
    requires Vacant(st, base, len)
    ensures st.footprint + len < TreeIndex.INDEX_LIMIT
  {
  }

  lemma MapWords(st: State, p: Addr)
    requires MapsOK(st) && p in st.maps
    ensures MapOK(st.tags, p, st.maps[p])
  {
  }

  lemma PageAligned(a: nat)
    requires a % 4096 == 0
    ensures a % 16 == 0
  {
    assert a == 16 * (256 * (a / 4096));
  }

  lemma Multiples(base: nat, p: nat, len: nat)
    requires base % 16 == 0 && p % 16 == 0 && len % 16 == 0
    ensures (len - (p - base) - MMAP_FOOT_PAD) % 16 == 0
  {
    assert len - (p - base) - MMAP_FOOT_PAD == 16 * (len / 16 - (p / 16 - base / 16) - 2);
  }

  lemma MapNewSelf(mem: map<Addr, nat>, h': Tags, base: Addr, len: nat)
    requires len >= MMAP_FOOT_PAD + TreeIndex.MIN_LARGE_SIZE && base > 0 && base % 4096 == 0 && len % 4096 == 0
    requires base + len <= TreeIndex.SIZE_MODULUS
    requires h'.mem == MappedMem(mem, base, len)
    ensures MapOK(h', base, Mapping(base, len))
  {
    PageAligned(base);
    assert h'.W(base) == 0 && h'.HeadOf(base) == len - MMAP_FOOT_PAD
           && h'.HeadOf(base + (len - MMAP_FOOT_PAD)) == FENCEPOST_HEAD;
  }

  lemma MapNewOther(h: Tags, h': Tags, base: Addr, len: nat, p: Addr, m: Mapping)
    requires len >= MMAP_FOOT_PAD && MapOK(h, p, m) && MapApart(m, base, len) && h'.mem == MappedMem(h.mem, base, len)
    ensures MapOK(h', p, m)
  {
  }

  lemma MapNewPair(st: State, base: Addr, len: nat, p: Addr, q: Addr)
    requires len >= MMAP_FOOT_PAD && Vacant(st, base, len) && MapsOK(st) && p != q
    requires p in Mapped(st, base, len).maps && q in Mapped(st, base, len).maps
    ensures var st' := Mapped(st, base, len); MapApart(st'.maps[p], st'.maps[q].base, st'.maps[q].len)
  {
    hide MappedMem, MapOK;
    if p == base {
      assert MapApart(st.maps[q], base, len);
    } else if q != base {
      assert MapApart(st.maps[p], st.maps[q].base, st.maps[q].len);
    }
  }

  lemma MapNewKept(st: State, base: Addr, len: nat, p: Addr)
    requires len >= MMAP_FOOT_PAD + TreeIndex.MIN_LARGE_SIZE && Vacant(st, base, len) && MapsOK(st) && p != base
    requires p in st.tags.ch ==> SameBlock(st.tags, Mapped(st, base, len).tags, p, st.tags.ch[p])
    ensures BlockKept(st, Mapped(st, base, len), p)
  {
    if p in st.maps {
      assert MapApart(st.maps[p], base, len) && MapOK(st.tags, p, st.maps[p]);
    }
  }

  lemma MapNewFootprint(st: State, base: Addr, len: nat)
    requires len >= MMAP_FOOT_PAD && Vacant(st, base, len) && FootprintOK(st) && MapsOK(st)
    ensures FootprintOK(Mapped(st, base, len)) && base !in st.maps
  {
    hide MappedMem, Vacant, MapsOK;
    if base in st.maps {
      VacantMap(st, base, len, base);
      MapWords(st, base);
    }
    assert st.footprint + len < TreeIndex.INDEX_LIMIT by {
      VacantRoom(st, base, len);
    }
    var maps' := Mapped(st, base, len).maps;
    MapSizesAdd(maps', base);
    assert maps' - {base} == st.maps;
  }

  lemma MapNewDead(st: State, base: Addr, len: nat, L: set<Addr>, Y: set<Addr>)
    requires Vacant(st, base, len) && Inv(st, L, Y)
    ensures base !in st.tags.ch && base !in st.live
  {
    hide MapsOK, FootprintOK, BinsMatch, LeastOK, SegsOK, Vacant;
    VacantPages(st, base, len);
    if base in st.tags.ch {
      var k := SegOf(st.tags, st.segs, base);
      VacantSeg(st, base, len, k);
    }
    UsedAreChunks(st, L, Y);
  }

  /** The mapping of `p` is gone. */
  function Unmapped(st: State, p: Addr): State
    requires p in st.maps && st.maps[p].len <= st.footprint
  {
    st.(maps := st.maps - {p}, footprint := st.footprint - st.maps[p].len)
  }

  lemma UnmapOne(st: State, p: Addr, L: set<Addr>, Y: set<Addr>)
    requires p in st.maps && Inv(st, L, Y)
    ensures st.maps[p].len <= st.footprint && Inv(Unmapped(st, p), L, Y)
    ensures forall q | q != p :: BlockKept(st, Unmapped(st, p), q)
  {
    hide OK, SegsOK, MapOK, MapApart;
    MapSizesAdd(st.maps, p);
    var st' := Unmapped(st, p);
    MapsFewer(st, st', p);
    forall q | q != p ensures BlockKept(st, st', q) {
    }
    UnmapRest(st, p, L, Y);
  }

  lemma MapsFewer(st: State, st': State, p: Addr)
    requires MapsOK(st) && st'.tags == st.tags && st'.segs == st.segs && st'.maps == st.maps - {p}
    ensures MapsOK(st')
  {
    hide MapOK, MapApart;
    forall q | q in st'.maps ensures MapOK(st'.tags, q, st'.maps[q]) {
      MapWords(st, q);
    }
    forall q, r | q in st'.maps && r in st'.maps && q != r
      ensures MapApart(st'.maps[q], st'.maps[r].base, st'.maps[r].len) {
      assert MapApart(st.maps[q], st.maps[r].base, st.maps[r].len);
    }
    forall q, k: nat | q in st'.maps && k < |st'.segs|
      ensures MapApart(st'.maps[q], st'.segs[k].base, st'.segs[k].size) {
      assert MapApart(st.maps[q], st.segs[k].base, st.segs[k].size);
    }
  }

  lemma UnmapRest(st: State, p: Addr, L: set<Addr>, Y: set<Addr>)
    requires p in st.maps && st.maps[p].len <= st.footprint && BinsMatch(st, L) && DvTopOK(st) && UsedOK(st, Y)
    requires LeastOK(st)
    ensures var st' := Unmapped(st, p); BinsMatch(st', L) && DvTopOK(st') && UsedOK(st', Y) && LeastOK(st')
  {
    hide Records;
    SameBins(st, Unmapped(st, p), L);
  }

  lemma SameBins(st: State, st': State, L: set<Addr>)
    requires BinsMatch(st, L) && st'.small == st.small && st'.tree == st.tree && st'.dv == st.dv
    requires st'.tags.ch == st.tags.ch && st'.tags.used == st.tags.used && st'.tags.top == st.tags.top
    ensures BinsMatch(st', L)
  {
    forall p | IsFree(st'.tags, st'.dv, p) ensures p in L || p in st'.small || p in st'.tree {
      assert IsFree(st.tags, st.dv, p);
    }
    forall p | p in st'.small || p in st'.tree ensures IsFree(st'.tags, st'.dv, p) {
      assert IsFree(st.tags, st.dv, p);
    }
  }

  /** The mapped chunk at `p` now starts at `q`, further inside its mapping. */
  function Shifted(st: State, p: Addr, q: Addr): State
    requires p in st.maps && p <= q && q - p <= st.tags.HeadOf(p)
  {
    var lead: nat := q - p;
    st.(tags := st.tags.(mem := st.tags.mem[q := st.tags.W(p) + lead][q + 8 := st.tags.HeadOf(p) - lead]),
        maps := (st.maps - {p})[q := st.maps[p]])
  }

  lemma ShiftMapped(st: State, p: Addr, q: Addr, L: set<Addr>, Y: set<Addr>)
    requires p in st.maps && p < q && q % 16 == 0 && q + TreeIndex.MIN_LARGE_SIZE <= p + st.tags.HeadOf(p)
    requires Inv(st, L, Y)
    ensures Inv(Shifted(st, p, q), L, Y) && q !in st.maps
    ensures q !in st.live && forall r | r != p && r != q :: BlockKept(st, Shifted(st, p, q), r)
  {
    hide OK, SegsOK, MapsOK, BinsMatch, DvTopOK, LeastOK, BlockKept, FootprintOK, UsedOK;
    var st' := Shifted(st, p, q);
    var m := st.maps[p];
    MapWords(st, p);
    assert m.base <= p && q + 16 <= m.base + m.len && q <= m.base + m.len - MMAP_FOOT_PAD - TreeIndex.MIN_LARGE_SIZE;
    MapSegs(st, p);
    assert WordsKept(st.tags, st'.tags, m.base, m.base + m.len);
    TagsKept(st.tags, st'.tags, st.segs, m.base, m.base + m.len);
    ShiftFree(st, p, q);
    ShiftRest(st, p, q, L, Y);
    ShiftMaps(st, p, q);
    forall r | r != p && r != q ensures BlockKept(st, st', r) {
      ShiftKept(st, p, q, r);
    }
    ShiftFootprint(st, p, q);
    ShiftDead(st, p, q, L, Y);
  }

  lemma MapSegs(st: State, p: Addr)
    requires MapsOK(st) && p in st.maps
    ensures SegsClear(st.segs, st.maps[p].base, st.maps[p].base + st.maps[p].len)
  {
    hide MapOK;
    forall k: nat | k < |st.segs|
      ensures st.segs[k].base + st.segs[k].size <= st.maps[p].base
      || st.maps[p].base + st.maps[p].len <= st.segs[k].base {
      assert MapApart(st.maps[p], st.segs[k].base, st.segs[k].size);
    }
  }

  lemma MapPair(st: State, p: Addr, q: Addr)
    requires MapsOK(st) && p in st.maps && q in st.maps && p != q
    ensures MapApart(st.maps[p], st.maps[q].base, st.maps[q].len)
  {
  }

  /** Nothing else starts inside the mapping. */
  lemma ShiftFree(st: State, p: Addr, q: Addr)
    requires MapsOK(st) && p in st.maps && p < q && q + TreeIndex.MIN_LARGE_SIZE <= p + st.tags.HeadOf(p)
    ensures q !in st.maps
  {
    hide MapsOK;
    MapWords(st, p);
    if q in st.maps {
      MapWords(st, q);
      MapPair(st, p, q);
    }
  }

  lemma ShiftDead(st: State, p: Addr, q: Addr, L: set<Addr>, Y: set<Addr>)
    requires p in st.maps && p < q && q + TreeIndex.MIN_LARGE_SIZE <= p + st.tags.HeadOf(p) && Inv(st, L, Y)
    ensures q !in st.live
  {
    hide FootprintOK, BinsMatch, LeastOK, SegsOK, MapsOK;
    UsedAreChunks(st, L, Y);
    MapWords(st, p);
    MapSegs(st, p);
    if q in st.tags.ch {
      var k := SegOf(st.tags, st.segs, q);
      ClearAt(st.segs, st.maps[p].base, st.maps[p].base + st.maps[p].len, k);
    }
  }

  lemma ClearAt(segs: seq<Segment>, lo: Addr, hi: Addr, k: nat)
    requires SegsClear(segs, lo, hi) && k < |segs|
    ensures segs[k].base + segs[k].size <= lo || hi <= segs[k].base
  {
  }

  lemma ShiftRest(st: State, p: Addr, q: Addr, L: set<Addr>, Y: set<Addr>)
    requires p in st.maps && p < q <= p + st.tags.HeadOf(p) && BinsMatch(st, L) && DvTopOK(st) && UsedOK(st, Y)
    requires LeastOK(st)
    ensures var st' := Shifted(st, p, q); BinsMatch(st', L) && DvTopOK(st') && UsedOK(st', Y) && LeastOK(st')
  {
    hide Records;
    SameBins(st, Shifted(st, p, q), L);
  }

  lemma ShiftFootprint(st: State, p: Addr, q: Addr)
    requires p in st.maps && p < q <= p + st.tags.HeadOf(p) && FootprintOK(st) && q !in st.maps
    ensures FootprintOK(Shifted(st, p, q))
  {
    var maps' := Shifted(st, p, q).maps;
    MapSizesAdd(st.maps, p);
    MapSizesAdd(maps', q);
    assert maps' - {q} == st.maps - {p};
  }

  lemma ShiftMaps(st: State, p: Addr, q: Addr)
    requires p in st.maps && p < q && q % 16 == 0 && q + TreeIndex.MIN_LARGE_SIZE <= p + st.tags.HeadOf(p)
    requires q !in st.maps && MapsOK(st)
    ensures MapsOK(Shifted(st, p, q))
  {
    hide MapApart, MapsOK, MapOK;
    var st' := Shifted(st, p, q);
    MapWords(st, p);
    forall r | r in st'.maps ensures MapOK(st'.tags, r, st'.maps[r]) {
      if r == q {
        ShiftSelf(st.tags, st'.tags, p, q, st.maps[p]);
      } else {
        MapWords(st, r);
        MapPair(st, p, r);
        ShiftOther(st.tags, st'.tags, p, q, st.maps[p], r, st.maps[r]);
      }
    }
    forall r, t | r in st'.maps && t in st'.maps && r != t
      ensures MapApart(st'.maps[r], st'.maps[t].base, st'.maps[t].len) {
      MapPair(st, if r == q then p else r, if t == q then p else t);
    }
    forall r, k: nat | r in st'.maps && k < |st'.segs|
      ensures MapApart(st'.maps[r], st'.segs[k].base, st'.segs[k].size) {
      MapSeg(st, if r == q then p else r, k);
    }
    AssembleMaps(st');
  }

  lemma AssembleMaps(st: State)
    requires forall p | p in st.maps :: MapOK(st.tags, p, st.maps[p])
    requires forall p, q | p in st.maps && q in st.maps && p != q ::
             MapApart(st.maps[p], st.maps[q].base, st.maps[q].len)
    requires forall p, k: nat | p in st.maps && k < |st.segs| :: MapApart(st.maps[p], st.segs[k].base, st.segs[k].size)
    ensures MapsOK(st)
  {
    hide MapOK, MapApart;
  }

  lemma MapSeg(st: State, p: Addr, k: nat)
    requires MapsOK(st) && p in st.maps && k < |st.segs|
    ensures MapApart(st.maps[p], st.segs[k].base, st.segs[k].size)
  {
  }

  lemma ShiftSelf(h: Tags, h': Tags, p: Addr, q: Addr, m: Mapping)
    requires MapOK(h, p, m) && p < q && q % 16 == 0 && q + TreeIndex.MIN_LARGE_SIZE <= p + h.HeadOf(p)
    requires h'.mem == h.mem[q := h.W(p) + (q - p)][q + 8 := h.HeadOf(p) - (q - p)]
    ensures MapOK(h', q, m)
  {
    assert h'.W(q) == q - m.base && h'.HeadOf(q) == m.len - (q - m.base) - MMAP_FOOT_PAD;
    assert q + h'.HeadOf(q) == p + h.HeadOf(p);
  }

  lemma ShiftOther(h: Tags, h': Tags, p: Addr, q: Addr, m: Mapping, r: Addr, n: Mapping)
    requires MapOK(h, p, m) && MapOK(h, r, n) && MapApart(m, n.base, n.len) && p < q
    requires q + TreeIndex.MIN_LARGE_SIZE <= p + h.HeadOf(p)
    requires h'.mem == h.mem[q := h.W(p) + (q - p)][q + 8 := h.HeadOf(p) - (q - p)]
    ensures MapOK(h', r, n)
  {
  }

  lemma ShiftKept(st: State, p: Addr, q: Addr, r: Addr)
    requires p in st.maps && p < q && q + TreeIndex.MIN_LARGE_SIZE <= p + st.tags.HeadOf(p) && r != p && r != q
    requires MapsOK(st)
    requires r in st.tags.ch ==> SameBlock(st.tags, Shifted(st, p, q).tags, r, st.tags.ch[r])
    ensures BlockKept(st, Shifted(st, p, q), r)
  {
    hide MapsOK;
    MapWords(st, p);
    if r in st.maps {
      MapWords(st, r);
      MapPair(st, p, r);
    }
  }
}
