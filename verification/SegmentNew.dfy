/** A new segment takes over top: the old top becomes a free chunk, a segment record and fenceposts. */
module SegmentNew {
  import opened Words
  import opened BoundaryTags
  import opened HeapState
  import opened HeapSteps
  import opened HeapOps
  import opened HeapOps2
  import opened SegmentOps
  import opened SegmentGrow
  import opened SegmentFront
  import TreeIndex

  /** Where the record of the old segment goes: behind the old top, or in its place if that is too small. */
  function RecAt(st: State): Addr
  {
    if st.topsize >= MIN_CHUNK_SIZE then st.tags.top + st.topsize else st.tags.top
  }

  function FenceAt(st: State): Addr
  {
    RecAt(st) + SEGMENT_RECORD
  }

  /** The words that `add_segment` leaves behind. */
  ghost predicate SealedWords(st: State, h': Tags, base: Addr, size: nat)
    requires size >= TOP_FOOT_SIZE && (size - TOP_FOOT_SIZE) % 16 == 0 && st.topsize % 16 == 0
  {
    var h, t, s, c := st.tags, st.tags.top, st.topsize, RecAt(st);
    && h'.HeadOf(base) == Head(size - TOP_FOOT_SIZE, false, true)
       && h'.HeadOf(base + (size - TOP_FOOT_SIZE)) == TOP_FOOT_SIZE
    && h'.HeadOf(c) == Head(SEGMENT_RECORD, true, c == t) && h'.HeadOf(FenceAt(st)) == FENCEPOST_HEAD
    && (c != t ==> h'.HeadOf(t) == Head(s, false, true) && h'.W(c) == s)
    && (forall w: Addr {:trigger h'.W(w)} | (w < t + 8 || t + s + TOP_FOOT_SIZE <= w)
       && (w < base || base + size <= w) :: h'.W(w) == h.W(w))
  }

  /** The state once the old top is sealed off; `st'` says what is in memory. */
  function Sealed(st: State, mem': map<Addr, nat>, base: Addr, size: nat): State
    requires size >= TOP_FOOT_SIZE && st.segs != []
  {
    var h, c := st.tags, RecAt(st);
    st.(tags := Tags(mem', h.ch[c := SEGMENT_RECORD][base := size - TOP_FOOT_SIZE], h.used + {c}, base,
      h.fence + {FenceAt(st)}),
        topsize := size - TOP_FOOT_SIZE, segs := [Segment(base, size, 0), st.segs[0].(rec := c)] + st.segs[1..],
        footprint := st.footprint + size, least := LeastOf(st.least, base))
  }

  /** The old top is loose, unless the record took its place. */
  function SealedLoose(st: State, L: set<Addr>): set<Addr>
  {
    if st.topsize >= MIN_CHUNK_SIZE then L + {st.tags.top} else L
  }

  ghost predicate Sealing(st: State, st': State, base: Addr, size: nat, L: set<Addr>, Y: set<Addr>)
  {
    && st.segs != [] && Vacant(st, base, size) && size >= TOP_FOOT_SIZE && (size - TOP_FOOT_SIZE) % 16 == 0
       && st.topsize % 16 == 0
    && st' == Sealed(st, st'.tags.mem, base, size) && SealedWords(st, st'.tags, base, size) && Inv(st, L, Y)
  }

  lemma AddSegment(st: State, st': State, base: Addr, size: nat, L: set<Addr>, Y: set<Addr>)
    requires Sealing(st, st', base, size, L, Y)
    ensures Inv(st', SealedLoose(st, L), Y)
    ensures forall p :: BlockKept(st, st', p)
  {
    hide MapsOK, LeastOK, FootprintOK, BinsMatch, UsedOK, SegsOK, DvTopOK, BlockKept, OK, Sealing;
    NewTags(st, st', base, size, L, Y);
    NewSegs(st, st', base, size, L, Y);
    NewRest(st, st', base, size, L, Y);
    NewMaps(st, st', base, size, L, Y);
    forall p ensures BlockKept(st, st', p) {
      NewKept(st, st', base, size, L, Y, p);
    }
  }

  /** The numbers involved. */
  lemma Numbers(st: State, st': State, base: Addr, size: nat, L: set<Addr>, Y: set<Addr>)
    requires Sealing(st, st', base, size, L, Y)
    ensures st.segs != []
    ensures var h, t, s := st.tags, st.tags.top, st.topsize;
            && t in h.ch && h.ch[t] == s && t !in h.used && t != st.dv && t > 0 && t % 16 == 0 && s % 16 == 0 && s >= 16
            && st.segs[0].base <= t && t + s + TOP_FOOT_SIZE == st.segs[0].base + st.segs[0].size
            && (RecAt(st) == t ==> st.segs[0].base < t)
    ensures base > 0 && base % 16 == 0 && size >= 4096 && size % 16 == 0 && base % 4096 == 0 && size % 4096 == 0
    ensures base + size <= TreeIndex.SIZE_MODULUS
    ensures st.segs[0].base + st.segs[0].size <= base || base + size <= st.segs[0].base
    ensures st' == Sealed(st, st'.tags.mem, base, size) && 0 !in st.tags.ch && Pin(st.tags.HeadOf(st.tags.top))
  {
    hide Inv, SealedWords, Vacant, Sealed, Pin;
    Seg0(st, L, Y);
    VacantPages(st, base, size);
    VacantSeg(st, base, size, 0);
    PageSizes(size);
    PageAligned(base);
    PageAligned(size);
    DvWordTop(st, L, Y);
    TopPinned(st, L, Y);
    Seg0Size(st, L, Y);
  }

  lemma Seg0Size(st: State, L: set<Addr>, Y: set<Addr>)
    requires st.segs != [] && Inv(st, L, Y)
    ensures st.segs[0].size >= 4096
  {
    hide MapsOK, LeastOK, FootprintOK, BinsMatch, UsedOK, OK, SegsOK;
    SegSizePos(st.tags, st.segs, 0);
  }

  /** A chunk other than the old top is apart from all that is written. */
  lemma Away(st: State, st': State, base: Addr, size: nat, L: set<Addr>, Y: set<Addr>, p: Addr)
    requires Sealing(st, st', base, size, L, Y) && p in st.tags.ch && p != st.tags.top
    ensures p + st.tags.ch[p] <= st.tags.top || st.tags.top + st.topsize + TOP_FOOT_SIZE <= p
    ensures p + st.tags.ch[p] + 32 <= base || base + size <= p
    ensures st.tags.ch[p] >= MIN_CHUNK_SIZE && p > 0 && p % 16 == 0
  {
    hide MapsOK, LeastOK, FootprintOK, BinsMatch, UsedOK, DvTopOK, SegsOK, Vacant, OK, SealedWords, Sealed;
    Numbers(st, st', base, size, L, Y);
    OutOfVacant(st, base, size, L, Y, p);
    ChunkFactsAt(st, L, Y, p);
    ChunksApart(st.tags, p, st.tags.top);
    var k := SegOf(st.tags, st.segs, p);
    if k != 0 {
      SegsApartAt(st.tags, st.segs, 0, k);
    }
  }

  lemma AwayFence(st: State, st': State, base: Addr, size: nat, L: set<Addr>, Y: set<Addr>, f: Addr)
    requires Sealing(st, st', base, size, L, Y) && f in st.tags.fence
    ensures f + 32 <= st.tags.top || st.tags.top + st.topsize + TOP_FOOT_SIZE <= f
    ensures f + 32 <= base || base + size <= f
    ensures FenceOK(st.tags, f)
  {
    hide MapsOK, LeastOK, FootprintOK, BinsMatch, UsedOK, DvTopOK, SegsOK, Vacant, SealedWords, Sealed, ChunkOK, Apart,
      EndApart;
    Numbers(st, st', base, size, L, Y);
    var k := FenceSeg(st.tags, st.segs, f);
    SegsApartAt(st.tags, st.segs, 0, k);
    VacantSeg(st, base, size, k);
    assert FenceOK(st.tags, f);
  }

  // ----- Boundary tags -----

  lemma NewTags(st: State, st': State, base: Addr, size: nat, L: set<Addr>, Y: set<Addr>)
    requires Sealing(st, st', base, size, L, Y)
    ensures OK(st'.tags)
  {
    hide Sealing, ChunkOK, Apart, EndApart, FenceOK;
    var h, h' := st.tags, st'.tags;
    Numbers(st, st', base, size, L, Y);
    forall p | p in h'.ch ensures ChunkOK(h', p) {
      NewChunk(st, st', base, size, L, Y, p);
    }
    forall p, q | p in h'.ch && q in h'.ch && p != q ensures Apart(h', p, q) {
      NewApart(st, st', base, size, L, Y, p, q);
    }
    forall f | f in h'.fence ensures FenceOK(h', f) {
      NewFence(st, st', base, size, L, Y, f);
    }
    forall f, p | f in h'.fence && p in h'.ch ensures EndApart(h', f, p) {
      NewFenceApart(st, st', base, size, L, Y, f, p);
    }
    forall p | p in h'.ch ensures EndApart(h', TopEnd(h'), p) {
      NewTopApart(st, st', base, size, L, Y, p);
    }
    UsedChunks(st, L, Y, st', base, size);
  }

  lemma UsedChunks(st: State, L: set<Addr>, Y: set<Addr>, st': State, base: Addr, size: nat)
    requires Sealing(st, st', base, size, L, Y)
    ensures st.tags.used <= st.tags.ch.Keys && base !in st.tags.used && base !in st.tags.ch
    ensures st'.tags.used <= st'.tags.ch.Keys
    ensures base != RecAt(st) && base != st.tags.top
  {
    hide MapsOK, LeastOK, FootprintOK, BinsMatch, UsedOK, DvTopOK, SegsOK, Vacant, SealedWords;
    UsedAreChunks(st, L, Y);
    MapNewDead(st, base, size, L, Y);
    hide OK;
    Numbers(st, st', base, size, L, Y);
  }

  lemma NewChunk(st: State, st': State, base: Addr, size: nat, L: set<Addr>, Y: set<Addr>, p: Addr)
    requires Sealing(st, st', base, size, L, Y) && p in st'.tags.ch
    ensures ChunkOK(st'.tags, p)
  {
    hide Sealing, ChunkOK;
    Numbers(st, st', base, size, L, Y);
    if p == base {
      NewTopOK(st, st', base, size, L, Y);
    } else if p == RecAt(st) {
      RecOK(st, st', base, size, L, Y);
    } else if p == st.tags.top {
      OldTopOK(st, st', base, size, L, Y);
    } else {
      OldOK(st, st', base, size, L, Y, p);
    }
  }

  lemma Written(st: State, st': State, base: Addr, size: nat, L: set<Addr>, Y: set<Addr>)
    requires Sealing(st, st', base, size, L, Y)
    ensures size >= TOP_FOOT_SIZE && (size - TOP_FOOT_SIZE) % 16 == 0 && st.topsize % 16 == 0
    ensures SealedWords(st, st'.tags, base, size)
  {
    hide Inv, Vacant, Sealed, SealedWords;
  }

  lemma NewTopOK(st: State, st': State, base: Addr, size: nat, L: set<Addr>, Y: set<Addr>)
    requires Sealing(st, st', base, size, L, Y)
    ensures base in st'.tags.ch && ChunkOK(st'.tags, base)
  {
    hide Sealing, Pin, Cin, SizeOf;
    Numbers(st, st', base, size, L, Y);
    Written(st, st', base, size, L, Y);
    UsedChunks(st, L, Y, st', base, size);
    var n := base + (size - TOP_FOOT_SIZE);
    if n in st.tags.ch {
      Away(st, st', base, size, L, Y, n);
    }
  }

  lemma RecOK(st: State, st': State, base: Addr, size: nat, L: set<Addr>, Y: set<Addr>)
    requires Sealing(st, st', base, size, L, Y)
    ensures RecAt(st) in st'.tags.ch && ChunkOK(st'.tags, RecAt(st))
  {
    hide Sealing, Pin, Cin, SizeOf;
    Numbers(st, st', base, size, L, Y);
    Written(st, st', base, size, L, Y);
    UsedChunks(st, L, Y, st', base, size);
    NoChunkAtFence(st, st', base, size, L, Y);
  }

  lemma NoChunkAtFence(st: State, st': State, base: Addr, size: nat, L: set<Addr>, Y: set<Addr>)
    requires Sealing(st, st', base, size, L, Y)
    ensures FenceAt(st) !in st'.tags.ch && FenceAt(st) !in st.tags.ch
    ensures FenceAt(st) + 32 <= st.tags.top + st.topsize + TOP_FOOT_SIZE
    ensures RecAt(st) in st.tags.ch ==> RecAt(st) == st.tags.top
  {
    hide Sealing, Pin, Cin, SizeOf;
    Numbers(st, st', base, size, L, Y);
    if FenceAt(st) in st.tags.ch {
      Away(st, st', base, size, L, Y, FenceAt(st));
    }
    if RecAt(st) in st.tags.ch && RecAt(st) != st.tags.top {
      Away(st, st', base, size, L, Y, RecAt(st));
    }
  }

  lemma OldTopOK(st: State, st': State, base: Addr, size: nat, L: set<Addr>, Y: set<Addr>)
    requires Sealing(st, st', base, size, L, Y) && RecAt(st) != st.tags.top
    ensures st.tags.top in st'.tags.ch && ChunkOK(st'.tags, st.tags.top)
  {
    hide Sealing, Pin, Cin, SizeOf;
    Numbers(st, st', base, size, L, Y);
    Written(st, st', base, size, L, Y);
    UsedChunks(st, L, Y, st', base, size);
  }

  lemma OldOK(st: State, st': State, base: Addr, size: nat, L: set<Addr>, Y: set<Addr>, p: Addr)
    requires Sealing(st, st', base, size, L, Y) && p in st.tags.ch && p != st.tags.top
    ensures p in st'.tags.ch && ChunkOK(st'.tags, p)
  {
    hide Sealing, ChunkOK, Pin, SealedWords;
    var h, h' := st.tags, st'.tags;
    Numbers(st, st', base, size, L, Y);
    Away(st, st', base, size, L, Y, p);
    UsedChunks(st, L, Y, st', base, size);
    OldWords(st, st', base, size, L, Y, p);
    OldChunk(st, st', base, size, L, Y, p);
    NoChunkAtFence(st, st', base, size, L, Y);
    KeepChunk(h, h', p);
  }

  lemma OldChunk(st: State, st': State, base: Addr, size: nat, L: set<Addr>, Y: set<Addr>, p: Addr)
    requires Sealing(st, st', base, size, L, Y) && p in st.tags.ch
    ensures ChunkOK(st.tags, p)
    ensures !Pin(st.tags.HeadOf(p)) ==>
              st.tags.W(p) <= p && p - st.tags.W(p) != st.tags.top && p - st.tags.W(p) in st.tags.ch
  {
    hide OK, DvTopOK, BinsMatch, SegsOK, UsedOK, MapsOK, FootprintOK, LeastOK, SealedWords, Sealed, Vacant, ChunkOK,
      Pin;
    ChunkAt(st.tags, p);
  }

  lemma OldWords(st: State, st': State, base: Addr, size: nat, L: set<Addr>, Y: set<Addr>, p: Addr)
    requires Sealing(st, st', base, size, L, Y) && p in st.tags.ch && p != st.tags.top
    ensures var h, h', n := st.tags, st'.tags, p + st.tags.ch[p];
            h'.W(p) == h.W(p) && h'.HeadOf(p) == h.HeadOf(p) && h'.W(n) == h.W(n)
              && (Pin(h'.HeadOf(n)) <==> Pin(h.HeadOf(n)))
  {
    hide Sealing, ChunkOK, Pin;
    Numbers(st, st', base, size, L, Y);
    Away(st, st', base, size, L, Y, p);
    Written(st, st', base, size, L, Y);
  }

  lemma NewApart(st: State, st': State, base: Addr, size: nat, L: set<Addr>, Y: set<Addr>, p: Addr, q: Addr)
    requires Sealing(st, st', base, size, L, Y) && p in st'.tags.ch && q in st'.tags.ch && p != q
    ensures Apart(st'.tags, p, q)
  {
    hide Sealing;
    Numbers(st, st', base, size, L, Y);
    if p in st.tags.ch && p != st.tags.top {
      Away(st, st', base, size, L, Y, p);
    }
    if q in st.tags.ch && q != st.tags.top {
      Away(st, st', base, size, L, Y, q);
    }
    if p in st.tags.ch && q in st.tags.ch {
      OldApart(st, st', base, size, L, Y, p, q);
    }
    UsedChunks(st, L, Y, st', base, size);
    NoChunkAtFence(st, st', base, size, L, Y);
  }

  lemma OldApart(st: State, st': State, base: Addr, size: nat, L: set<Addr>, Y: set<Addr>, p: Addr, q: Addr)
    requires Sealing(st, st', base, size, L, Y) && p in st.tags.ch && q in st.tags.ch && p != q
    ensures Apart(st.tags, p, q)
  {
    hide OK, DvTopOK, BinsMatch, SegsOK, UsedOK, MapsOK, FootprintOK, LeastOK, SealedWords, Sealed, Vacant;
    ChunksApart(st.tags, p, q);
  }

  lemma NewFence(st: State, st': State, base: Addr, size: nat, L: set<Addr>, Y: set<Addr>, f: Addr)
    requires Sealing(st, st', base, size, L, Y) && f in st'.tags.fence
    ensures FenceOK(st'.tags, f)
  {
    hide Sealing;
    Numbers(st, st', base, size, L, Y);
    Written(st, st', base, size, L, Y);
    NoChunkAtFence(st, st', base, size, L, Y);
    UsedChunks(st, L, Y, st', base, size);
    if f != FenceAt(st) {
      AwayFence(st, st', base, size, L, Y, f);
    }
  }

  lemma NewFenceApart(st: State, st': State, base: Addr, size: nat, L: set<Addr>, Y: set<Addr>, f: Addr, p: Addr)
    requires Sealing(st, st', base, size, L, Y) && f in st'.tags.fence && p in st'.tags.ch
    ensures EndApart(st'.tags, f, p)
  {
    hide Sealing, FenceOK, SealedWords;
    Numbers(st, st', base, size, L, Y);
    if p in st.tags.ch && p != st.tags.top {
      Away(st, st', base, size, L, Y, p);
    }
    if f in st.tags.fence {
      AwayFence(st, st', base, size, L, Y, f);
      if p in st.tags.ch {
        OldEndApart(st, st', base, size, L, Y, f, p);
      }
    }
    NoChunkAtFence(st, st', base, size, L, Y);
  }

  lemma OldEndApart(st: State, st': State, base: Addr, size: nat, L: set<Addr>, Y: set<Addr>, f: Addr, p: Addr)
    requires Sealing(st, st', base, size, L, Y) && p in st.tags.ch && f in st.tags.fence
    ensures EndApart(st.tags, f, p)
  {
    hide DvTopOK, BinsMatch, SegsOK, UsedOK, MapsOK, FootprintOK, LeastOK, SealedWords, Sealed, Vacant, ChunkOK,
      FenceOK, Apart;
  }

  lemma NewTopApart(st: State, st': State, base: Addr, size: nat, L: set<Addr>, Y: set<Addr>, p: Addr)
    requires Sealing(st, st', base, size, L, Y) && p in st'.tags.ch
    ensures EndApart(st'.tags, TopEnd(st'.tags), p)
  {
    hide Sealing, SealedWords;
    Numbers(st, st', base, size, L, Y);
    if p in st.tags.ch && p != st.tags.top {
      Away(st, st', base, size, L, Y, p);
    }
    NoChunkAtFence(st, st', base, size, L, Y);
  }

  // ----- Segments -----

  lemma NewSegs(st: State, st': State, base: Addr, size: nat, L: set<Addr>, Y: set<Addr>)
    requires Sealing(st, st', base, size, L, Y)
    ensures SegsOK(st'.tags, st'.segs)
  {
    hide Sealing, SegOK, SegsApart, InSomeSeg, SealedWords;
    Numbers(st, st', base, size, L, Y);
    forall k: nat | k < |st'.segs| ensures SegOK(st'.tags, st'.segs, k) {
      NewSeg(st, st', base, size, L, Y, k);
    }
    forall j: nat, k: nat | j < |st'.segs| && k < |st'.segs| && j != k ensures SegsApart(st'.segs, j, k) {
      NewSegsApart(st, st', base, size, L, Y, j, k);
    }
    forall p | p in st'.tags.ch ensures InSomeSeg(st'.tags, st'.segs, p) {
      NewIn(st, st', base, size, L, Y, p);
    }
    forall f | f in st'.tags.fence ensures exists k: nat :: 0 < k < |st'.segs| && f == SegEnd(st'.tags, st'.segs, k) {
      var k := NewEnd(st, st', base, size, L, Y, f);
    }
  }

  lemma OldSegs(st: State, st': State, base: Addr, size: nat, L: set<Addr>, Y: set<Addr>)
    requires Sealing(st, st', base, size, L, Y)
    ensures SegsOK(st.tags, st.segs)
  {
    hide OK, DvTopOK, BinsMatch, SegsOK, UsedOK, MapsOK, FootprintOK, LeastOK, SealedWords, Sealed, Vacant;
  }

  lemma NewSeg(st: State, st': State, base: Addr, size: nat, L: set<Addr>, Y: set<Addr>, k: nat)
    requires Sealing(st, st', base, size, L, Y) && k < |st'.segs|
    ensures SegOK(st'.tags, st'.segs, k)
  {
    hide Sealing, SegsApart, InSomeSeg, Pin, OK, SegsOK;
    Numbers(st, st', base, size, L, Y);
    Written(st, st', base, size, L, Y);
    OldSegs(st, st', base, size, L, Y);
    if k == 0 {
      assert base in st'.tags.ch && Pin(st'.tags.HeadOf(base));
    } else {
      SegAt(st.tags, st.segs, k - 1);
      assert st'.segs[k] == if k == 1 then st.segs[0].(rec := RecAt(st)) else st.segs[k - 1];
      var b := st.segs[k - 1].base;
      if b != st.tags.top {
        Away(st, st', base, size, L, Y, b);
      }
      NoChunkAtFence(st, st', base, size, L, Y);
      UsedChunks(st, L, Y, st', base, size);
      if k > 1 {
        RecOther(st, st', base, size, L, Y, k - 1);
      }
    }
  }

  lemma SegAt(h: Tags, segs: seq<Segment>, k: nat)
    requires SegsOK(h, segs) && k < |segs|
    ensures SegOK(h, segs, k)
  {
    hide SegOK;
  }

  lemma RecOther(st: State, st': State, base: Addr, size: nat, L: set<Addr>, Y: set<Addr>, k: nat)
    requires Sealing(st, st', base, size, L, Y) && 0 < k < |st.segs|
    ensures st.segs[k].rec != st.tags.top && st.segs[k].rec != base && st.segs[k].rec != RecAt(st)
  {
    hide OK, DvTopOK, BinsMatch, SegsOK, UsedOK, MapsOK, FootprintOK, LeastOK, SealedWords, Sealed, Vacant;
    BaseNotTop(st, L, Y, k);
    SegAt(st.tags, st.segs, k);
    UsedChunks(st, L, Y, st', base, size);
    NoChunkAtFence(st, st', base, size, L, Y);
  }

  lemma NewSegsApart(st: State, st': State, base: Addr, size: nat, L: set<Addr>, Y: set<Addr>, j: nat, k: nat)
    requires Sealing(st, st', base, size, L, Y) && j < |st'.segs| && k < |st'.segs| && j != k
    ensures SegsApart(st'.segs, j, k)
  {
    hide OK, DvTopOK, BinsMatch, SegsOK, UsedOK, MapsOK, FootprintOK, LeastOK, SealedWords, Vacant, Sealing, Sealed;
    Numbers(st, st', base, size, L, Y);
    Shifts(st, st', base, size, L, Y, j);
    Shifts(st, st', base, size, L, Y, k);
    OldSegs(st, st', base, size, L, Y);
    if j > 0 && k > 0 {
      SegsApartAt(st.tags, st.segs, j - 1, k - 1);
    } else {
      NewVacant(st, st', base, size, L, Y, if j > 0 then j - 1 else k - 1);
    }
  }

  lemma NewVacant(st: State, st': State, base: Addr, size: nat, L: set<Addr>, Y: set<Addr>, k: nat)
    requires Sealing(st, st', base, size, L, Y) && k < |st.segs|
    ensures SegApart(st.segs[k], base, size)
  {
    hide Inv, SealedWords, Sealed, Vacant;
    VacantSeg(st, base, size, k);
  }

  lemma Shifts(st: State, st': State, base: Addr, size: nat, L: set<Addr>, Y: set<Addr>, k: nat)
    requires Sealing(st, st', base, size, L, Y) && k < |st'.segs|
    ensures if k == 0 then st'.segs[k].base == base && st'.segs[k].size == size
            else k - 1 < |st.segs| && st'.segs[k].base == st.segs[k - 1].base && st'.segs[k].size == st.segs[k - 1].size
  {
    hide Inv, SealedWords, Vacant;
  }

  lemma NewIn(st: State, st': State, base: Addr, size: nat, L: set<Addr>, Y: set<Addr>, p: Addr)
    requires Sealing(st, st', base, size, L, Y) && p in st'.tags.ch
    ensures InSomeSeg(st'.tags, st'.segs, p)
  {
    hide Sealing, SegsApart, Pin, OK, SegsOK, SegOK, SealedWords;
    Numbers(st, st', base, size, L, Y);
    UsedChunks(st, L, Y, st', base, size);
    OldSegs(st, st', base, size, L, Y);
    if p == base {
      assert ChunkInSeg(st'.tags, st'.segs, 0, p);
    } else if p == RecAt(st) || p == st.tags.top {
      assert ChunkInSeg(st'.tags, st'.segs, 1, p);
    } else {
      Away(st, st', base, size, L, Y, p);
      var k := SegOf(st.tags, st.segs, p);
      assert ChunkInSeg(st'.tags, st'.segs, k + 1, p);
    }
  }

  lemma NewEnd(st: State, st': State, base: Addr, size: nat, L: set<Addr>, Y: set<Addr>, f: Addr) returns (k: nat)
    requires Sealing(st, st', base, size, L, Y) && f in st'.tags.fence
    ensures 0 < k < |st'.segs| && f == SegEnd(st'.tags, st'.segs, k)
  {
    hide Sealing, SegsApart, Pin, OK, SegsOK, SegOK, SealedWords;
    Numbers(st, st', base, size, L, Y);
    OldSegs(st, st', base, size, L, Y);
    if f == FenceAt(st) {
      k := 1;
    } else {
      k := FenceSeg(st.tags, st.segs, f);
      k := k + 1;
    }
  }

  // ----- The rest -----

  lemma NewRest(st: State, st': State, base: Addr, size: nat, L: set<Addr>, Y: set<Addr>)
    requires Sealing(st, st', base, size, L, Y)
    ensures DvTopOK(st') && BinsMatch(st', SealedLoose(st, L)) && UsedOK(st', Y) && FootprintOK(st') && LeastOK(st')
  {
    hide OK, SegsOK, MapsOK, SealedWords, Vacant, BinsMatch, UsedOK, LeastOK, FootprintOK;
    Numbers(st, st', base, size, L, Y);
    UsedChunks(st, L, Y, st', base, size);
    NoChunkAtFence(st, st', base, size, L, Y);
    NewBins(st, st', base, size, L, Y);
    NewUsed(st, st', base, size, L, Y);
    NewFootprint(st, st', base, size, L, Y);
    NewLeast(st, st', base, size, L, Y);
  }

  lemma NewBins(st: State, st': State, base: Addr, size: nat, L: set<Addr>, Y: set<Addr>)
    requires Sealing(st, st', base, size, L, Y)
    ensures BinsMatch(st', SealedLoose(st, L))
  {
    hide OK, SegsOK, MapsOK, SealedWords, Vacant, UsedOK, LeastOK, FootprintOK;
    Numbers(st, st', base, size, L, Y);
    UsedChunks(st, L, Y, st', base, size);
    NoChunkAtFence(st, st', base, size, L, Y);
    forall p | IsFree(st'.tags, st'.dv, p) ensures p in SealedLoose(st, L) || p in st'.small || p in st'.tree {
      assert p != st.tags.top ==> IsFree(st.tags, st.dv, p);
    }
    forall p | p in st'.small || p in st'.tree
      ensures IsFree(st'.tags, st'.dv, p) && p in st.tags.ch && st'.tags.ch[p] == st.tags.ch[p]
      ensures p !in SealedLoose(st, L)
    {
      assert IsFree(st.tags, st.dv, p);
    }
  }

  lemma NewUsed(st: State, st': State, base: Addr, size: nat, L: set<Addr>, Y: set<Addr>)
    requires Sealing(st, st', base, size, L, Y)
    ensures UsedOK(st', Y)
  {
    hide OK, SegsOK, MapsOK, SealedWords, Vacant, BinsMatch, LeastOK, FootprintOK, DvTopOK;
    Numbers(st, st', base, size, L, Y);
    UsedChunks(st, L, Y, st', base, size);
    NoChunkAtFence(st, st', base, size, L, Y);
    NewRecords(st, st', base, size, L, Y);
    hide Records;
  }

  lemma NewRecords(st: State, st': State, base: Addr, size: nat, L: set<Addr>, Y: set<Addr>)
    requires Sealing(st, st', base, size, L, Y)
    ensures Records(st'.segs) == Records(st.segs) + {RecAt(st)}
  {
    hide Inv, SealedWords, Vacant;
    assert st'.segs[1].rec == RecAt(st);
    forall r | r in Records(st.segs) ensures r in Records(st'.segs) {
      var k: nat :| 0 < k < |st.segs| && r == st.segs[k].rec;
      assert st'.segs[k + 1] == st.segs[k];
    }
    forall r | r in Records(st'.segs) ensures r in Records(st.segs) + {RecAt(st)} {
      var k: nat :| 0 < k < |st'.segs| && r == st'.segs[k].rec;
      assert k > 1 ==> st'.segs[k] == st.segs[k - 1];
    }
  }

  lemma NewFootprint(st: State, st': State, base: Addr, size: nat, L: set<Addr>, Y: set<Addr>)
    requires Sealing(st, st', base, size, L, Y)
    ensures FootprintOK(st')
  {
    hide OK, SegsOK, MapsOK, SealedWords, Vacant, BinsMatch, LeastOK, UsedOK, DvTopOK, MapSizes;
    VacantRoom(st, base, size);
    assert st'.segs[1..] == [st.segs[0].(rec := RecAt(st))] + st.segs[1..];
    var rest := [st.segs[0].(rec := RecAt(st))] + st.segs[1..];
    assert rest[1..] == st.segs[1..];
    assert SegSizes(st'.segs) == size + SegSizes(rest);
    assert SegSizes(rest) == st.segs[0].size + SegSizes(st.segs[1..]);
  }

  lemma NewLeast(st: State, st': State, base: Addr, size: nat, L: set<Addr>, Y: set<Addr>)
    requires Sealing(st, st', base, size, L, Y)
    ensures LeastOK(st')
  {
    hide OK, SegsOK, MapsOK, SealedWords, Vacant, BinsMatch, FootprintOK, UsedOK, DvTopOK;
    Numbers(st, st', base, size, L, Y);
  }

  lemma NewMaps(st: State, st': State, base: Addr, size: nat, L: set<Addr>, Y: set<Addr>)
    requires Sealing(st, st', base, size, L, Y)
    ensures MapsOK(st')
    ensures forall p | p in st.maps :: SameMapped(st.tags, st'.tags, p, st.maps[p])
  {
    hide Sealing, MapApart, MapOK, SealedWords, SameMapped;
    Numbers(st, st', base, size, L, Y);
    forall p | p in st.maps ensures MapOK(st'.tags, p, st.maps[p]) && SameMapped(st.tags, st'.tags, p, st.maps[p]) {
      NewMap(st, st', base, size, L, Y, p);
    }
    OldMaps(st, st', base, size, L, Y);
    forall p, q | p in st'.maps && q in st'.maps && p != q
      ensures MapApart(st'.maps[p], st'.maps[q].base, st'.maps[q].len) {
      MapPair(st, p, q);
    }
    forall p, k: nat | p in st'.maps && k < |st'.segs|
      ensures MapApart(st'.maps[p], st'.segs[k].base, st'.segs[k].size) {
      Shifts(st, st', base, size, L, Y, k);
      if k == 0 {
        NewMapVacant(st, st', base, size, L, Y, p);
      } else {
        MapSeg(st, p, k - 1);
      }
    }
    AssembleMaps(st');
  }

  lemma OldMaps(st: State, st': State, base: Addr, size: nat, L: set<Addr>, Y: set<Addr>)
    requires Sealing(st, st', base, size, L, Y)
    ensures MapsOK(st)
  {
    hide OK, DvTopOK, BinsMatch, SegsOK, UsedOK, MapsOK, FootprintOK, LeastOK, SealedWords, Sealed, Vacant;
  }

  lemma NewMapVacant(st: State, st': State, base: Addr, size: nat, L: set<Addr>, Y: set<Addr>, p: Addr)
    requires Sealing(st, st', base, size, L, Y) && p in st.maps
    ensures MapApart(st.maps[p], base, size)
  {
    hide Inv, SealedWords, Sealed, Vacant;
    VacantMap(st, base, size, p);
  }

  lemma NewMap(st: State, st': State, base: Addr, size: nat, L: set<Addr>, Y: set<Addr>, p: Addr)
    requires Sealing(st, st', base, size, L, Y) && p in st.maps
    ensures MapOK(st'.tags, p, st.maps[p]) && SameMapped(st.tags, st'.tags, p, st.maps[p])
  {
    hide Sealing, MapsOK;
    Numbers(st, st', base, size, L, Y);
    Written(st, st', base, size, L, Y);
    OldMaps(st, st', base, size, L, Y);
    MapWords(st, p);
    NewMapVacant(st, st', base, size, L, Y, p);
    MapSeg(st, p, 0);
  }

  lemma NewKept(st: State, st': State, base: Addr, size: nat, L: set<Addr>, Y: set<Addr>, p: Addr)
    requires Sealing(st, st', base, size, L, Y)
    requires p in st.maps ==> SameMapped(st.tags, st'.tags, p, st.maps[p])
    ensures BlockKept(st, st', p)
  {
    hide Sealing, SameMapped;
    Numbers(st, st', base, size, L, Y);
    if p in st.live {
      LiveUsed(st, st', base, size, L, Y, p);
      Away(st, st', base, size, L, Y, p);
      Written(st, st', base, size, L, Y);
      UsedChunks(st, L, Y, st', base, size);
      NoChunkAtFence(st, st', base, size, L, Y);
      assert SameBlock(st.tags, st'.tags, p, st.tags.ch[p]);
    }
  }

  lemma LiveUsed(st: State, st': State, base: Addr, size: nat, L: set<Addr>, Y: set<Addr>, p: Addr)
    requires Sealing(st, st', base, size, L, Y) && p in st.live
    ensures p in st.tags.used && p in st.tags.ch && p != st.tags.top
  {
    hide OK, DvTopOK, BinsMatch, SegsOK, UsedOK, MapsOK, FootprintOK, LeastOK, SealedWords, Sealed, Vacant;
    UsedAreChunks(st, L, Y);
    Numbers(st, st', base, size, L, Y);
  }
}
