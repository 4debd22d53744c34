/** What clients write into their blocks does not disturb the allocator, nor other clients. */
module Payload {
  import opened Words
  import opened BoundaryTags
  import opened HeapState
  import opened HeapSteps
  import opened HeapOps
  import opened HeapOps2
  import opened MallocState
  import opened SegmentOps
  import opened SegmentGrow
  import opened SegmentNew
  import opened Consolidate
  import TreeIndex
  import SB = SmallBins
  import TB = TreeBins

  /** The bytes from the start of chunk `p` to the end of what its client may use: the next chunk's
      prev_foot is the client's, too, but not that of the fake chunk behind a mapped one. */
  function UsableEnd(st: State, p: Addr): nat
  {
    if p in st.maps then st.tags.HeadOf(p) else if p in st.tags.ch then st.tags.ch[p] + 8 else 0
  }

  /** `w` is a word of the memory that the client of `p` may use. */
  predicate InPayload(st: State, p: Addr, w: Addr)
  {
    (p in st.live || p in st.maps) && p + 16 <= w < p + UsableEnd(st, p)
  }

  function Stored(st: State, w: Addr, v: nat): State
  {
    st.(tags := st.tags.(mem := st.tags.mem[w := v]))
  }

  lemma StoreKeeps(st: State, p: Addr, w: Addr, v: nat)
    requires InPayload(st, p, w) && Inv(st, {}, {})
    ensures Inv(Stored(st, w, v), {}, {}) && forall q | q != p :: BlockKept(st, Stored(st, w, v), q)
  {
    hide MapsOK, LeastOK, FootprintOK, BinsMatch, UsedOK, SegsOK, DvTopOK, BlockKept, OK, InPayload;
    var st' := Stored(st, w, v);
    StoreRest(st, w, v);
    if p in st.maps {
      StoreMapped(st, p, w, v);
    } else {
      StoreBlock(st, p, w, v);
    }
  }

  lemma StoreRest(st: State, w: Addr, v: nat)
    requires DvTopOK(st) && BinsMatch(st, {}) && UsedOK(st, {}) && LeastOK(st) && FootprintOK(st)
    ensures var st' := Stored(st, w, v);
            DvTopOK(st') && BinsMatch(st', {}) && UsedOK(st', {}) && LeastOK(st') && FootprintOK(st')
  {
    hide Records;
    SameBins(st, Stored(st, w, v), {});
  }

  lemma StoreMapped(st: State, p: Addr, w: Addr, v: nat)
    requires p in st.maps && InPayload(st, p, w) && Inv(st, {}, {})
    ensures var st' := Stored(st, w, v); OK(st'.tags) && SegsOK(st'.tags, st'.segs) && MapsOK(st')
    ensures forall q | q != p :: BlockKept(st, Stored(st, w, v), q)
  {
    hide LeastOK, FootprintOK, BinsMatch, UsedOK, DvTopOK, SegsOK, OK, MapsOK;
    var st', m := Stored(st, w, v), st.maps[p];
    MapWords(st, p);
    MapSegs(st, p);
    TagsKept(st.tags, st'.tags, st.segs, m.base, m.base + m.len);
    forall q | q in st'.maps
      ensures MapOK(st'.tags, q, st'.maps[q]) && (q != p ==> SameMapped(st.tags, st'.tags, q, st.maps[q])) {
      MapWords(st, q);
      if q != p {
        MapPair(st, p, q);
      }
    }
    StoreApart(st, st');
  }

  lemma StoreApart(st: State, st': State)
    requires MapsOK(st) && st'.maps == st.maps && st'.segs == st.segs
    requires forall q | q in st'.maps :: MapOK(st'.tags, q, st'.maps[q])
    ensures MapsOK(st')
  {
    hide MapsOK, MapOK, MapApart;
    forall p, q | p in st'.maps && q in st'.maps && p != q
      ensures MapApart(st'.maps[p], st'.maps[q].base, st'.maps[q].len) {
      MapPair(st, p, q);
    }
    forall p, k: nat | p in st'.maps && k < |st'.segs|
      ensures MapApart(st'.maps[p], st'.segs[k].base, st'.segs[k].size) {
      MapSeg(st, p, k);
    }
    AssembleMaps(st');
  }

  lemma StoreBlock(st: State, p: Addr, w: Addr, v: nat)
    requires p !in st.maps && InPayload(st, p, w) && Inv(st, {}, {})
    ensures var st' := Stored(st, w, v); OK(st'.tags) && SegsOK(st'.tags, st'.segs) && MapsOK(st')
    ensures forall q | q != p :: BlockKept(st, Stored(st, w, v), q)
  {
    hide LeastOK, FootprintOK, BinsMatch, UsedOK, DvTopOK, SegsOK, OK, MapsOK, BlockKept;
    var st' := Stored(st, w, v);
    NextChunk(st, p, {}, {});
    StoreTags(st, p, w, v);
    StoreSegs(st, p, w, v);
    var k := SegOf(st.tags, st.segs, p);
    forall q | q in st.maps ensures MapApart(st.maps[q], st.segs[k].base, st.segs[k].size) {
      MapSeg(st, q, k);
    }
    MapsMoved(st, st', st.segs[k].base, st.segs[k].size);
    forall q | q != p ensures BlockKept(st, st', q) {
      StoreOther(st, p, w, v, q);
    }
  }

  lemma StoreOther(st: State, p: Addr, w: Addr, v: nat, q: Addr)
    requires p !in st.maps && InPayload(st, p, w) && q != p && Inv(st, {}, {})
    requires q in st.maps ==> SameMapped(st.tags, Stored(st, w, v).tags, q, st.maps[q])
    ensures BlockKept(st, Stored(st, w, v), q)
  {
    hide LeastOK, FootprintOK, BinsMatch, UsedOK, DvTopOK, SegsOK, OK, MapsOK, SameMapped;
    NextChunk(st, p, {}, {});
    if q in st.live && q in st.tags.ch {
      ChunksApart(st.tags, p, q);
    }
  }

  /** The word is in no chunk's head, no fencepost, and in no prev_foot that anybody reads. */
  lemma NotATag(st: State, p: Addr, w: Addr, q: Addr)
    requires p !in st.maps && InPayload(st, p, w) && q in st.tags.ch && Inv(st, {}, {})
    ensures w != q + 8 && (w == q ==> Pin(st.tags.HeadOf(q)))
  {
    hide LeastOK, FootprintOK, BinsMatch, UsedOK, DvTopOK, SegsOK, OK, MapsOK, Pin;
    NextChunk(st, p, {}, {});
    ChunkFactsAt(st, {}, {}, q);
    if p != q {
      ChunksApart(st.tags, p, q);
    }
  }

  lemma StoreTags(st: State, p: Addr, w: Addr, v: nat)
    requires p !in st.maps && InPayload(st, p, w) && Inv(st, {}, {})
    ensures OK(Stored(st, w, v).tags)
  {
    hide LeastOK, FootprintOK, BinsMatch, UsedOK, SegsOK, MapsOK, Pin, InPayload, DvTopOK, ChunkOK, FenceOK;
    var h, h' := st.tags, Stored(st, w, v).tags;
    forall q | q in h'.ch ensures ChunkOK(h', q) {
      StoreChunk(st, p, w, v, q);
    }
    forall q, r | q in h'.ch && r in h'.ch && q != r ensures Apart(h', q, r) {
      assert Apart(h, q, r);
    }
    forall f | f in h'.fence ensures FenceOK(h', f) {
      StoreFence(st, p, w, v, f);
    }
    forall f, q | f in h'.fence && q in h'.ch ensures EndApart(h', f, q) {
      assert EndApart(h, f, q);
    }
    forall q | q in h'.ch && h'.top in h'.ch ensures EndApart(h', TopEnd(h'), q) {
      assert EndApart(h, TopEnd(h), q);
    }
  }

  lemma StoreFence(st: State, p: Addr, w: Addr, v: nat, f: Addr)
    requires p !in st.maps && InPayload(st, p, w) && f in st.tags.fence && Inv(st, {}, {})
    ensures FenceOK(Stored(st, w, v).tags, f)
  {
    hide LeastOK, FootprintOK, BinsMatch, UsedOK, SegsOK, MapsOK, Pin, DvTopOK, ChunkOK, Apart;
    NextChunk(st, p, {}, {});
    assert FenceOK(st.tags, f) && EndApart(st.tags, f, p);
  }

  lemma StoreChunk(st: State, p: Addr, w: Addr, v: nat, q: Addr)
    requires p !in st.maps && InPayload(st, p, w) && q in st.tags.ch && Inv(st, {}, {})
    ensures ChunkOK(Stored(st, w, v).tags, q)
  {
    hide LeastOK, FootprintOK, BinsMatch, UsedOK, SegsOK, MapsOK, Pin, DvTopOK, OK, ChunkOK, InPayload;
    var h, h' := st.tags, Stored(st, w, v).tags;
    ChunkAt(h, q);
    NotATag(st, p, w, q);
    var n := q + h.ch[q];
    if n in h.ch {
      NotATag(st, p, w, n);
    } else {
      NotAnEnd(st, p, w, q);
    }
    NextPinned(st, q);
    KeepChunk(h, h', q);
  }

  /** A free chunk's foot is read through the next head, whose PINUSE bit is clear. */
  lemma NextPinned(st: State, q: Addr)
    requires q in st.tags.ch && Inv(st, {}, {})
    ensures var n := q + st.tags.ch[q];
            q !in st.tags.used && q != st.tags.top ==> n in st.tags.ch && !Pin(st.tags.HeadOf(n))
    ensures q == st.tags.top ==> q !in st.tags.used && q + st.tags.ch[q] !in st.tags.ch
  {
    hide LeastOK, FootprintOK, BinsMatch, UsedOK, SegsOK, MapsOK, Pin, DvTopOK, OK;
    ChunkFactsAt(st, {}, {}, q);
  }

  /** Neither is it in the words after the last chunk of a segment. */
  lemma NotAnEnd(st: State, p: Addr, w: Addr, q: Addr)
    requires p !in st.maps && InPayload(st, p, w) && q in st.tags.ch && q + st.tags.ch[q] !in st.tags.ch
    requires Inv(st, {}, {})
    ensures w != q + st.tags.ch[q] + 8 && w != q + st.tags.ch[q]
  {
    hide LeastOK, FootprintOK, BinsMatch, UsedOK, SegsOK, MapsOK, Pin, DvTopOK, ChunkOK, FenceOK;
    NextChunk(st, p, {}, {});
    ChunkFactsAt(st, {}, {}, q);
    var n := q + st.tags.ch[q];
    if q == st.tags.top {
      assert EndApart(st.tags, TopEnd(st.tags), p);
    } else {
      assert EndApart(st.tags, n, p);
    }
  }

  lemma StoreSegs(st: State, p: Addr, w: Addr, v: nat)
    requires p !in st.maps && InPayload(st, p, w) && Inv(st, {}, {})
    ensures SegsOK(Stored(st, w, v).tags, st.segs)
  {
    hide LeastOK, FootprintOK, BinsMatch, UsedOK, MapsOK, Pin, DvTopOK, OK, SegsApart, InPayload;
    var h, h' := st.tags, Stored(st, w, v).tags;
    forall k: nat | k < |st.segs| ensures SegOK(h', st.segs, k) {
      assert SegOK(h, st.segs, k);
      NotATag(st, p, w, st.segs[k].base);
    }
    forall q | q in h'.ch ensures InSomeSeg(h', st.segs, q) {
      assert InSomeSeg(h, st.segs, q);
      var k: nat :| ChunkInSeg(h, st.segs, k, q);
      assert ChunkInSeg(h', st.segs, k, q);
    }
    forall f | f in h'.fence ensures exists k: nat :: 0 < k < |st.segs| && f == SegEnd(h', st.segs, k) {
      var k := FenceSeg(h, st.segs, f);
      assert f == SegEnd(h', st.segs, k);
    }
    forall j: nat, k: nat | j < |st.segs| && k < |st.segs| && j != k ensures SegsApart(st.segs, j, k) {
      SegsApartAt(h, st.segs, j, k);
    }
  }

  // ----- Links and segment records -----

  /** `w` is one of the bytes of chunk `p` that its bin uses: fd and bk of a small chunk; children, parent and
      index of a large one, too. The chunks in `L` are about to be linked. */
  predicate LinkAt(st: State, L: set<Addr>, p: Addr, w: Addr)
  {
    || (p in st.small && p + 16 <= w < p + 32)
    || (p in st.tree && p + 16 <= w < p + 64)
    || (p in L && IsFree(st.tags, st.dv, p)
        && p + 16 <= w < p + if st.tags.ch[p] < TreeIndex.MIN_LARGE_SIZE then 32 else 64)
  }

  /** `w` is one of the bytes of the record of segment `k`. */
  predicate RecordAt(st: State, k: nat, w: Addr)
  {
    0 < k < |st.segs| && st.segs[k].rec + 16 <= w < st.segs[k].rec + SEGMENT_RECORD
  }

  /** What the allocator writes into chunks beside their tags */
  ghost predicate LinkWord(st: State, L: set<Addr>, w: Addr)
  {
    (exists p :: LinkAt(st, L, p, w)) || exists k: nat :: RecordAt(st, k, w)
  }

  /** No link and no segment record is in the memory of a client's block, mapped or not. */
  lemma LinksApart(st: State, L: set<Addr>, Y: set<Addr>, q: Addr, w: Addr)
    requires LinkWord(st, L, w) && Inv(st, L, Y)
    ensures !InPayload(st, q, w)
  {
    hide Inv, InPayload, LinkAt, RecordAt;
    if p :| LinkAt(st, L, p, w) {
      LinkInFree(st, L, Y, p, w);
      InnerApart(st, L, Y, p, q, w);
    } else {
      var k: nat :| RecordAt(st, k, w);
      RecordInside(st, L, Y, k, w);
      InnerApart(st, L, Y, st.segs[k].rec, q, w);
    }
  }

  lemma LinkInFree(st: State, L: set<Addr>, Y: set<Addr>, p: Addr, w: Addr)
    requires LinkAt(st, L, p, w) && Inv(st, L, Y)
    ensures p in st.tags.ch && p !in st.live && p + 16 <= w < p + st.tags.ch[p]
  {
    hide OK, MapsOK, FootprintOK, LeastOK, SegsOK, Records, DvTopOK;
    ChunkFactsAt(st, L, Y, p);
  }

  lemma RecordInside(st: State, L: set<Addr>, Y: set<Addr>, k: nat, w: Addr)
    requires RecordAt(st, k, w) && Inv(st, L, Y)
    ensures k < |st.segs|
    ensures var p := st.segs[k].rec; p in st.tags.ch && p !in st.live && p + 16 <= w < p + st.tags.ch[p]
  {
    hide OK, MapsOK, FootprintOK, LeastOK, SegsOK, DvTopOK, BinsMatch;
    assert st.segs[k].rec in Records(st.segs);
    SegAt(st.tags, st.segs, k);
  }

  /** Behind its first two words, a chunk that is no client's shares no byte with a client's memory. */
  lemma InnerApart(st: State, L: set<Addr>, Y: set<Addr>, p: Addr, q: Addr, w: Addr)
    requires p in st.tags.ch && p !in st.live && p + 16 <= w < p + st.tags.ch[p] && Inv(st, L, Y)
    ensures !InPayload(st, q, w)
  {
    hide OK, DvTopOK, BinsMatch, UsedOK, FootprintOK, LeastOK, MapsOK, SegsOK;
    if q in st.maps {
      var k := SegOf(st.tags, st.segs, p);
      MapSeg(st, q, k);
      MapWords(st, q);
    } else if q in st.live {
      NextChunk(st, q, L, Y);
      ChunksApart(st.tags, p, q);
    }
  }

  /** A client writes a word of its block. */
  method Store(m: MState, w: Addr, v: nat, ghost p: Addr)
    requires Good(m) && InPayload(m.S(), p, w)
    modifies m`mem
    ensures Good(m) && m.mem == old(m.mem)[w := v] && forall q | q != p :: BlockKept(old(m.S()), m.S(), q)
  {
    hide Inv, SB.BinsOK, TB.BinsOK, SB.SmallBins.Valid, TB.TreeBins.Valid, BlockKept, InPayload;
    ghost var st := m.S();
    StoreKeeps(st, p, w, v);
    m.mem := m.mem[w := v];
    assert m.S() == Stored(st, w, v);
  }
}
