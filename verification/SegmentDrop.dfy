/** Giving back a segment whose only chunk in use is its own record. */
module SegmentDrop {
  import opened Words
  import opened BoundaryTags
  import opened HeapState
  import opened HeapSteps
  import opened HeapOps
  import opened HeapOps2
  import opened HeapBins
  import opened SegmentOps
  import opened SegmentGrow

  function Dropped(st: State, k: nat): State
    requires 0 < k < |st.segs| && st.segs[k].size <= st.footprint
  {
    var h, s := st.tags, st.segs[k];
    st.(tags := h.(ch := h.ch - {s.base, s.rec}, used := h.used - {s.rec}, fence := h.fence - {s.rec + SEGMENT_RECORD}),
        segs := st.segs[..k] + st.segs[k + 1..], footprint := st.footprint - s.size)
  }

  /** The test that `release_unused_segments` makes on a segment other than the one with top; its first chunk
      is out of the bins. */
  ghost predicate Unused(st: State, k: nat, L: set<Addr>, Y: set<Addr>)
  {
    && 0 < k < |st.segs| && st.segs[k].base in st.tags.ch && st.segs[k].base in L
       && IsFree(st.tags, st.dv, st.segs[k].base)
    && st.segs[k].base + st.tags.ch[st.segs[k].base] + TOP_FOOT_SIZE >= st.segs[k].base + st.segs[k].size
    && Inv(st, L, Y)
  }

  lemma DropSegment(st: State, k: nat, L: set<Addr>, Y: set<Addr>)
    requires Unused(st, k, L, Y)
    ensures st.segs[k].size <= st.footprint
    ensures Inv(Dropped(st, k), L - {st.segs[k].base}, Y)
    ensures forall p :: BlockKept(st, Dropped(st, k), p)
  {
    hide MapsOK, LeastOK, FootprintOK, BinsMatch, UsedOK, SegsOK, DvTopOK, BlockKept, OK, Unused;
    DropFits(st, k, L, Y);
    DropTags(st, k, L, Y);
    DropSegs(st, k, L, Y);
    DropRest(st, k, L, Y);
    DropMaps(st, k, L, Y);
    forall p ensures BlockKept(st, Dropped(st, k), p) {
      DropKept(st, k, L, Y, p);
    }
  }

  lemma DropFits(st: State, k: nat, L: set<Addr>, Y: set<Addr>)
    requires Unused(st, k, L, Y)
    ensures 0 < k < |st.segs| && st.segs[k].size <= st.footprint
  {
    hide MapsOK, LeastOK, BinsMatch, UsedOK, SegsOK, DvTopOK, OK;
    SegSizesBound(st.segs, k);
  }

  /** Such a segment holds its first chunk, its record right behind, and nothing else. */
  lemma TwoChunksOnly(st: State, k: nat, L: set<Addr>, Y: set<Addr>)
    requires Unused(st, k, L, Y)
    ensures 0 < k < |st.segs| && st.segs[k].size > 0
    ensures var s, h := st.segs[k], st.tags;
            && s.base in h.ch && s.rec in h.ch && s.base + h.ch[s.base] == s.rec && h.ch[s.rec] == SEGMENT_RECORD
               && s.base < s.rec
            && s.rec + TOP_FOOT_SIZE == s.base + s.size && s.rec in h.used && s.base !in h.used && s.base != h.top
               && s.rec != h.top
            && s.base != st.dv && s.rec in Records(st.segs) && s.base in L && s.rec + SEGMENT_RECORD in h.fence
  {
    hide MapsOK, LeastOK, FootprintOK, BinsMatch, DvTopOK, OK, SegsOK, UsedOK;
    SegAtK(st.tags, st.segs, k);
    ChunksApart(st.tags, st.segs[k].base, st.segs[k].rec);
    BaseNotTop(st, L, Y, k);
    ChunkFactsAt(st, L, Y, st.segs[k].base);
  }

  lemma SegAtK(h: Tags, segs: seq<Segment>, k: nat)
    requires SegsOK(h, segs) && k < |segs|
    ensures SegOK(h, segs, k)
  {
    hide SegOK;
  }

  /** Any other chunk is in another segment. */
  lemma Elsewhere(st: State, k: nat, L: set<Addr>, Y: set<Addr>, p: Addr) returns (j: nat)
    requires Unused(st, k, L, Y) && p in st.tags.ch && p != st.segs[k].base && p != st.segs[k].rec
    ensures j != k && ChunkInSeg(st.tags, st.segs, j, p)
    ensures p + st.tags.ch[p] + 32 <= st.segs[k].base || st.segs[k].base + st.segs[k].size <= p
  {
    hide MapsOK, LeastOK, FootprintOK, BinsMatch, UsedOK, DvTopOK, SegsOK, OK, Unused;
    TwoChunksOnly(st, k, L, Y);
    assert Inv(st, L, Y) by {
      UnusedInv(st, k, L, Y);
    }
    j := SegOf(st.tags, st.segs, p);
    ChunksApart(st.tags, p, st.segs[k].base);
    ChunksApart(st.tags, p, st.segs[k].rec);
    ChunkFactsAt(st, L, Y, p);
    if j != k {
      SegsApartAt(st.tags, st.segs, j, k);
    }
  }

  lemma UnusedInv(st: State, k: nat, L: set<Addr>, Y: set<Addr>)
    requires Unused(st, k, L, Y)
    ensures Inv(st, L, Y) && k < |st.segs|
  {
    hide Inv;
  }

  lemma DropTags(st: State, k: nat, L: set<Addr>, Y: set<Addr>)
    requires Unused(st, k, L, Y) && 0 < k < |st.segs| && st.segs[k].size <= st.footprint
    ensures OK(Dropped(st, k).tags)
  {
    hide Unused, ChunkOK, FenceOK;
    var h, h' := st.tags, Dropped(st, k).tags;
    TwoChunksOnly(st, k, L, Y);
    UnusedOK(st, k, L, Y);
    forall p | p in h'.ch ensures ChunkOK(h', p) {
      DropChunk(st, k, L, Y, p);
    }
    forall p, q | p in h'.ch && q in h'.ch && p != q ensures Apart(h', p, q) {
      assert Apart(h, p, q);
    }
    forall f | f in h'.fence ensures FenceOK(h', f) {
      assert FenceOK(h, f);
      DropFence(h, h', f);
    }
    forall f, p | f in h'.fence && p in h'.ch ensures EndApart(h', f, p) {
      assert EndApart(h, f, p);
    }
    forall p | p in h'.ch && h'.top in h'.ch ensures EndApart(h', TopEnd(h'), p) {
      assert EndApart(h, TopEnd(h), p);
    }
  }

  lemma DropFence(h: Tags, h': Tags, f: Addr)
    requires FenceOK(h, f) && h'.mem == h.mem && h'.ch.Keys <= h.ch.Keys
    ensures FenceOK(h', f)
  {
  }

  lemma UnusedOK(st: State, k: nat, L: set<Addr>, Y: set<Addr>)
    requires Unused(st, k, L, Y)
    ensures OK(st.tags) && SegsOK(st.tags, st.segs) && st.tags.used <= st.tags.ch.Keys
    ensures (st.tags.top in st.tags.ch || st.tags.top == 0)
  {
    hide ChunkOK, FenceOK, Apart, EndApart, SegsOK;
  }

  lemma DropChunk(st: State, k: nat, L: set<Addr>, Y: set<Addr>, p: Addr)
    requires Unused(st, k, L, Y) && 0 < k < |st.segs| && st.segs[k].size <= st.footprint && p in Dropped(st, k).tags.ch
    ensures ChunkOK(Dropped(st, k).tags, p)
  {
    hide Unused, ChunkOK, OK, SegsOK, Pin;
    var h, h' := st.tags, Dropped(st, k).tags;
    TwoChunksOnly(st, k, L, Y);
    UnusedOK(st, k, L, Y);
    ChunkAt(h, p);
    var j := Elsewhere(st, k, L, Y, p);
    KeepChunk(h, h', p);
  }

  // ----- Segments -----

  /** Where a segment of the shorter list was. */
  function Was(k: nat, j: nat): nat
  {
    if j < k then j else j + 1
  }

  lemma DropSegs(st: State, k: nat, L: set<Addr>, Y: set<Addr>)
    requires Unused(st, k, L, Y) && 0 < k < |st.segs| && st.segs[k].size <= st.footprint
    ensures SegsOK(Dropped(st, k).tags, Dropped(st, k).segs)
  {
    hide Unused, OK, SegsOK, SegOK, SegsApart, InSomeSeg;
    var st' := Dropped(st, k);
    TwoChunksOnly(st, k, L, Y);
    UnusedOK(st, k, L, Y);
    forall j: nat | j < |st'.segs|
      ensures SegOK(st'.tags, st'.segs, j) && SegEnd(st'.tags, st'.segs, j) == SegEnd(st.tags, st.segs, Was(k, j)) {
      DropSeg(st, k, L, Y, j);
    }
    forall i: nat, j: nat | i < |st'.segs| && j < |st'.segs| && i != j ensures SegsApart(st'.segs, i, j) {
      SegsApartAt(st.tags, st.segs, Was(k, i), Was(k, j));
      ApartSame(st.segs, st'.segs, Was(k, i), Was(k, j), i, j);
    }
    forall p | p in st'.tags.ch ensures InSomeSeg(st'.tags, st'.segs, p) {
      DropIn(st, k, L, Y, p);
    }
    forall f | f in st'.tags.fence ensures exists j: nat :: 0 < j < |st'.segs| && f == SegEnd(st'.tags, st'.segs, j) {
      var i := FenceSeg(st.tags, st.segs, f);
      var j := if i < k then i else i - 1;
      assert Was(k, j) == i;
    }
    DropTop(st, k, L, Y);
    AssembleSegs(st'.tags, st'.segs);
  }

  lemma AssembleSegs(h: Tags, segs: seq<Segment>)
    requires segs == [] <==> h.top == 0
    requires forall k: nat | k < |segs| :: SegOK(h, segs, k)
    requires forall j: nat, k: nat | j < |segs| && k < |segs| && j != k :: SegsApart(segs, j, k)
    requires forall p | p in h.ch :: InSomeSeg(h, segs, p)
    requires forall f | f in h.fence :: exists k: nat :: 0 < k < |segs| && f == SegEnd(h, segs, k)
    ensures SegsOK(h, segs)
  {
    hide SegOK, SegsApart, InSomeSeg;
  }

  lemma DropTop(st: State, k: nat, L: set<Addr>, Y: set<Addr>)
    requires Unused(st, k, L, Y) && 0 < k < |st.segs| && st.segs[k].size <= st.footprint
    ensures st.tags.top != 0 && Dropped(st, k).segs != []
  {
    hide OK, SegOK, SegsApart, InSomeSeg;
  }

  lemma ApartSame(segs: seq<Segment>, segs': seq<Segment>, i: nat, j: nat, i': nat, j': nat)
    requires i < |segs| && j < |segs| && i' < |segs'| && j' < |segs'| && segs[i] == segs'[i'] && segs[j] == segs'[j']
    requires SegsApart(segs, i, j)
    ensures SegsApart(segs', i', j')
  {
  }

  lemma DropSeg(st: State, k: nat, L: set<Addr>, Y: set<Addr>, j: nat)
    requires Unused(st, k, L, Y) && 0 < k < |st.segs| && st.segs[k].size <= st.footprint && j < |Dropped(st, k).segs|
    ensures SegOK(Dropped(st, k).tags, Dropped(st, k).segs, j)
    ensures SegEnd(Dropped(st, k).tags, Dropped(st, k).segs, j) == SegEnd(st.tags, st.segs, Was(k, j))
  {
    hide Unused, OK, SegsOK, Pin, SegsApart;
    var st', i := Dropped(st, k), Was(k, j);
    TwoChunksOnly(st, k, L, Y);
    UnusedOK(st, k, L, Y);
    SegAtK(st.tags, st.segs, i);
    assert st'.segs[j] == st.segs[i];
    SegsFar(st, i, k);
  }

  lemma SegsFar(st: State, i: nat, k: nat)
    requires SegsOK(st.tags, st.segs) && i < |st.segs| && k < |st.segs| && i != k
    ensures st.segs[i].base + st.segs[i].size <= st.segs[k].base || st.segs[k].base + st.segs[k].size <= st.segs[i].base
  {
    hide SegsOK;
    SegsApartAt(st.tags, st.segs, i, k);
  }

  lemma DropIn(st: State, k: nat, L: set<Addr>, Y: set<Addr>, p: Addr)
    requires Unused(st, k, L, Y) && 0 < k < |st.segs| && st.segs[k].size <= st.footprint && p in Dropped(st, k).tags.ch
    ensures InSomeSeg(Dropped(st, k).tags, Dropped(st, k).segs, p)
  {
    hide Unused, OK, SegsOK, Pin, SegsApart;
    var st' := Dropped(st, k);
    TwoChunksOnly(st, k, L, Y);
    UnusedOK(st, k, L, Y);
    var i := Elsewhere(st, k, L, Y, p);
    var j := if i < k then i else i - 1;
    assert st'.segs[j] == st.segs[i];
    assert ChunkInSeg(st'.tags, st'.segs, j, p);
  }

  // ----- The rest -----

  lemma DropRest(st: State, k: nat, L: set<Addr>, Y: set<Addr>)
    requires Unused(st, k, L, Y) && 0 < k < |st.segs| && st.segs[k].size <= st.footprint
    ensures var st' := Dropped(st, k);
            DvTopOK(st') && BinsMatch(st', L - {st.segs[k].base}) && UsedOK(st', Y) && FootprintOK(st') && LeastOK(st')
  {
    hide OK, SegsOK, MapsOK, BinsMatch, UsedOK;
    TwoChunksOnly(st, k, L, Y);
    DropBins(st, k, L, Y);
    DropUsed(st, k, L, Y);
    SegSizesDrop(st.segs, k);
    RecNotDv(st, k, L, Y);
  }

  lemma RecNotDv(st: State, k: nat, L: set<Addr>, Y: set<Addr>)
    requires Unused(st, k, L, Y)
    ensures st.segs[k].rec != st.dv && st.segs[k].rec != 0 && st.segs[k].base != 0
  {
    hide SegsOK, MapsOK, BinsMatch, UsedOK, FootprintOK, LeastOK;
    TwoChunksOnly(st, k, L, Y);
    ChunkFactsAt(st, L, Y, st.segs[k].rec);
    ChunkFactsAt(st, L, Y, st.segs[k].base);
  }

  lemma {:induction false} SegSizesDrop(segs: seq<Segment>, k: nat)
    requires k < |segs|
    ensures SegSizes(segs[..k] + segs[k + 1..]) == SegSizes(segs) - segs[k].size
  {
    if k == 0 {
      assert segs[..0] + segs[1..] == segs[1..];
    } else {
      SegSizesDrop(segs[1..], k - 1);
      assert (segs[..k] + segs[k + 1..])[1..] == segs[1..][..k - 1] + segs[1..][k..];
    }
  }

  lemma DropBins(st: State, k: nat, L: set<Addr>, Y: set<Addr>)
    requires Unused(st, k, L, Y) && 0 < k < |st.segs| && st.segs[k].size <= st.footprint
    ensures BinsMatch(Dropped(st, k), L - {st.segs[k].base})
  {
    hide OK, SegsOK, MapsOK, UsedOK, FootprintOK, LeastOK, DvTopOK;
    TwoChunksOnly(st, k, L, Y);
    var st' := Dropped(st, k);
    forall p | IsFree(st'.tags, st'.dv, p) ensures p in L - {st.segs[k].base} || p in st'.small || p in st'.tree {
      assert IsFree(st.tags, st.dv, p);
    }
    forall p | p in st'.small || p in st'.tree
      ensures IsFree(st'.tags, st'.dv, p) && p in st.tags.ch && st'.tags.ch[p] == st.tags.ch[p] && p !in L {
      assert IsFree(st.tags, st.dv, p);
    }
  }

  lemma DropUsed(st: State, k: nat, L: set<Addr>, Y: set<Addr>)
    requires Unused(st, k, L, Y) && 0 < k < |st.segs| && st.segs[k].size <= st.footprint
    ensures UsedOK(Dropped(st, k), Y)
  {
    hide OK, MapsOK, BinsMatch, FootprintOK, LeastOK, DvTopOK, SegsOK;
    TwoChunksOnly(st, k, L, Y);
    DropRecords(st, k, L, Y);
    hide Records;
  }

  lemma DropRecords(st: State, k: nat, L: set<Addr>, Y: set<Addr>)
    requires Unused(st, k, L, Y) && 0 < k < |st.segs| && st.segs[k].size <= st.footprint
    ensures Records(Dropped(st, k).segs) == Records(st.segs) - {st.segs[k].rec}
  {
    hide OK, MapsOK, BinsMatch, FootprintOK, LeastOK, DvTopOK, SegsOK, Unused;
    var segs' := Dropped(st, k).segs;
    TwoChunksOnly(st, k, L, Y);
    UnusedOK(st, k, L, Y);
    forall r | r in Records(st.segs) && r != st.segs[k].rec ensures r in Records(segs') {
      var i: nat :| 0 < i < |st.segs| && r == st.segs[i].rec;
      var j: nat := if i < k then i else i - 1;
      assert segs'[j] == st.segs[i];
    }
    forall r | r in Records(segs') ensures r in Records(st.segs) && r != st.segs[k].rec {
      var j: nat :| 0 < j < |segs'| && r == segs'[j].rec;
      assert segs'[j] == st.segs[Was(k, j)];
      SegsFar(st, Was(k, j), k);
      SegAtK(st.tags, st.segs, Was(k, j));
    }
  }

  lemma DropMaps(st: State, k: nat, L: set<Addr>, Y: set<Addr>)
    requires Unused(st, k, L, Y) && 0 < k < |st.segs| && st.segs[k].size <= st.footprint
    ensures MapsOK(Dropped(st, k))
  {
    hide Unused, MapsOK, MapOK, MapApart;
    var st' := Dropped(st, k);
    UnusedMaps(st, k, L, Y);
    forall p | p in st'.maps ensures MapOK(st'.tags, p, st'.maps[p]) {
      MapWords(st, p);
      SameMemMap(st.tags, st'.tags, p, st.maps[p]);
    }
    forall p, q | p in st'.maps && q in st'.maps && p != q
      ensures MapApart(st'.maps[p], st'.maps[q].base, st'.maps[q].len) {
      MapPair(st, p, q);
    }
    forall p, j: nat | p in st'.maps && j < |st'.segs|
      ensures MapApart(st'.maps[p], st'.segs[j].base, st'.segs[j].size) {
      MapSeg(st, p, Was(k, j));
      assert st'.segs[j] == st.segs[Was(k, j)];
    }
    AssembleMaps(st');
  }

  lemma SameMemMap(h: Tags, h': Tags, p: Addr, m: Mapping)
    requires MapOK(h, p, m) && h'.mem == h.mem
    ensures MapOK(h', p, m)
  {
  }

  lemma UnusedMaps(st: State, k: nat, L: set<Addr>, Y: set<Addr>)
    requires Unused(st, k, L, Y)
    ensures MapsOK(st)
  {
    hide OK, MapsOK, BinsMatch, FootprintOK, LeastOK, DvTopOK, SegsOK, UsedOK;
  }

  lemma DropKept(st: State, k: nat, L: set<Addr>, Y: set<Addr>, p: Addr)
    requires Unused(st, k, L, Y) && 0 < k < |st.segs| && st.segs[k].size <= st.footprint
    ensures BlockKept(st, Dropped(st, k), p)
  {
    hide OK, MapsOK, BinsMatch, FootprintOK, LeastOK, DvTopOK, SegsOK;
    TwoChunksOnly(st, k, L, Y);
  }
}
