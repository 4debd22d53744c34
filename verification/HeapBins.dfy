/** Moving free chunks into and out of the bins, and dv. */
module HeapBins {
  import opened Words
  import opened BoundaryTags
  import opened HeapState
  import opened HeapSteps
  import TreeIndex
  import SmallBins
  import TriePath

  function Unbinned(st: State, p: Addr): State
  {
    st.(small := st.small - {p}, tree := st.tree - {p})
  }

  function Binned(st: State, p: Addr, s: nat): State
  {
    if s < TreeIndex.MIN_LARGE_SIZE then st.(small := st.small[p := s]) else st.(tree := st.tree[p := s])
  }

  function WithDv(st: State, p: Addr, s: nat): State
  {
    st.(dv := p, dvsize := s)
  }

  predicate InBins(st: State, p: Addr)
  {
    p in st.small || p in st.tree
  }

  lemma Unbin(st: State, p: Addr, L: set<Addr>, Y: set<Addr>)
    requires InBins(st, p) && Inv(st, L, Y)
    ensures Inv(Unbinned(st, p), L + {p}, Y) && IsFree(st.tags, st.dv, p) && p !in L
  {
    hide OK, SegsOK, MapsOK, FootprintOK, UsedOK, LeastOK;
    assert BinsMatch(Unbinned(st, p), L + {p}) by {
      UnbinMatch(st, p, L);
    }
    hide BinsMatch;
    SameFields(st, Unbinned(st, p), Y);
  }

  lemma UnbinMatch(st: State, p: Addr, L: set<Addr>)
    requires BinsMatch(st, L) && InBins(st, p)
    ensures BinsMatch(Unbinned(st, p), L + {p}) && IsFree(st.tags, st.dv, p) && p !in L
  {
  }

  lemma SameFields(st: State, st': State, Y: set<Addr>)
    requires st' == st.(small := st'.small, tree := st'.tree, dv := st'.dv, dvsize := st'.dvsize)
    requires SegsOK(st.tags, st.segs) && UsedOK(st, Y) && MapsOK(st) && FootprintOK(st) && LeastOK(st)
    ensures SegsOK(st'.tags, st'.segs) && UsedOK(st', Y) && MapsOK(st') && FootprintOK(st') && LeastOK(st')
  {
    hide SegOK, SegsApart, InSomeSeg, MapOK, MapApart, SegSizes, MapSizes, Records;
    MapsSame(st, st');
  }

  lemma MapsSame(st: State, st': State)
    requires st'.tags == st.tags && st'.maps == st.maps && st'.segs == st.segs && MapsOK(st)
    ensures MapsOK(st')
  {
    hide MapOK, MapApart;
    forall p | p in st'.maps ensures MapOK(st'.tags, p, st'.maps[p]) {
      assert MapOK(st.tags, p, st.maps[p]);
    }
    forall p, q | p in st'.maps && q in st'.maps && p != q
      ensures MapApart(st'.maps[p], st'.maps[q].base, st'.maps[q].len) {
      assert MapApart(st.maps[p], st.maps[q].base, st.maps[q].len);
    }
    forall p, k: nat | p in st'.maps && k < |st'.segs|
      ensures MapApart(st'.maps[p], st'.segs[k].base, st'.segs[k].size) {
      assert MapApart(st.maps[p], st.segs[k].base, st.segs[k].size);
    }
  }

  lemma Bin(st: State, p: Addr, L: set<Addr>, Y: set<Addr>)
    requires p in L && IsFree(st.tags, st.dv, p) && Inv(st, L, Y)
    ensures Inv(Binned(st, p, st.tags.ch[p]), L - {p}, Y) && !InBins(st, p)
  {
    hide OK, SegsOK, MapsOK, FootprintOK, UsedOK, LeastOK;
    assert BinsMatch(Binned(st, p, st.tags.ch[p]), L - {p}) && !InBins(st, p) by {
      BinMatch(st, p, L);
    }
    hide BinsMatch;
    SameFields(st, Binned(st, p, st.tags.ch[p]), Y);
  }

  lemma BinMatch(st: State, p: Addr, L: set<Addr>)
    requires p in L && IsFree(st.tags, st.dv, p) && BinsMatch(st, L)
    ensures BinsMatch(Binned(st, p, st.tags.ch[p]), L - {p}) && !InBins(st, p)
  {
  }

  /** A free chunk taken from a bin, or the rest of one, becomes dv. */
  lemma MakeDv(st: State, p: Addr, L: set<Addr>, Y: set<Addr>)
    requires st.dv == 0 && p in L && IsFree(st.tags, st.dv, p) && Inv(st, L, Y)
    ensures Inv(WithDv(st, p, st.tags.ch[p]), L - {p}, Y)
  {
    hide SegsOK, MapsOK, FootprintOK, UsedOK, LeastOK;
    ChunkFacts(st.tags, p);
    NoNullChunk(st.tags);
    DvMatch(st, WithDv(st, p, st.tags.ch[p]), L, L - {p});
    hide BinsMatch, OK;
    SameFields(st, WithDv(st, p, st.tags.ch[p]), Y);
  }

  /** dv becomes a loose chunk. */
  lemma DropDv(st: State, L: set<Addr>, Y: set<Addr>)
    requires st.dv != 0 && Inv(st, L, Y)
    ensures Inv(WithDv(st, 0, 0), L + {st.dv}, Y) && IsFree(st.tags, 0, st.dv) && st.tags.ch[st.dv] == st.dvsize
    ensures !InBins(st, st.dv)
  {
    hide SegsOK, MapsOK, FootprintOK, UsedOK, LeastOK;
    NoNullChunk(st.tags);
    DvMatch(st, WithDv(st, 0, 0), L, L + {st.dv});
    hide BinsMatch, OK;
    SameFields(st, WithDv(st, 0, 0), Y);
  }

  lemma DvMatch(st: State, st': State, L: set<Addr>, L': set<Addr>)
    requires st' == WithDv(st, st'.dv, st'.dvsize) && BinsMatch(st, L) && 0 !in st.tags.ch
    requires (st.dv == 0 && st'.dv in L && L' == L - {st'.dv})
             || (st'.dv == 0 && L' == L + {st.dv} && IsFree(st.tags, 0, st.dv))
    ensures BinsMatch(st', L')
  {
    forall p | IsFree(st'.tags, st'.dv, p) ensures p in L' || p in st'.small || p in st'.tree {
      assert IsFree(st.tags, st.dv, p) || p == st.dv;
    }
    forall p | p in st'.small || p in st'.tree ensures IsFree(st'.tags, st'.dv, p) && p !in L' {
      assert IsFree(st.tags, st.dv, p);
    }
  }

  /** Nothing that a client sees depends on bins or dv. */
  lemma BinsUnseen(st: State, st': State)
    requires st'.tags == st.tags && st'.live == st.live && st'.maps == st.maps
    ensures forall p :: BlockKept(st, st', p)
  {
  }

  // ----- What the bins need to know about their chunks -----

  lemma {:induction false} SegSizesBound(segs: seq<Segment>, k: nat)
    requires k < |segs|
    ensures segs[k].size <= SegSizes(segs)
  {
    if k > 0 {
      SegSizesBound(segs[1..], k - 1);
    }
  }

  /** No chunk is as large as the footprint's limit, so tree indices of chunks are exact. */
  lemma ChunkBelowLimit(st: State, L: set<Addr>, Y: set<Addr>, p: Addr)
    requires p in st.tags.ch && Inv(st, L, Y)
    ensures st.tags.ch[p] < TreeIndex.INDEX_LIMIT
  {
    hide OK, BinsMatch, DvTopOK, UsedOK, MapsOK, LeastOK, Pin;
    assert InSomeSeg(st.tags, st.segs, p);
    var k: nat :| ChunkInSeg(st.tags, st.segs, k, p);
    InSegWords(st.tags, st.segs, k, p, p + st.tags.ch[p]);
    SegSizesBound(st.segs, k);
  }

  /** Sizes that fit in the two kinds of bins. */
  lemma BinSizes(st: State, L: set<Addr>, Y: set<Addr>, p: Addr)
    requires p in st.tags.ch && p != st.tags.top && Inv(st, L, Y)
    ensures p != 0 && st.least <= p
    ensures st.tags.ch[p] < TreeIndex.MIN_LARGE_SIZE ==> SmallBins.Small(st.tags.ch[p])
    ensures st.tags.ch[p] >= TreeIndex.MIN_LARGE_SIZE ==> TriePath.Large(st.tags.ch[p])
  {
    hide BinsMatch, DvTopOK, UsedOK, MapsOK, SegsOK, FootprintOK;
    ChunkBelowLimit(st, L, Y, p);
    ChunkFacts(st.tags, p);
  }

  lemma BinsAboveLeast(st: State, L: set<Addr>, Y: set<Addr>)
    requires Inv(st, L, Y)
    ensures forall p | p in st.small || p in st.tree :: st.least <= p && p in st.tags.ch
  {
    hide OK, DvTopOK, UsedOK, MapsOK, SegsOK, FootprintOK;
  }
}
