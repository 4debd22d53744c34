/** Allocating from the tree bins. */
module TreeMalloc {
  import opened Words
  import opened BoundaryTags
  import opened HeapState
  import opened HeapSteps
  import opened HeapBins
  import opened MallocState
  import opened HandOut
  import TreeIndex
  import TB = TreeBins
  import TreeSearch

  /** `p` is a least chunk of the tree bins that holds `nb` bytes, and dv is no better. */
  ghost predicate TightestInTree(st: State, p: Addr, nb: nat)
  {
    && p in st.tree && st.tree[p] >= nb && (st.dvsize < nb || st.tree[p] < st.dvsize)
    && forall q | q in st.tree && st.tree[q] >= nb :: st.tree[p] <= st.tree[q]
  }

  /** No chunk of the tree bins holds `nb` bytes, but for those that dv fits at least as tightly. */
  ghost predicate NoneTighter(st: State, nb: nat)
  {
    forall q | q in st.tree && st.tree[q] >= nb :: nb <= st.dvsize <= st.tree[q]
  }

  /** `tmalloc_large`: the chunk handed out, or 0 */
  method TmallocLarge(m: MState, nb: nat) returns (ok: bool, p: Addr)
    requires Good(m) && TreeIndex.MIN_LARGE_SIZE <= nb < TreeIndex.SIZE_MODULUS && nb % 16 == 0
    modifies m`mem, m`layout, m.small, m.trees
    ensures ok && Good(m)
    ensures p == 0 ==> m.S() == old(m.S()) && NoneTighter(m.S(), nb)
    ensures p != 0 ==> TightestInTree(old(m.S()), p, nb) && HandedOut(old(m.S()), m.S(), p, nb)
  {
    hide Inv, TB.BinsOK, OthersKept, BlockKept, HandedOut, ClientsKept, IsFree;
    ok := true;
    ghost var st := m.S();
    SizesBelowLimit(st);
    var v, rsize := TreeSearch.FindLeast(m.trees.node, m.trees.bins, m.trees.treemap, nb, m.trees.depth, m.trees.rank);
    p := 0;
    if v != 0 && rsize < TreeSearch.Rem(m.dvsize, nb) {
      TreeChunk(st, v);
      assert TightestInTree(st, v, nb);
      if m.leastAddr <= v {
        var r := v + nb;
        if v < r {
          ok := CarveLarge(m, v, nb, rsize);
          p := v;
          return;
        }
      }
      ok := false;
    }
  }

  /** Sizes that the bins hold, and dv's, are far from wrapping around. */
  lemma SizesBelowLimit(st: State)
    requires Inv(st, {}, {})
    ensures st.dvsize < TreeIndex.INDEX_LIMIT
    ensures forall q | q in st.tree :: st.tree[q] < TreeIndex.INDEX_LIMIT
  {
    hide OK, SegsOK, UsedOK, MapsOK, FootprintOK, LeastOK;
    DvWord(st, {}, {});
    if st.dv != 0 {
      ChunkBelowLimit(st, {}, {}, st.dv);
    }
    forall q | q in st.tree ensures st.tree[q] < TreeIndex.INDEX_LIMIT {
      ChunkBelowLimit(st, {}, {}, q);
    }
  }

  lemma TreeChunk(st: State, v: Addr)
    requires v in st.tree && Inv(st, {}, {})
    ensures IsFree(st.tags, st.dv, v) && st.tags.ch[v] == st.tree[v] && st.least <= v
    ensures v > 0 && st.tree[v] % 16 == 0 && st.tree[v] >= TreeIndex.MIN_LARGE_SIZE
  {
    hide SegsOK, UsedOK, MapsOK, FootprintOK, HeadOK, NextOK, PrevOK;
    ChunkFacts(st.tags, v);
  }

  /** The chosen chunk leaves its bin, and its rest, if worth it, goes into the bin for its size. */
  method CarveLarge(m: MState, v: Addr, nb: nat, rsize: nat) returns (ok: bool)
    requires Good(m) && v in m.S().tree && m.S().tree[v] == nb + rsize && nb % 16 == 0 && nb >= MIN_CHUNK_SIZE
    modifies m`mem, m`layout, m.small, m.trees
    ensures ok && Good(m) && HandedOut(old(m.S()), m.S(), v, nb)
  {
    hide Inv, TB.BinsOK, OthersKept, BlockKept, HandedOut, ClientsKept;
    ghost var st := m.S();
    TreeChunk(st, v);
    ok := UnlinkChunk(m, v, nb + rsize, {}, {});
    ghost var st1 := m.S();
    ClientsUnaware(st, st1);
    assert {} + {v} == {v};
    if rsize < MIN_CHUNK_SIZE {
      TakeWhole(m, v, nb + rsize, nb, st);
    } else {
      var r := TakeFront(m, v, nb + rsize, nb, st);
      ghost var st2 := m.S();
      ok := InsertChunk(m, r, rsize, {r}, {});
      assert {r} - {r} == {};
      StillHanded(st, st2, m.S(), v, nb);
    }
  }

  /** What happens to bins and dv afterwards is not seen by the client. */
  lemma StillHanded(st0: State, st1: State, st2: State, p: Addr, nb: nat)
    requires HandedOut(st0, st1, p, nb) && st2.tags == st1.tags && st2.live == st1.live && st2.maps == st1.maps
    ensures HandedOut(st0, st2, p, nb)
  {
    hide OthersKept;
    ClientsUnaware(st1, st2);
    KeptThrough(st0, st1, st2, {p}, {});
    assert {p} + {} == {p};
  }

  /** `tmalloc_small` */
  method TmallocSmall(m: MState, nb: nat) returns (ok: bool, p: Addr)
    requires Good(m) && m.trees.treemap != 0 && MIN_CHUNK_SIZE <= nb < TreeIndex.MIN_LARGE_SIZE && nb % 16 == 0
    requires m.dvsize < nb
    modifies m`mem, m`layout, m`dv, m`dvsize, m.small, m.trees
    ensures ok && Good(m)
    ensures p in old(m.S()).tree && forall q | q in old(m.S()).tree :: old(m.S()).tree[p] <= old(m.S()).tree[q]
    ensures p != 0 && HandedOut(old(m.S()), m.S(), p, nb)
  {
    hide Inv, TB.BinsOK, OthersKept, BlockKept, HandedOut, ClientsKept, IsFree;
    ghost var st := m.S();
    var v, rsize := TreeSearch.FindSmallest(m.trees.node, m.trees.bins, m.trees.treemap, nb, m.trees.depth,
      m.trees.rank);
    assert v in st.tree && st.tree[v] == nb + rsize && forall q | q in st.tree :: st.tree[v] <= st.tree[q];
    TreeChunk(st, v);
    ok, p := false, 0;
    if m.leastAddr <= v {
      var r := v + nb;
      if v < r {
        ok := CarveSmall(m, v, nb, rsize);
        p := v;
      }
    }
  }

  /** The chosen chunk leaves its bin, and its rest, if worth it, becomes dv. */
  method CarveSmall(m: MState, v: Addr, nb: nat, rsize: nat) returns (ok: bool)
    requires Good(m) && v in m.S().tree && m.S().tree[v] == nb + rsize && nb % 16 == 0 && nb >= MIN_CHUNK_SIZE
    requires m.dvsize < TreeIndex.MIN_LARGE_SIZE
    modifies m`mem, m`layout, m`dv, m`dvsize, m.small, m.trees
    ensures ok && Good(m) && HandedOut(old(m.S()), m.S(), v, nb)
  {
    hide Inv, TB.BinsOK, OthersKept, BlockKept, HandedOut, ClientsKept;
    ghost var st := m.S();
    TreeChunk(st, v);
    ok := UnlinkChunk(m, v, nb + rsize, {}, {});
    ghost var st1 := m.S();
    ClientsUnaware(st, st1);
    assert {} + {v} == {v};
    if rsize < MIN_CHUNK_SIZE {
      TakeWhole(m, v, nb + rsize, nb, st);
    } else {
      var r := TakeFront(m, v, nb + rsize, nb, st);
      ghost var st2 := m.S();
      ok := ReplaceDv(m, r, rsize, {r}, {});
      assert {r} - {r} == {};
      StillHanded(st, st2, m.S(), v, nb);
    }
  }
}
