/** When the heap has no room for a request. */
module Exhaustion {
  import opened BoundaryTags
  import opened HeapState
  import opened HeapSteps
  import opened HeapBins
  import opened MallocState
  import opened Requests
  import BinMap
  import TreeIndex
  import TreeSearch
  import TriePath
  import Trie
  import Rings
  import SB = SmallBins
  import TB = TreeBins

  /** No free chunk holds `nb` bytes, and top, which has to keep some, none more than `nb`. */
  ghost predicate NothingFits(st: State, nb: nat)
  {
    (forall p {:trigger p in st.tags.ch} | p in st.tags.ch && p !in st.tags.used && p != st.tags.top ::
      st.tags.ch[p] < nb) && st.topsize <= nb
  }

  /** What is left when no bin and neither dv nor top has room. */
  lemma NothingLeft(st: State, nb: nat)
    requires Inv(st, {}, {}) && st.dvsize < nb && st.topsize <= nb
    requires (forall p | p in st.small :: st.small[p] < nb) && (forall p | p in st.tree :: st.tree[p] < nb)
    ensures NothingFits(st, nb)
  {
    hide OK, SegsOK, UsedOK, MapsOK, FootprintOK, LeastOK;
    NoNullChunk(st.tags);
    forall p | p in st.tags.ch && p !in st.tags.used && p != st.tags.top ensures st.tags.ch[p] < nb {
      if p != st.dv {
        assert IsFree(st.tags, st.dv, p);
        assert p in st.small || p in st.tree;
      } else {
        assert st.tags.ch[st.dv] == st.dvsize;
      }
    }
  }

  /** Sizes in small bins are small. */
  lemma SmallSizes(st: State)
    requires Inv(st, {}, {})
    ensures forall p | p in st.small :: st.small[p] < TreeIndex.MIN_LARGE_SIZE
  {
    hide OK, SegsOK, UsedOK, MapsOK, FootprintOK, LeastOK, DvTopOK, IsFree;
  }

  /** No small bin from the request's to the one before `i` is marked: no small chunk is of a size in between. */
  lemma SmallerBins(m: MState, nb: nat, i: nat)
    requires Good(m) && nb % 16 == 0 && nb / 8 <= i <= 32
    requires forall j: nat | nb / 8 <= j < i :: !BinMap.Marked(m.small.smallmap, j)
    ensures forall p | p in m.S().small :: m.S().small[p] < nb || 8 * i <= m.S().small[p]
    ensures i == 32 ==> forall p | p in m.S().small :: m.S().small[p] < nb
  {
    hide Inv, SB.FdOK, SB.BkOK, SB.BinOK, BinMap.Marked;
    forall p | p in m.S().small
      ensures (m.S().small[p] < nb || 8 * i <= m.S().small[p]) && (i == 32 ==> m.S().small[p] < nb) {
      assert SB.NodeOK(m.small.node, m.small.hdr, m.small.smallmap, m.small.rank, p);
    }
  }

  /** No tree bin is marked: there is no tree chunk. */
  lemma NoTreeChunk(m: MState)
    requires Good(m) && m.trees.treemap == 0
    ensures m.S().tree == map[]
  {
    hide Inv;
    EmptyTrees(m.trees.node, m.trees.bins, m.trees.treemap, m.trees.depth, m.trees.rank);
  }

  lemma EmptyTrees(node: Trie.Nodes, bins: seq<Trie.Addr>, treemap: BinMap.Bits, depth: map<Trie.Addr, nat>,
      rank: Rings.Ranks)
    requires TB.BinsOK(node, bins, treemap, depth, rank) && treemap == 0
    ensures node == map[]
  {
    hide BinMap.Marked, TriePath.Large;
    BinMap.ZeroUnmarked(treemap);
    if exists p :: p in node {
      var p :| p in node;
      NoChunkIn(node, bins, treemap, depth, rank, p);
    }
  }

  lemma NoChunkIn(node: Trie.Nodes, bins: seq<Trie.Addr>, treemap: BinMap.Bits, depth: map<Trie.Addr, nat>,
      rank: Rings.Ranks, p: Trie.Addr)
    requires TB.BinsOK(node, bins, treemap, depth, rank) && BinMap.NoneBelow(treemap, 32)
    ensures p !in node
  {
    hide BinMap.Marked, Trie.Unique, Trie.ParentOK, Trie.ChildOK;
    if p in node {
      TreeSearch.AllLarge(node, bins, depth);
      var i := TreeIndex.ComputeTreeIndex(node[p].size);
      assert !BinMap.Marked(treemap, i);
      TB.EmptyBinNoSize(node, bins, depth, rank, node[p].size);
    }
  }

  /** A request that is too large does not fit. */
  lemma TooLarge(st: State)
    requires Inv(st, {}, {})
    ensures NothingFits(st, MAX_SIZE_T) && st.dvsize < MAX_SIZE_T
  {
    hide Inv;
    forall p | p in st.tags.ch ensures st.tags.ch[p] < MAX_SIZE_T {
      ChunkBelowLimit(st, {}, {}, p);
    }
    Ends(st);
  }

  lemma Ends(st: State)
    requires Inv(st, {}, {}) && forall p | p in st.tags.ch :: st.tags.ch[p] < MAX_SIZE_T
    ensures st.dvsize < MAX_SIZE_T && st.topsize <= MAX_SIZE_T
  {
    hide OK, SegsOK, UsedOK, MapsOK, FootprintOK, LeastOK, BinsMatch;
  }
}
