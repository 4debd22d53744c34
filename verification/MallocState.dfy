/** The allocator's state as its code keeps it, and the relays to the two kinds of bins. */
module MallocState {
  import opened BoundaryTags
  import opened HeapState
  import opened HeapSteps
  import opened HeapBins
  import TreeIndex
  import SB = SmallBins
  import TB = TreeBins
  import TriePath

  /** What the words of memory stand for: the chunks and fenceposts, the clients' blocks, the mapped chunks. */
  datatype Layout = Layout(ch: map<Addr, nat>, used: set<Addr>, fence: set<Addr>, live: set<Addr>, maps: map<Addr,
    Mapping>)

  function LayoutOf(st: State): Layout
  {
    Layout(st.tags.ch, st.tags.used, st.tags.fence, st.live, st.maps)
  }

  /** `struct malloc_state` and the words of memory. */
  class MState {
    var mem: map<Addr, nat>
    var dv: Addr
    var dvsize: nat
    var top: Addr
    var topsize: nat
    var leastAddr: Addr
    var trimCheck: nat
    var releaseChecks: int
    var footprint: nat
    var maxFootprint: nat
    var footprintLimit: nat
    var segs: seq<Segment>
    const small: SB.SmallBins
    const trees: TB.TreeBins
    ghost var layout: Layout

    ghost function H(): Tags
      reads this
    {
      Tags(mem, layout.ch, layout.used, top, layout.fence)
    }

    /** The state as a value. */
    ghost function S(): State
      reads this, small, trees
    {
      State(H(), dv, dvsize, topsize, segs, layout.live, layout.maps, leastAddr, footprint, small.Contents(),
        trees.Contents())
    }

    /** The bins' own links are in order. */
    ghost predicate Valid()
      reads this, small, trees
    {
      small.Valid() && trees.Valid()
    }

    constructor (limit: nat)
      ensures Valid() && S() == EmptyState() && footprintLimit == limit
      ensures fresh(small) && fresh(trees)
    {
      mem, dv, dvsize, top, topsize, leastAddr, segs := map[], 0, 0, 0, 0, 0, [];
      trimCheck, releaseChecks, footprint, maxFootprint, footprintLimit := 0, 0, 0, 0, limit;
      layout := Layout(map[], {}, {}, {}, map[]);
      small := new SB.SmallBins();
      trees := new TB.TreeBins();
    }

    function W(a: Addr): nat
      reads this
    {
      if a in mem then mem[a] else 0
    }

    function HeadOf(p: Addr): nat
      reads this
    {
      W(p + 8)
    }
  }

  function EmptyState(): State
  {
    State(Tags(map[], map[], {}, 0, {}), 0, 0, 0, [], {}, map[], 0, 0, map[], map[])
  }

  lemma EmptyInv()
    ensures Inv(EmptyState(), {}, {})
  {
    assert MapSizes(map[]) == 0;
  }

  /** All is in order between two calls: no free chunk is out of its bin, none in use for the allocator but
      the segment records. */
  ghost predicate Good(m: MState)
    reads m, m.small, m.trees
  {
    m.Valid() && Inv(m.S(), {}, {})
  }

  /** `insert_chunk` */
  method InsertChunk(m: MState, p: Addr, s: nat, ghost L: set<Addr>, ghost Y: set<Addr>) returns (ok: bool)
    requires m.Valid() && Inv(m.S(), L, Y) && p in L && IsFree(m.H(), m.dv, p) && m.layout.ch[p] == s
    modifies m.small, m.trees
    ensures ok && m.Valid() && m.S() == Binned(old(m.S()), p, s) && Inv(m.S(), L - {p}, Y)
  {
    hide Inv, SB.BinsOK, TB.BinsOK, IsFree;
    ghost var st := m.S();
    BinReady(m, p, L, Y);
    if s < TreeIndex.MIN_LARGE_SIZE {
      ok := m.small.Insert(p, s, m.leastAddr);
    } else {
      ok := m.trees.Insert(p, s, m.leastAddr);
    }
    Bin(st, p, L, Y);
  }

  /** What inserting asks of the bins. */
  lemma BinReady(m: MState, p: Addr, L: set<Addr>, Y: set<Addr>)
    requires m.Valid() && Inv(m.S(), L, Y) && p in L && IsFree(m.H(), m.dv, p)
    ensures p !in m.small.node && p !in m.trees.node && p != 0 && m.leastAddr <= p
    ensures if m.layout.ch[p] < TreeIndex.MIN_LARGE_SIZE then SB.Small(m.layout.ch[p])
            else TriePath.Large(m.layout.ch[p])
    ensures (forall q | q in m.small.node :: m.leastAddr <= q) && (forall q | q in m.trees.node :: m.leastAddr <= q)
  {
    hide Inv, SB.BinsOK, TB.BinsOK;
    Bin(m.S(), p, L, Y);
    BinSizes(m.S(), L, Y, p);
    BinsAboveLeast(m.S(), L, Y);
    assert forall q | q in m.small.node :: q in m.S().small;
    assert forall q | q in m.trees.node :: q in m.S().tree;
  }

  /** Chunk `p` of size `s` is in the bins, and the bins hold no address below `least_addr`. */
  ghost predicate HeldInBins(m: MState, p: Addr, s: nat)
    reads m, m.small, m.trees
  {
    && (if s < TreeIndex.MIN_LARGE_SIZE then p in m.small.node && m.small.node[p].size == s && p !in m.trees.node
        else p in m.trees.node && m.trees.node[p].size == s && p !in m.small.node)
    && (forall q | q in m.small.node :: m.leastAddr <= q) && (forall q | q in m.trees.node :: m.leastAddr <= q)
  }

  /** `unlink_chunk` */
  method UnlinkBinned(m: MState, p: Addr, s: nat) returns (ok: bool)
    requires m.Valid() && HeldInBins(m, p, s)
    modifies m.small, m.trees
    ensures ok && m.Valid() && m.S() == Unbinned(old(m.S()), p)
  {
    hide SB.BinsOK, TB.BinsOK, SB.Small;
    ghost var st := m.S();
    if s < TreeIndex.MIN_LARGE_SIZE {
      ok := m.small.Unlink(p, s, m.leastAddr);
      assert m.S().tree == st.tree - {p};
    } else {
      ok := m.trees.Unlink(p, m.leastAddr);
      assert m.S().small == st.small - {p};
    }
  }

  /** `unlink_chunk` in an orderly state */
  method UnlinkChunk(m: MState, p: Addr, s: nat, ghost L: set<Addr>, ghost Y: set<Addr>) returns (ok: bool)
    requires m.Valid() && Inv(m.S(), L, Y) && InBins(m.S(), p) && p in m.layout.ch && m.layout.ch[p] == s
    modifies m.small, m.trees
    ensures ok && m.Valid() && m.S() == Unbinned(old(m.S()), p) && Inv(m.S(), L + {p}, Y) && IsFree(m.H(), m.dv, p)
    ensures p !in L
  {
    hide Inv, SB.BinsOK, TB.BinsOK, IsFree, SB.Small;
    ghost var st := m.S();
    BinFacts(st, p, L, Y);
    HeldSame(m, st, p);
    ok := UnlinkBinned(m, p, s);
    Unbin(st, p, L, Y);
  }

  /** Which bins hold a chunk, and what unlinking asks of them. */
  lemma BinFacts(st: State, p: Addr, L: set<Addr>, Y: set<Addr>)
    requires InBins(st, p) && Inv(st, L, Y)
    ensures p in st.tags.ch
    ensures if st.tags.ch[p] < TreeIndex.MIN_LARGE_SIZE then p in st.small && st.small[p] == st.tags.ch[p]
            && p !in st.tree
            else p in st.tree && st.tree[p] == st.tags.ch[p] && p !in st.small
    ensures forall q | q in st.small || q in st.tree :: st.least <= q
  {
    hide OK, DvTopOK, SegsOK, UsedOK, MapsOK, FootprintOK;
    BinsAboveLeast(st, L, Y);
  }

  lemma HeldSame(m: MState, st: State, p: Addr)
    requires p in st.tags.ch && st.small == m.small.Contents() && st.tree == m.trees.Contents()
    requires st.least == m.leastAddr
    requires if st.tags.ch[p] < TreeIndex.MIN_LARGE_SIZE then p in st.small && st.small[p] == st.tags.ch[p]
             && p !in st.tree
             else p in st.tree && st.tree[p] == st.tags.ch[p] && p !in st.small
    requires forall q | q in st.small || q in st.tree :: st.least <= q
    ensures HeldInBins(m, p, st.tags.ch[p])
  {
    assert forall q | q in m.small.node :: q in st.small;
    assert forall q | q in m.trees.node :: q in st.tree;
  }

  /** `replace_dv`: the old dv goes to its small bin. */
  method ReplaceDv(m: MState, p: Addr, s: nat, ghost L: set<Addr>, ghost Y: set<Addr>) returns (ok: bool)
    requires m.Valid() && Inv(m.S(), L, Y) && p in L && IsFree(m.H(), m.dv, p) && m.layout.ch[p] == s && m.dv !in L
    requires m.dvsize < TreeIndex.MIN_LARGE_SIZE
    modifies m`dv, m`dvsize, m.small, m.trees
    ensures ok && m.Valid() && Inv(m.S(), L - {p}, Y)
    ensures m.S().live == old(m.S()).live && m.dv == p && m.dvsize == s
  {
    hide Inv, SB.BinsOK, TB.BinsOK, SB.Small;
    ghost var st := m.S();
    ok := true;
    DvWord(st, L, Y);
    var dvs := m.dvsize;
    if dvs != 0 {
      var d := m.dv;
      DropDv(st, L, Y);
      m.dv, m.dvsize := 0, 0;
      assert m.S() == WithDv(st, 0, 0);
      ok := InsertChunk(m, d, dvs, L + {d}, Y);
      assert L + {d} - {d} == L;
    }
    MakeDv(m.S(), p, L, Y);
    ghost var st1 := m.S();
    m.dvsize := s;
    m.dv := p;
    assert m.S() == WithDv(st1, p, s);
  }

  lemma DvWord(st: State, L: set<Addr>, Y: set<Addr>)
    requires Inv(st, L, Y)
    ensures st.dv == 0 <==> st.dvsize == 0
    ensures st.dv != 0 ==>
              st.dv in st.tags.ch && st.tags.ch[st.dv] == st.dvsize && st.dv !in st.tags.used && st.dv != st.tags.top
    ensures 0 !in st.tags.ch && (st.tags.top == 0 <==> st.topsize == 0)
    ensures st.tags.top != 0 ==> st.tags.top in st.tags.ch && st.tags.ch[st.tags.top] == st.topsize
  {
    hide OK, SegsOK, UsedOK, MapsOK, FootprintOK, LeastOK;
    NoNullChunk(st.tags);
  }
}
