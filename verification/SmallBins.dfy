/** The small bins: doubly linked lists through a bin header each. The bit in `smallmap`, not the
    header's links, says whether a bin is empty; the links of an emptied bin are left stale. */
module SmallBins {
  import BinMap

  type Addr = nat

  const NSMALLBINS := 32

  /** A link points to a bin header or to a chunk. */
  datatype Ref = Bin(i: nat) | At(p: Addr)

  datatype Links = Links(fd: Ref, bk: Ref)

  datatype Node = Node(size: nat, fd: Ref, bk: Ref)

  type Nodes = map<Addr, Node>
  type Ranks = map<Addr, nat>

  /** Chunk sizes that belong in a small bin. */
  predicate Small(s: nat)
  {
    32 <= s < 256 && s % 16 == 0
  }

  /** `small_index` */
  function SmallIndex(s: nat): nat
  {
    s / 8
  }

  /** `p`'s forward neighbour points back to `p`, and is an older chunk of its bin or the header. */
  predicate FdOK(node: Nodes, hdr: seq<Links>, rank: Ranks, p: Addr)
    requires p in node && |hdr| == NSMALLBINS && Small(node[p].size)
  {
    var i := SmallIndex(node[p].size);
    match node[p].fd
    case Bin(j) => j == i && hdr[i].bk == At(p)
    case At(q) =>
      && q in node && node[q].bk == At(p) && node[q].size == node[p].size
      && p in rank && q in rank && rank[q] < rank[p]
  }

  predicate BkOK(node: Nodes, hdr: seq<Links>, p: Addr)
    requires p in node && |hdr| == NSMALLBINS && Small(node[p].size)
  {
    var i := SmallIndex(node[p].size);
    match node[p].bk
    case Bin(j) => j == i && hdr[i].fd == At(p)
    case At(q) => q in node && node[q].fd == At(p) && node[q].size == node[p].size
  }

  predicate NodeOK(node: Nodes, hdr: seq<Links>, map_: BinMap.Bits, rank: Ranks, p: Addr)
    requires p in node && |hdr| == NSMALLBINS
  {
    && Small(node[p].size) && p in rank && BinMap.Marked(map_, SmallIndex(node[p].size))
    && FdOK(node, hdr, rank, p) && BkOK(node, hdr, p)
  }

  /** A marked bin's header points to its first and its last chunk. */
  predicate BinOK(node: Nodes, hdr: seq<Links>, map_: BinMap.Bits, i: nat)
    requires i < |hdr| == NSMALLBINS
  {
    BinMap.Marked(map_, i) ==>
      && hdr[i].fd.At? && hdr[i].fd.p in node && node[hdr[i].fd.p].bk == Bin(i)
         && SmallIndex(node[hdr[i].fd.p].size) == i
      && hdr[i].bk.At? && hdr[i].bk.p in node && node[hdr[i].bk.p].fd == Bin(i)
  }

  ghost predicate BinsOK(node: Nodes, hdr: seq<Links>, map_: BinMap.Bits, rank: Ranks)
  {
    && |hdr| == NSMALLBINS
    && (forall p {:trigger NodeOK(node, hdr, map_, rank, p)} | p in node :: NodeOK(node, hdr, map_, rank, p))
    && (forall i: nat {:trigger BinOK(node, hdr, map_, i)} | i < NSMALLBINS :: BinOK(node, hdr, map_, i))
  }

  /** The chunk reached by `n` links forward, or the last one before the header. */
  function Walk(node: Nodes, p: Addr, n: nat): Addr
    decreases n
  {
    if n == 0 || p !in node || node[p].fd.Bin? then p else Walk(node, node[p].fd.p, n - 1)
  }

  /** Every chunk of a bin is on the one list of its header: the list leads from it to the last chunk. */
  lemma {:induction false} ReachesLast(node: Nodes, hdr: seq<Links>, map_: BinMap.Bits, rank: Ranks, p: Addr)
    returns (n: nat, h: Addr)
    requires BinsOK(node, hdr, map_, rank) && p in node
    ensures Walk(node, p, n) == h && h in node && node[h].size == node[p].size
    ensures SmallIndex(node[p].size) < NSMALLBINS && node[h].fd == Bin(SmallIndex(node[p].size))
    ensures hdr[SmallIndex(node[p].size)].bk == At(h)
    ensures p != h ==> node[h].bk.At?
    decreases if p in rank then rank[p] else 0
  {
    hide BkOK, BinOK;
    assert NodeOK(node, hdr, map_, rank, p);
    if node[p].fd.Bin? {
      n, h := 0, p;
    } else {
      n, h := ReachesLast(node, hdr, map_, rank, node[p].fd.p);
      n := n + 1;
    }
  }

  /** A chunk between header and header is alone in its bin. */
  lemma Alone(node: Nodes, hdr: seq<Links>, map_: BinMap.Bits, rank: Ranks, x: Addr)
    requires BinsOK(node, hdr, map_, rank) && x in node && node[x].fd.Bin? && node[x].bk.Bin?
    ensures forall p | p in node && SmallIndex(node[p].size) == SmallIndex(node[x].size) :: p == x
  {
    hide BinOK;
    assert NodeOK(node, hdr, map_, rank, x);
    forall p | p in node && SmallIndex(node[p].size) == SmallIndex(node[x].size) ensures p == x {
      var n, h := ReachesLast(node, hdr, map_, rank, p);
    }
  }

  ghost function Sizes(node: Nodes): map<Addr, nat>
  {
    map p | p in node :: node[p].size
  }

  // ----- The links after an insertion and after a removal -----

  /** `x` between the header of bin `i` and what came first, `f`. */
  function Inserted(node: Nodes, x: Addr, s: nat, f: Ref): Nodes
  {
    (if f.At? && f.p in node then node[f.p := node[f.p].(bk := At(x))] else node)[x := Node(s, f, Bin(SmallIndex(s)))]
  }

  function InsertedHdr(hdr: seq<Links>, x: Addr, i: nat, f: Ref): seq<Links>
    requires i < |hdr|
  {
    hdr[i := Links(At(x), if f.Bin? then At(x) else hdr[i].bk)]
  }

  /** `map'` marks bin `i` besides the bins that `map_` marks. */
  predicate MarkedToo(map_: BinMap.Bits, map': BinMap.Bits, i: nat)
  {
    forall j: nat | j < NSMALLBINS :: BinMap.Marked(map', j) <==> j == i || BinMap.Marked(map_, j)
  }

  /** What an insertion of `x` with size `s` starts from, `f` being what comes first in its bin. */
  predicate MayInsert(node: Nodes, hdr: seq<Links>, map_: BinMap.Bits, map': BinMap.Bits, x: Addr, s: nat, f: Ref)
  {
    && |hdr| == NSMALLBINS && x !in node && Small(s) && BinOK(node, hdr, map_, SmallIndex(s))
       && MarkedToo(map_, map', SmallIndex(s))
    && f == if BinMap.Marked(map_, SmallIndex(s)) then hdr[SmallIndex(s)].fd else Bin(SmallIndex(s))
  }

  lemma InsertKeeps(node: Nodes, hdr: seq<Links>, map_: BinMap.Bits, map': BinMap.Bits, rank: Ranks, x: Addr, s: nat,
      f: Ref, k: nat)
    requires BinsOK(node, hdr, map_, rank) && MayInsert(node, hdr, map_, map', x, s, f)
    requires forall p | p in rank :: rank[p] < k
    ensures BinsOK(Inserted(node, x, s, f), InsertedHdr(hdr, x, SmallIndex(s), f), map', rank[x := k])
  {
    hide BinMap.Marked, NodeOK, BinOK, MayInsert;
    assert Small(s) by {
      MayInsertSmall(node, hdr, map_, map', x, s, f);
    }
    var i := SmallIndex(s);
    var node', hdr', rank' := Inserted(node, x, s, f), InsertedHdr(hdr, x, i, f), rank[x := k];
    if f.At? {
      FirstOK(node, hdr, map_, map', rank, x, s, f);
    }
    forall p | p in node' ensures NodeOK(node', hdr', map', rank', p) {
      if p == x {
        InsertNew(node, hdr, map_, map', rank, x, s, f, k);
      } else {
        assert NodeOK(node, hdr, map_, rank, p);
        InsertOther(node, hdr, map_, map', rank, x, s, f, k, p);
      }
    }
    forall j: nat | j < NSMALLBINS ensures BinOK(node', hdr', map', j) {
      assert BinOK(node, hdr, map_, j);
      InsertBin(node, hdr, map_, map', x, s, f, j);
    }
  }

  lemma MayInsertSmall(node: Nodes, hdr: seq<Links>, map_: BinMap.Bits, map': BinMap.Bits, x: Addr, s: nat, f: Ref)
    requires MayInsert(node, hdr, map_, map', x, s, f)
    ensures Small(s)
  {
    hide BinMap.Marked;
  }

  lemma FirstOK(node: Nodes, hdr: seq<Links>, map_: BinMap.Bits, map': BinMap.Bits, rank: Ranks, x: Addr, s: nat,
      f: Ref)
    requires BinsOK(node, hdr, map_, rank) && MayInsert(node, hdr, map_, map', x, s, f) && f.At?
    ensures f.p in node && NodeOK(node, hdr, map_, rank, f.p)
  {
    hide BinMap.Marked;
  }

  lemma InsertNew(node: Nodes, hdr: seq<Links>, map_: BinMap.Bits, map': BinMap.Bits, rank: Ranks, x: Addr, s: nat,
      f: Ref, k: nat)
    requires MayInsert(node, hdr, map_, map', x, s, f) && (forall p | p in rank :: rank[p] < k)
    requires f.At? ==> f.p in node && NodeOK(node, hdr, map_, rank, f.p)
    ensures NodeOK(Inserted(node, x, s, f), InsertedHdr(hdr, x, SmallIndex(s), f), map', rank[x := k], x)
  {
    hide BinMap.Marked;
    if f.At? {
      SameIndexSameSize(s, node[f.p].size);
    }
  }

  lemma SameIndexSameSize(s: nat, t: nat)
    requires Small(s) && Small(t) && SmallIndex(s) == SmallIndex(t)
    ensures s == t
  {
  }

  lemma InsertOther(node: Nodes, hdr: seq<Links>, map_: BinMap.Bits, map': BinMap.Bits, rank: Ranks, x: Addr, s: nat,
      f: Ref, k: nat, p: Addr)
    requires MayInsert(node, hdr, map_, map', x, s, f) && p in node && NodeOK(node, hdr, map_, rank, p)
    ensures NodeOK(Inserted(node, x, s, f), InsertedHdr(hdr, x, SmallIndex(s), f), map', rank[x := k], p)
  {
    hide BinMap.Marked;
  }

  lemma InsertBin(node: Nodes, hdr: seq<Links>, map_: BinMap.Bits, map': BinMap.Bits, x: Addr, s: nat, f: Ref, j: nat)
    requires MayInsert(node, hdr, map_, map', x, s, f) && j < NSMALLBINS && BinOK(node, hdr, map_, j)
    ensures BinOK(Inserted(node, x, s, f), InsertedHdr(hdr, x, SmallIndex(s), f), map', j)
  {
    hide BinMap.Marked;
  }

  /** `F->bk = B` for a chunk or a header `F`. */
  function SetBk(node: Nodes, f: Ref, b: Ref): Nodes
  {
    if f.At? && f.p in node then node[f.p := node[f.p].(bk := b)] else node
  }

  function SetFd(node: Nodes, b: Ref, f: Ref): Nodes
  {
    if b.At? && b.p in node then node[b.p := node[b.p].(fd := f)] else node
  }

  function SetHdrBk(hdr: seq<Links>, f: Ref, b: Ref): seq<Links>
  {
    if f.Bin? && f.i < |hdr| then hdr[f.i := hdr[f.i].(bk := b)] else hdr
  }

  function SetHdrFd(hdr: seq<Links>, b: Ref, f: Ref): seq<Links>
  {
    if b.Bin? && b.i < |hdr| then hdr[b.i := hdr[b.i].(fd := f)] else hdr
  }

  /** The only chunk of its bin goes: the links stay as they are, the bit is cleared. */
  lemma RemoveLastKeeps(node: Nodes, hdr: seq<Links>, map_: BinMap.Bits, rank: Ranks, x: Addr)
    requires BinsOK(node, hdr, map_, rank) && x in node && node[x].fd == node[x].bk
    ensures Small(node[x].size) && BinsOK(node - {x}, hdr, BinMap.Clear(map_, SmallIndex(node[x].size)), rank)
    ensures node[x].fd == Bin(SmallIndex(node[x].size))
  {
    hide BinMap.Marked, BinMap.Clear;
    assert NodeOK(node, hdr, map_, rank, x);
    NoCycle(node, hdr, map_, rank, x);
    Alone(node, hdr, map_, rank, x);
    var i := SmallIndex(node[x].size);
    var node', map' := node - {x}, BinMap.Clear(map_, i);
    forall p | p in node' ensures NodeOK(node', hdr, map', rank, p) {
      assert NodeOK(node, hdr, map_, rank, p);
      BinMap.ClearClears(map_, i, SmallIndex(node[p].size));
    }
    forall j: nat | j < NSMALLBINS ensures BinOK(node', hdr, map', j) {
      assert BinOK(node, hdr, map_, j);
      BinMap.ClearClears(map_, i, j);
    }
  }

  /** Forward and backward neighbour of a chunk are the same only if that is the header. */
  lemma NoCycle(node: Nodes, hdr: seq<Links>, map_: BinMap.Bits, rank: Ranks, x: Addr)
    requires BinsOK(node, hdr, map_, rank) && x in node && node[x].fd == node[x].bk
    ensures node[x].fd.Bin?
  {
    Neighbours(node, hdr, map_, rank, x);
  }

  predicate Bypassed(node: Nodes, hdr: seq<Links>, x: Addr, node': Nodes, hdr': seq<Links>)
  {
    && x in node
    && node' == SetFd(SetBk(node, node[x].fd, node[x].bk), node[x].bk, node[x].fd) - {x}
    && hdr' == SetHdrFd(SetHdrBk(hdr, node[x].fd, node[x].bk), node[x].bk, node[x].fd)
  }

  lemma RemoveKeeps(node: Nodes, hdr: seq<Links>, map_: BinMap.Bits, rank: Ranks, x: Addr, node': Nodes,
      hdr': seq<Links>)
    requires BinsOK(node, hdr, map_, rank) && x in node && node[x].fd != node[x].bk
    requires Bypassed(node, hdr, x, node', hdr')
    ensures BinsOK(node', hdr', map_, rank)
  {
    hide BinMap.Marked, NodeOK, BinOK, Bypassed, Small;
    Neighbours(node, hdr, map_, rank, x);
    BypassedKeys(node, hdr, x, node', hdr');
    forall p | p in node' ensures NodeOK(node', hdr', map_, rank, p) {
      assert NodeOK(node, hdr, map_, rank, p);
      RemoveOther(node, hdr, map_, rank, x, node', hdr', p);
    }
    forall j: nat | j < NSMALLBINS ensures BinOK(node', hdr', map_, j) {
      assert BinOK(node, hdr, map_, j);
      RemoveBin(node, hdr, map_, rank, x, node', hdr', j);
    }
  }

  lemma BypassedKeys(node: Nodes, hdr: seq<Links>, x: Addr, node': Nodes, hdr': seq<Links>)
    requires Bypassed(node, hdr, x, node', hdr')
    ensures node'.Keys == node.Keys - {x} && |hdr'| == |hdr| && Sizes(node') == Sizes(node) - {x}
  {
  }

  lemma Neighbours(node: Nodes, hdr: seq<Links>, map_: BinMap.Bits, rank: Ranks, x: Addr)
    requires BinsOK(node, hdr, map_, rank) && x in node
    ensures |hdr| == NSMALLBINS && NodeOK(node, hdr, map_, rank, x) && Small(node[x].size)
    ensures SmallIndex(node[x].size) < NSMALLBINS
    ensures node[x].fd.At? ==> node[x].fd.p in node && NodeOK(node, hdr, map_, rank, node[x].fd.p)
    ensures node[x].bk.At? ==> node[x].bk.p in node && NodeOK(node, hdr, map_, rank, node[x].bk.p)
    ensures BinOK(node, hdr, map_, SmallIndex(node[x].size))
  {
    hide BinOK, BinMap.Marked;
    assert NodeOK(node, hdr, map_, rank, x);
  }

  lemma RemoveOther(node: Nodes, hdr: seq<Links>, map_: BinMap.Bits, rank: Ranks, x: Addr, node': Nodes,
      hdr': seq<Links>, p: Addr)
    requires |hdr| == |hdr'| == NSMALLBINS && Bypassed(node, hdr, x, node', hdr') && node[x].fd != node[x].bk
    requires NodeOK(node, hdr, map_, rank, x) && p in node && p in node' && p != x && NodeOK(node, hdr, map_, rank, p)
    ensures NodeOK(node', hdr', map_, rank, p)
  {
    hide BinMap.Marked;
  }

  lemma RemoveBin(node: Nodes, hdr: seq<Links>, map_: BinMap.Bits, rank: Ranks, x: Addr, node': Nodes, hdr': seq<Links>,
      j: nat)
    requires |hdr| == |hdr'| == NSMALLBINS && Bypassed(node, hdr, x, node', hdr') && node[x].fd != node[x].bk
    requires j < NSMALLBINS
    requires NodeOK(node, hdr, map_, rank, x) && BinOK(node, hdr, map_, j)
    ensures BinOK(node', hdr', map_, j)
  {
    hide BinMap.Marked;
  }

  lemma HeaderOK(node: Nodes, hdr: seq<Links>, map_: BinMap.Bits, rank: Ranks, i: nat)
    requires BinsOK(node, hdr, map_, rank) && i < NSMALLBINS
    ensures |hdr| == NSMALLBINS && BinOK(node, hdr, map_, i)
    ensures BinMap.Marked(map_, i) ==>
              hdr[i].fd.At? && hdr[i].fd.p in node && node[hdr[i].fd.p].size == 8 * i && node[hdr[i].fd.p].bk == Bin(i)
  {
    hide BinMap.Marked;
    assert BinOK(node, hdr, map_, i);
    if BinMap.Marked(map_, i) {
      assert NodeOK(node, hdr, map_, rank, hdr[i].fd.p);
    }
  }

  lemma LinkedBack(node: Nodes, hdr: seq<Links>, map_: BinMap.Bits, rank: Ranks, x: Addr)
    requires BinsOK(node, hdr, map_, rank) && x in node
    ensures match node[x].fd case Bin(j) => j == SmallIndex(node[x].size) case At(q) => q in node && node[q].bk == At(x)
    ensures match node[x].bk case Bin(j) => j == SmallIndex(node[x].size) case At(q) => q in node && node[q].fd == At(x)
  {
    hide BinMap.Marked;
    assert NodeOK(node, hdr, map_, rank, x);
  }

  class SmallBins {
    var node: Nodes
    var hdr: seq<Links>
    var smallmap: BinMap.Bits
    ghost var rank: Ranks
    ghost var clock: nat

    ghost predicate Valid()
      reads this
    {
      BinsOK(node, hdr, smallmap, rank) && forall p | p in rank :: rank[p] < clock
    }

    /** The chunks in the bins, with their sizes. */
    ghost function Contents(): map<Addr, nat>
      reads this
    {
      Sizes(node)
    }

    constructor ()
      ensures Valid() && Contents() == map[]
    {
      node, hdr, smallmap, rank, clock := map[], seq(NSMALLBINS, i => Links(Bin(0), Bin(0))), 0, map[], 0;
      new;
      forall i: nat | i < NSMALLBINS ensures !BinMap.Marked(0, i) {
        BinMap.NoneMarked(i);
      }
    }

    /** `insert_small_chunk`; `ok` tells that no corruption was reported. */
    method Insert(x: Addr, s: nat, least: Addr) returns (ok: bool)
      requires Valid() && x !in node && Small(s) && forall p | p in node :: least <= p
      modifies this
      ensures ok && Valid() && Contents() == old(Contents())[x := s]
    {
      hide BinsOK, BinMap.Marked, BinMap.Mark;
      ok := true;
      var i := SmallIndex(s);
      var f := Bin(i);
      ghost var map0 := smallmap;
      HeaderOK(node, hdr, smallmap, rank, i);
      if !BinMap.Marked(smallmap, i) {
        smallmap := BinMap.Mark(smallmap, i);
        hdr := hdr[i := Links(At(x), At(x))];
      } else {
        f := hdr[i].fd;
        ok := least <= f.p;
        hdr := hdr[i := hdr[i].(fd := At(x))];
        node := node[f.p := node[f.p].(bk := At(x))];
      }
      node := node[x := Node(s, f, Bin(i))];
      forall j: nat | j < NSMALLBINS ensures BinMap.Marked(smallmap, j) <==> j == i || BinMap.Marked(map0, j) {
        BinMap.MarkMarks(map0, i, j);
      }
      InsertKeeps(old(node), old(hdr), map0, smallmap, rank, x, s, f, clock);
      rank, clock := rank[x := clock], clock + 1;
    }

    /** `unlink_small_chunk` */
    method Unlink(x: Addr, s: nat, least: Addr) returns (ok: bool)
      requires Valid() && x in node && node[x].size == s && forall p | p in node :: least <= p
      modifies this
      ensures ok && Valid() && Contents() == old(Contents()) - {x}
    {
      hide BinsOK, NodeOK, BinOK, BinMap.Marked, BinMap.Clear, Bypassed, Small;
      Neighbours(node, hdr, smallmap, rank, x);
      LinkedBack(node, hdr, smallmap, rank, x);
      var f, b := node[x].fd, node[x].bk;
      var i := SmallIndex(s);
      ok := f == Bin(i) || (f.At? && least <= f.p && node[f.p].bk == At(x));
      if b == f {
        RemoveLastKeeps(node, hdr, smallmap, rank, x);
        smallmap := BinMap.Clear(smallmap, i);
        node := node - {x};
      } else {
        ok := ok && (b == Bin(i) || (b.At? && least <= b.p && node[b.p].fd == At(x)));
        Bypass(x);
      }
    }

    /** `unlink_first_small_chunk` on the first chunk of bin `i` */
    method UnlinkFirst(i: nat, least: Addr) returns (ok: bool, x: Addr)
      requires Valid() && i < NSMALLBINS && BinMap.Marked(smallmap, i) && forall p | p in node :: least <= p
      modifies this
      ensures ok && Valid() && x in old(node) && old(node[x].size) == 8 * i && Contents() == old(Contents()) - {x}
    {
      hide BinsOK, NodeOK, BinOK, BinMap.Marked, BinMap.Clear, Bypassed;
      HeaderOK(node, hdr, smallmap, rank, i);
      x := hdr[i].fd.p;
      Neighbours(node, hdr, smallmap, rank, x);
      LinkedBack(node, hdr, smallmap, rank, x);
      var f := node[x].fd;
      if f == Bin(i) {
        ok := true;
        RemoveLastKeeps(node, hdr, smallmap, rank, x);
        smallmap := BinMap.Clear(smallmap, i);
        node := node - {x};
      } else {
        ok := f.At? && least <= f.p && node[f.p].bk == At(x);
        Bypass(x);
      }
    }

    /** `F->bk = B; B->fd = F` */
    method Bypass(x: Addr)
      requires Valid() && x in node && node[x].fd != node[x].bk
      modifies this`node, this`hdr
      ensures Valid() && Contents() == old(Contents()) - {x}
    {
      hide BinsOK, NodeOK, BinOK, BinMap.Marked;
      Neighbours(node, hdr, smallmap, rank, x);
      var f, b := node[x].fd, node[x].bk;
      ghost var node0, hdr0 := node, hdr;
      node, hdr := SetBk(node, f, b), SetHdrBk(hdr, f, b);
      node, hdr := SetFd(node, b, f) - {x}, SetHdrFd(hdr, b, f);
      assert Bypassed(node0, hdr0, x, node, hdr);
      RemoveKeeps(node0, hdr0, smallmap, rank, x, node, hdr);
      BypassedKeys(node0, hdr0, x, node, hdr);
    }
  }
}
