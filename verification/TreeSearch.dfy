/** Best-fit search in the tree bins: the searching parts of `tmalloc_large` and `tmalloc_small`. */
module TreeSearch {
  import opened Bits
  import opened TreeIndex
  import opened TriePath
  import opened Trie
  import opened Rings
  import opened TreeBins
  import BinMap

  /** `chunksize(t) - nb` in 64-bit unsigned arithmetic. */
  function Rem(s: nat, nb: nat): nat
    requires s < SIZE_MODULUS && nb < SIZE_MODULUS
  {
    if s >= nb then s - nb else s + SIZE_MODULUS - nb
  }

  /** `v` is the best chunk seen so far and `rsize` what it leaves over; at the start none, and `-nb`. */
  predicate Best(node: Nodes, nb: nat, v: Addr, rsize: nat)
  {
    if v == 0 then rsize == SIZE_MODULUS - nb else v in node && node[v].size >= nb && rsize == node[v].size - nb
  }

  /** `q` cannot do better than what has been seen. */
  predicate Beaten(node: Nodes, nb: nat, rsize: nat, q: Addr)
    requires q in node
  {
    node[q].size >= nb ==> rsize <= node[q].size - nb
  }

  /** A chunk too small for the request never looks better than `rsize`: its remainder wraps around. */
  lemma WrapNeverBetter(node: Nodes, nb: nat, v: Addr, rsize: nat, t: Addr)
    requires 0 < nb < SIZE_MODULUS && Best(node, nb, v, rsize) && t in node && t != 0 && Large(node[t].size)
    requires v != 0 ==> Large(node[v].size)
    ensures Rem(node[t].size, nb) < rsize ==>
              Best(node, nb, t, Rem(node[t].size, nb)) && Beaten(node, nb, Rem(node[t].size, nb), t)
    ensures !(Rem(node[t].size, nb) < rsize) ==> Beaten(node, nb, rsize, t)
  {
  }

  /** `q` is no better than what has been seen, or in the subtree of `t` still to be looked at, or larger
      than `t`, which fits. */
  ghost predicate Covered(node: Nodes, depth: map<Addr, nat>, nb: nat, rsize: nat, t: Addr, q: Addr)
    requires q in node
  {
    Beaten(node, nb, rsize, q)
      || (Head(node, t) && t in depth && (Under(node, depth, t, q) || node[t].size < node[q].size))
  }

  ghost predicate AllCovered(node: Nodes, depth: map<Addr, nat>, nb: nat, rsize: nat, t: Addr)
  {
    forall q {:trigger Head(node, q)} | Head(node, q) :: Covered(node, depth, nb, rsize, t, q)
  }

  /** Everything at or below `t` is large enough (or a perfect fit has been found, or nothing can fit). */
  ghost predicate Fitting(node: Nodes, depth: map<Addr, nat>, nb: nat, rsize: nat, t: Addr)
  {
    rsize == 0 || nb >= INDEX_LIMIT || forall r | r in node && Head(node, t) && t in depth
      && Under(node, depth, t, r) :: node[r].size >= nb
  }

  /** `leftmost_child` */
  function LeftmostChild(n: Node): Addr
  {
    if n.left != 0 then n.left else n.right
  }

  /** Once `t` itself has been looked at, its leftmost child's subtree covers the rest: the right subtree
      of a node with a left child holds nothing smaller than that child. */
  lemma LeftmostCovers(node: Nodes, bins: seq<Addr>, depth: map<Addr, nat>, nb: nat, rsize: nat, t: Addr)
    requires TrieOK(node, bins, depth) && Head(node, t) && t in depth && Fitting(node, depth, nb, rsize, t)
    requires AllCovered(node, depth, nb, rsize, t) && Beaten(node, nb, rsize, t)
    ensures var c := LeftmostChild(node[t]);
            && AllCovered(node, depth, nb, rsize, c) && Fitting(node, depth, nb, rsize, c)
            && (c != 0 ==> Head(node, c) && c in depth && depth[c] == depth[t] + 1 <= 64)
  {
    hide Prefix, Dir, Width, Large, ComputeTreeIndex, TrieOK, Covered, Beaten, Under, Fitting;
    var c := LeftmostChild(node[t]);
    if c == 0 {
      NullFits(node, bins, depth, nb, rsize);
    } else {
      UnderSelf(node, depth, t);
      ChildUnder(node, bins, depth, t, t, if node[t].left != 0 then 0 else 1);
      UnderHead(node, depth, t, c);
      FittingBelow(node, depth, nb, rsize, t, c);
    }
    forall q | Head(node, q) ensures Covered(node, depth, nb, rsize, c, q) {
      LeftmostCoversOne(node, bins, depth, nb, rsize, t, q);
    }
  }

  lemma NullFits(node: Nodes, bins: seq<Addr>, depth: map<Addr, nat>, nb: nat, rsize: nat)
    requires TrieOK(node, bins, depth)
    ensures Fitting(node, depth, nb, rsize, 0)
  {
    hide ParentOK, ChildOK, SizeOK;
    if 0 in node {
      NotNull(node, bins, depth, 0);
    }
  }

  lemma UnderHead(node: Nodes, depth: map<Addr, nat>, t: Addr, q: Addr)
    requires Head(node, t) && t in depth && Under(node, depth, t, q)
    ensures Head(node, q) && q in depth && node[q].index == node[t].index && depth[t] <= depth[q]
  {
  }

  lemma UnderTrans(node: Nodes, bins: seq<Addr>, depth: map<Addr, nat>, t: Addr, c: Addr, q: Addr)
    requires Head(node, t) && t in depth && Under(node, depth, t, c) && Under(node, depth, c, q)
    requires depth[c] <= Width(node[t].index)
    ensures Under(node, depth, t, q)
  {
    hide Prefix, Width;
    PrefixShorter(node[t].index, node[q].size, node[c].size, depth[t], depth[c]);
  }

  lemma FittingBelow(node: Nodes, depth: map<Addr, nat>, nb: nat, rsize: nat, t: Addr, c: Addr)
    requires Head(node, t) && t in depth && Fitting(node, depth, nb, rsize, t) && Under(node, depth, t, c)
    requires Head(node, c) && c in depth
    requires depth[c] <= Width(node[t].index)
    ensures Fitting(node, depth, nb, rsize, c)
  {
    hide Under, Width;
    forall r | r in node && Under(node, depth, c, r) ensures Under(node, depth, t, r) {
      UnderTrans(node, [], depth, t, c, r);
    }
  }

  lemma LeftmostCoversOne(node: Nodes, bins: seq<Addr>, depth: map<Addr, nat>, nb: nat, rsize: nat, t: Addr, q: Addr)
    requires TrieOK(node, bins, depth) && Head(node, t) && t in depth && Head(node, q)
    requires Fitting(node, depth, nb, rsize, t)
    requires Covered(node, depth, nb, rsize, t, q) && Beaten(node, nb, rsize, t)
    ensures Covered(node, depth, nb, rsize, LeftmostChild(node[t]), q)
  {
    hide Prefix, Dir, Width, ComputeTreeIndex, TrieOK, Under, ParentOK, ChildOK;
    UnderSelf(node, depth, t);
    TrieNode(node, bins, depth, q);
    if !Beaten(node, nb, rsize, q) && Under(node, depth, t, q) && q != t {
      Descend(node, bins, depth, t, q);
      var i, d := node[t].index, depth[t];
      DirBit(i, node[q].size, d);
      NotNull(node, bins, depth, node[t].Child(Dir(i, node[q].size, d)));
      if Dir(i, node[q].size, d) == 1 && node[t].left != 0 {
        ChildUnder(node, bins, depth, t, t, 0);
        UnderHead(node, depth, t, node[t].left);
        UnderSelf(node, depth, node[t].left);
        RightAboveLeft(node, bins, depth, t, node[t].left, q);
      }
    }
  }

  /** Everything below the left child is smaller than everything below the right one. */
  lemma RightAboveLeft(node: Nodes, bins: seq<Addr>, depth: map<Addr, nat>, t: Addr, p: Addr, q: Addr)
    requires TrieOK(node, bins, depth) && Head(node, t) && t in depth && depth[t] < Width(node[t].index)
    requires node[t].left != 0 && Head(node, node[t].left) && node[t].left in depth
    requires Under(node, depth, node[t].left, p)
    requires Under(node, depth, t, q) && Dir(node[t].index, node[q].size, depth[t]) == 1
    ensures node[p].size < node[q].size
  {
    hide Prefix, Dir, Width, Large, ComputeTreeIndex, Unique;
    var i, d, c := node[t].index, depth[t], node[t].left;
    TrieNode(node, bins, depth, t);
    assert ChildOK(node, depth, t, 0);
    TrieNode(node, bins, depth, c);
    PrefixShorter(i, node[p].size, node[c].size, d, d + 1);
    SameDir(i, node[p].size, node[c].size, d);
    LeftBelowRight(i, node[p].size, node[q].size, d);
  }

  /** The loop down the leftmost path, with which both searches end. */
  method ScanLeftmost(node: Nodes, bins: seq<Addr>, nb: nat, t0: Addr, v0: Addr, rsize0: nat, ghost depth: map<Addr,
      nat>, ghost rank: Ranks)
    returns (v: Addr, rsize: nat)
    requires TrieOK(node, bins, depth) && RingsOK(node, rank) && 0 < nb < SIZE_MODULUS
    requires t0 != 0 ==> Head(node, t0) && t0 in depth && depth[t0] <= 64
    requires AllCovered(node, depth, nb, rsize0, t0) && Fitting(node, depth, nb, rsize0, t0)
    requires Best(node, nb, v0, rsize0)
    ensures Best(node, nb, v, rsize) && forall p | p in node && node[p].size >= nb :: rsize <= node[p].size - nb
  {
    hide TrieOK, RingsOK, Under, Covered, AllCovered, Fitting, Prefix, Dir, Width, ComputeTreeIndex, LeftmostChild,
      Best, Rem;
    AllLarge(node, bins, depth);
    var t := t0;
    v, rsize := v0, rsize0;
    while t != 0
      invariant Best(node, nb, v, rsize)
      invariant AllCovered(node, depth, nb, rsize, t) && Fitting(node, depth, nb, rsize, t)
      invariant t != 0 ==> Head(node, t) && t in depth && depth[t] <= 64
      decreases if t == 0 then 0 else 65 - depth[t]
    {
      BestIsNode(node, nb, v, rsize);
      WrapNeverBetter(node, nb, v, rsize, t);
      var trem := Rem(node[t].size, nb);
      LowerCovers(node, depth, nb, rsize, trem, t);
      if trem < rsize {
        rsize := trem;
        v := t;
      }
      LeftmostCovers(node, bins, depth, nb, rsize, t);
      t := LeftmostChild(node[t]);
    }
    NothingLeft(node, bins, depth, rank, nb, rsize);
  }

  lemma BestIsNode(node: Nodes, nb: nat, v: Addr, rsize: nat)
    requires Best(node, nb, v, rsize)
    ensures v != 0 ==> v in node
  {
  }

  /** `tmalloc_small` up to the choice of the chunk: it starts from the root of the lowest marked bin. */
  method FindSmallest(node: Nodes, bins: seq<Addr>, treemap: BinMap.Bits, nb: nat, ghost depth: map<Addr, nat>,
      ghost rank: Ranks)
    returns (v: Addr, rsize: nat)
    requires BinsOK(node, bins, treemap, depth, rank) && treemap != 0 && 0 < nb < MIN_LARGE_SIZE
    ensures v in node && node[v].size == nb + rsize && forall p | p in node :: node[v].size <= node[p].size
  {
    hide TrieOK, RingsOK, MapOK, Under, Covered, AllCovered, Fitting, Prefix, Dir, Width, ComputeTreeIndex,
      LeftmostChild, NodeOK;
    BinMap.LeastBitIndex(treemap);
    var i := BinMap.CountTrailing(BinMap.LeastBit(treemap));
    MapRead(treemap, bins, i);
    var t := bins[i];
    RootUnder(node, bins, depth, i);
    AllLarge(node, bins, depth);
    NotNull(node, bins, depth, t);
    LowestBin(node, bins, treemap, depth, i);
    rsize := node[t].size - nb;
    RootCovers(node, bins, depth, nb, rsize, i);
    AllFitting(node, depth, nb, rsize, t);
    LeftmostCovers(node, bins, depth, nb, rsize, t);
    v, rsize := ScanLeftmost(node, bins, nb, LeftmostChild(node[t]), t, rsize, depth, rank);
    assert node[t].size >= nb;
  }

  lemma AllFitting(node: Nodes, depth: map<Addr, nat>, nb: nat, rsize: nat, t: Addr)
    requires forall p | p in node :: node[p].size >= nb
    ensures Fitting(node, depth, nb, rsize, t)
  {
    hide Under;
  }

  lemma AllLarge(node: Nodes, bins: seq<Addr>, depth: map<Addr, nat>)
    requires TrieOK(node, bins, depth)
    ensures forall p | p in node :: Large(node[p].size)
  {
    hide Prefix, Dir, Width, Large, ComputeTreeIndex, Unique, ParentOK, ChildOK;
    forall p | p in node ensures Large(node[p].size) {
      assert NodeOK(node, bins, depth, p);
    }
  }

  /** A smaller remainder covers at least as much. */
  lemma LowerCovers(node: Nodes, depth: map<Addr, nat>, nb: nat, rsize: nat, rsize': nat, t: Addr)
    requires AllCovered(node, depth, nb, rsize, t)
    ensures rsize' < rsize ==> AllCovered(node, depth, nb, rsize', t)
    ensures Fitting(node, depth, nb, rsize, t) && rsize' < rsize ==> Fitting(node, depth, nb, rsize', t)
  {
    hide Under;
    if rsize' < rsize {
      forall q | Head(node, q) ensures Covered(node, depth, nb, rsize', t, q) {
        assert Covered(node, depth, nb, rsize, t, q);
      }
    }
  }

  /** The lowest non-empty bin that can hold a fitting chunk covers everything. */
  lemma RootCovers(node: Nodes, bins: seq<Addr>, depth: map<Addr, nat>, nb: nat, rsize: nat, i: nat)
    requires TrieOK(node, bins, depth) && i < NTREEBINS && bins[i] != 0
    requires forall q | Head(node, q) && node[q].index < i :: Beaten(node, nb, rsize, q)
    ensures AllCovered(node, depth, nb, rsize, bins[i])
  {
    hide Prefix, Dir, Width, Large, ComputeTreeIndex, Unique, ParentOK, ChildOK, Under;
    var r := bins[i];
    RootUnder(node, bins, depth, i);
    TrieNode(node, bins, depth, r);
    forall q | Head(node, q) ensures Covered(node, depth, nb, rsize, r, q) {
      TrieNode(node, bins, depth, q);
      RootExists(node, bins, depth, q);
      if node[q].index > i {
        LowerBinSmaller(node[r].size, node[q].size);
      }
    }
  }

  lemma LowerBinSmaller(s: nat, t: nat)
    requires Large(s) && Large(t) && ComputeTreeIndex(s) < ComputeTreeIndex(t)
    ensures s < t
  {
    hide ComputeTreeIndex;
    if t <= s {
      TreeIndexMono(t, s);
    }
  }

  /** With no subtree left, nothing in the bins beats the best chunk seen. */
  lemma NothingLeft(node: Nodes, bins: seq<Addr>, depth: map<Addr, nat>, rank: Ranks, nb: nat, rsize: nat)
    requires TrieOK(node, bins, depth) && RingsOK(node, rank) && AllCovered(node, depth, nb, rsize, 0)
    ensures forall p | p in node && node[p].size >= nb :: rsize <= node[p].size - nb
  {
    hide NodeOK, BinOK, Unique, RingOK, Under;
    forall p | p in node && node[p].size >= nb ensures rsize <= node[p].size - nb {
      var n, h := ReachesHead(node, rank, p);
      assert Covered(node, depth, nb, rsize, 0, h);
      if 0 in node {
        NotNull(node, bins, depth, 0);
      }
    }
  }

  /** The lowest marked bin is the lowest non-empty one. */
  lemma LowestBin(node: Nodes, bins: seq<Addr>, treemap: BinMap.Bits, depth: map<Addr, nat>, i: nat)
    requires TrieOK(node, bins, depth) && MapOK(treemap, bins) && i < NTREEBINS
    requires forall j: nat | j < i :: !BinMap.Marked(treemap, j)
    ensures forall q | Head(node, q) :: node[q].index >= i
  {
    hide Prefix, Dir, Width, Large, ComputeTreeIndex, Unique, ParentOK, ChildOK, Under;
    forall q | Head(node, q) ensures node[q].index >= i {
      TrieNode(node, bins, depth, q);
      RootExists(node, bins, depth, q);
      MapRead(treemap, bins, node[q].index);
    }
  }

  // ----- The descent of `tmalloc_large` through the bin of the request -----

  predicate Ptr(node: Nodes, depth: map<Addr, nat>, i: nat, t: Addr)
  {
    t == 0 || (Head(node, t) && t in depth && node[t].index == i && depth[t] <= 64)
  }

  /** The path to `t` is the path of the request. */
  predicate AlongPath(node: Nodes, depth: map<Addr, nat>, i: nat, nb: nat, t: Addr)
  {
    nb < INDEX_LIMIT && t != 0 ==>
        t in node && t in depth && Prefix(i, nb, depth[t]) == Prefix(i, node[t].size, depth[t])
  }

  /** Everything below `t` is smaller than everything below `r`. */
  ghost predicate Above(node: Nodes, depth: map<Addr, nat>, t: Addr, r: Addr)
  {
    Head(node, t) && t in depth && Head(node, r) && r in depth ==>
      forall p, q | p in node && q in node && Under(node, depth, t, p) && Under(node, depth, r, q) ::
        node[p].size < node[q].size
  }

  /** `q` is no better than what was seen, or below `t`, or below the deepest untaken right subtree `rst`,
      or larger than `rst`. */
  ghost predicate Within(node: Nodes, depth: map<Addr, nat>, nb: nat, rsize: nat, t: Addr, rst: Addr, q: Addr)
    requires q in node
  {
    || Beaten(node, nb, rsize, q)
    || (Head(node, t) && t in depth && Under(node, depth, t, q))
    || (Head(node, rst) && rst in depth && (Under(node, depth, rst, q) || node[rst].size < node[q].size))
  }

  ghost predicate AllWithin(node: Nodes, depth: map<Addr, nat>, i: nat, nb: nat, rsize: nat, t: Addr, rst: Addr)
  {
    forall q {:trigger Head(node, q)} | Head(node, q) && node[q].index == i :: Within(node, depth, nb, rsize, t, rst, q)
  }

  ghost predicate Descending(node: Nodes, depth: map<Addr, nat>, i: nat, nb: nat, rsize: nat, t: Addr, rst: Addr)
  {
    && Ptr(node, depth, i, t) && Ptr(node, depth, i, rst) && AlongPath(node, depth, i, nb, t)
    && Above(node, depth, t, rst) && Fitting(node, depth, nb, 1, rst) && AllWithin(node, depth, i, nb, rsize, t, rst)
  }

  /** The next values of `t` and `rst`. */
  function NextRst(n: Node, b: nat, rst: Addr): Addr
  {
    if n.right != 0 && n.right != n.Child(b) then n.right else rst
  }

  lemma DescentStep(node: Nodes, bins: seq<Addr>, depth: map<Addr, nat>, i: nat, nb: nat, rsize: nat, t: Addr,
      rst: Addr, b: nat)
    requires TrieOK(node, bins, depth) && t != 0 && Descending(node, depth, i, nb, rsize, t, rst)
    requires Beaten(node, nb, rsize, t)
    requires b < 2 && (nb < INDEX_LIMIT ==> b == Dir(i, nb, depth[t]))
    ensures var c := node[t].Child(b);
            Descending(node, depth, i, nb, rsize, c, NextRst(node[t], b, rst))
              && (c != 0 ==> c in depth && depth[c] == depth[t] + 1)
  {
    hide Prefix, Dir, Width, ComputeTreeIndex, TrieOK, NodeOK, Under, Above, Fitting, Within, Beaten;
    var c, rst' := node[t].Child(b), NextRst(node[t], b, rst);
    UnderSelf(node, depth, t);
    ChildPtr(node, bins, depth, i, nb, t, b);
    if rst' != rst {
      RightPtr(node, bins, depth, i, nb, t, b);
    } else if c != 0 {
      AboveBelow(node, bins, depth, t, c, rst);
    } else {
      NullAbove(node, bins, depth, rst);
    }
    forall q | Head(node, q) && node[q].index == i ensures Within(node, depth, nb, rsize, c, rst', q) {
      WithinStep(node, bins, depth, i, nb, rsize, t, rst, b, q);
    }
  }

  lemma ChildPtr(node: Nodes, bins: seq<Addr>, depth: map<Addr, nat>, i: nat, nb: nat, t: Addr, b: nat)
    requires TrieOK(node, bins, depth) && Head(node, t) && t in depth && node[t].index == i
    requires AlongPath(node, depth, i, nb, t) && t != 0
    requires b < 2 && (nb < INDEX_LIMIT ==> b == Dir(i, nb, depth[t]))
    ensures var c := node[t].Child(b);
            Ptr(node, depth, i, c) && AlongPath(node, depth, i, nb, c)
            && (c != 0 ==> depth[c] == depth[t] + 1 && Under(node, depth, t, c) && depth[c] <= Width(i))
  {
    hide Prefix, Dir, Width, Large, ComputeTreeIndex, Unique;
    var c := node[t].Child(b);
    if c != 0 {
      UnderSelf(node, depth, t);
      ChildUnder(node, bins, depth, t, t, b);
      TrieNode(node, bins, depth, t);
      assert ChildOK(node, depth, t, b);
      if nb < INDEX_LIMIT {
        ChildPrefix(node, bins, depth, t, c, nb);
      }
    }
  }

  /** A right subtree left aside holds only sizes above the request, and above the left subtree. */
  lemma RightPtr(node: Nodes, bins: seq<Addr>, depth: map<Addr, nat>, i: nat, nb: nat, t: Addr, b: nat)
    requires TrieOK(node, bins, depth) && Head(node, t) && t in depth && node[t].index == i
    requires AlongPath(node, depth, i, nb, t) && t != 0
    requires b < 2 && (nb < INDEX_LIMIT ==> b == Dir(i, nb, depth[t])) && node[t].right != 0
    requires node[t].right != node[t].Child(b)
    ensures Ptr(node, depth, i, node[t].right) && Under(node, depth, t, node[t].right)
    ensures Fitting(node, depth, nb, 1, node[t].right)
    ensures Above(node, depth, node[t].Child(b), node[t].right)
  {
    hide Prefix, Dir, Width, Large, ComputeTreeIndex, Unique, TrieOK, Under;
    var r, d := node[t].right, depth[t];
    UnderSelf(node, depth, t);
    ChildUnder(node, bins, depth, t, t, 1);
    UnderHead(node, depth, t, r);
    UnderSelf(node, depth, r);
    forall p | p in node && Under(node, depth, r, p)
      ensures Under(node, depth, t, p) && Dir(i, node[p].size, d) == 1 && d < Width(i) {
      UnderRight(node, bins, depth, t, p);
    }
    if nb < INDEX_LIMIT {
      forall p | p in node && Under(node, depth, r, p) ensures node[p].size >= nb {
        UnderPrefix(node, depth, t, p);
        LeftBelowRight(i, nb, node[p].size, d);
      }
    }
    var c := node[t].Child(b);
    assert c == node[t].left;
    forall p, q | Head(node, c) && c in depth && p in node && q in node && Under(node, depth, c, p)
      && Under(node, depth, r, q) ensures node[p].size < node[q].size {
      NotNull(node, bins, depth, c);
      RightAboveLeft(node, bins, depth, t, p, q);
    }
  }

  lemma UnderPrefix(node: Nodes, depth: map<Addr, nat>, t: Addr, p: Addr)
    requires Head(node, t) && t in depth && Under(node, depth, t, p)
    ensures Prefix(node[t].index, node[p].size, depth[t]) == Prefix(node[t].index, node[t].size, depth[t])
  {
  }

  lemma UnderRight(node: Nodes, bins: seq<Addr>, depth: map<Addr, nat>, t: Addr, p: Addr)
    requires TrieOK(node, bins, depth) && Head(node, t) && t in depth && node[t].right != 0 && Head(node, node[t].right)
    requires node[t].right in depth
    requires Under(node, depth, node[t].right, p)
    ensures Under(node, depth, t, p) && Dir(node[t].index, node[p].size, depth[t]) == 1
    ensures depth[t] < Width(node[t].index)
  {
    hide Prefix, Dir, Width, Large, ComputeTreeIndex, Unique;
    var r := node[t].right;
    UnderSelf(node, depth, t);
    ChildUnder(node, bins, depth, t, t, 1);
    UnderTrans(node, bins, depth, t, r, p);
    TrieNode(node, bins, depth, t);
    assert ChildOK(node, depth, t, 1);
    TrieNode(node, bins, depth, r);
    SameDir(node[t].index, node[p].size, node[r].size, depth[t]);
  }

  lemma AboveBelow(node: Nodes, bins: seq<Addr>, depth: map<Addr, nat>, t: Addr, c: Addr, rst: Addr)
    requires Head(node, t) && t in depth && Above(node, depth, t, rst) && Head(node, c) && c in depth
    requires Under(node, depth, t, c)
    requires depth[c] <= Width(node[t].index)
    ensures Above(node, depth, c, rst)
  {
    hide Under, Width;
    forall p | p in node && Under(node, depth, c, p) ensures Under(node, depth, t, p) {
      UnderTrans(node, bins, depth, t, c, p);
    }
  }

  lemma NullAbove(node: Nodes, bins: seq<Addr>, depth: map<Addr, nat>, rst: Addr)
    requires TrieOK(node, bins, depth)
    ensures Above(node, depth, 0, rst) && Above(node, depth, rst, 0) && !Head(node, 0)
  {
    hide Under, TrieOK;
    if 0 in node {
      NotNull(node, bins, depth, 0);
    }
  }

  lemma WithinStep(node: Nodes, bins: seq<Addr>, depth: map<Addr, nat>, i: nat, nb: nat, rsize: nat, t: Addr, rst: Addr,
      b: nat, q: Addr)
    requires TrieOK(node, bins, depth) && t != 0 && Descending(node, depth, i, nb, rsize, t, rst)
    requires Beaten(node, nb, rsize, t)
    requires b < 2 && (nb < INDEX_LIMIT ==> b == Dir(i, nb, depth[t])) && Head(node, q) && node[q].index == i
    ensures Within(node, depth, nb, rsize, node[t].Child(b), NextRst(node[t], b, rst), q)
  {
    hide Prefix, Dir, Width, ComputeTreeIndex, TrieOK, Under, Above, Fitting, ParentOK, ChildOK;
    assert Within(node, depth, nb, rsize, t, rst, q);
    TrieNode(node, bins, depth, q);
    if Beaten(node, nb, rsize, q) {
    } else if Under(node, depth, t, q) {
      Descend(node, bins, depth, t, q);
      DirBit(i, node[q].size, depth[t]);
      NotNull(node, bins, depth, node[t].Child(Dir(i, node[q].size, depth[t])));
      if Dir(i, node[q].size, depth[t]) != b {
        WithinSide(node, bins, depth, i, nb, t, b, q);
      }
    } else if NextRst(node[t], b, rst) != rst {
      RightPtr(node, bins, depth, i, nb, t, b);
      WithinRst(node, depth, t, rst, node[t].right, q);
    }
  }

  /** A fitting chunk on the other side than the request's is in the right subtree left aside. */
  lemma WithinSide(node: Nodes, bins: seq<Addr>, depth: map<Addr, nat>, i: nat, nb: nat, t: Addr, b: nat, q: Addr)
    requires TrieOK(node, bins, depth) && Head(node, t) && t in depth && node[t].index == i
    requires AlongPath(node, depth, i, nb, t) && t != 0
    requires nb < INDEX_LIMIT && b == Dir(i, nb, depth[t]) && b < 2 && q in node && Under(node, depth, t, q)
    requires node[q].size >= nb
    requires Dir(i, node[q].size, depth[t]) != b && depth[t] < Width(i)
    requires node[t].Child(Dir(i, node[q].size, depth[t])) != 0
    ensures b == 0 && Dir(i, node[q].size, depth[t]) == 1 && node[t].right != node[t].left
  {
    hide Prefix, Dir, Width, Large, ComputeTreeIndex, Unique;
    DirBit(i, node[q].size, depth[t]);
    if b == 1 {
      LeftBelowRight(i, node[q].size, nb, depth[t]);
    }
    TrieNode(node, bins, depth, t);
    assert ChildOK(node, depth, t, 0) && ChildOK(node, depth, t, 1);
  }

  lemma WithinRst(node: Nodes, depth: map<Addr, nat>, t: Addr, rst: Addr, r: Addr, q: Addr)
    requires Head(node, t) && t in depth && Above(node, depth, t, rst) && Head(node, rst) && rst in depth && q in node
    requires r in node && Under(node, depth, t, r) && (Under(node, depth, rst, q) || node[rst].size < node[q].size)
    ensures node[r].size < node[q].size
  {
    hide Under;
    UnderSelf(node, depth, rst);
  }

  lemma SignBitBound(k: nat)
    requires k < Pow2(64)
    ensures SignBit(k) < 2
  {
    hide Pow2;
    Pow2Double(63);
    DivUnique(k, Pow2(63), if k < Pow2(63) then 0 else 1, if k < Pow2(63) then k else k - Pow2(63));
  }

  lemma DescentStart(node: Nodes, bins: seq<Addr>, depth: map<Addr, nat>, i: nat, nb: nat)
    requires TrieOK(node, bins, depth) && MIN_LARGE_SIZE <= nb < SIZE_MODULUS && i == ComputeTreeIndex(nb)
    requires bins[i] != 0
    ensures Descending(node, depth, i, nb, SIZE_MODULUS - nb, bins[i], 0) && bins[i] in depth && depth[bins[i]] == 0
  {
    hide Prefix, Dir, Width, ComputeTreeIndex, Unique, ParentOK, ChildOK, TrieOK, Beaten, Under;
    RootUnder(node, bins, depth, i);
    TrieBins(node, bins, depth);
    var t := bins[i];
    TrieNode(node, bins, depth, t);
    if nb < INDEX_LIMIT {
      SameBinSamePrefix(nb, node[t].size, i);
    }
    NullAbove(node, bins, depth, t);
    NullFits(node, bins, depth, nb, 1);
    forall q | Head(node, q) && node[q].index == i ensures Within(node, depth, nb, SIZE_MODULUS - nb, t, 0, q) {
      RootExists(node, bins, depth, q);
    }
  }

  /** Before the step at `t`: the sign bit of the register is the side on which the request lies. */
  lemma DescentSide(node: Nodes, bins: seq<Addr>, depth: map<Addr, nat>, i: nat, nb: nat, t: Addr, k: nat)
    requires TrieOK(node, bins, depth) && Head(node, t) && t in depth && node[t].index == i < NTREEBINS
    requires AlongPath(node, depth, i, nb, t)
    requires node[t].size != nb && k == SizeBits(i, nb, depth[t]) && t != 0
    ensures SignBit(k) < 2 && (nb < INDEX_LIMIT ==> SignBit(k) == Dir(i, nb, depth[t]))
  {
    hide Prefix, Dir, Width, Large, ComputeTreeIndex, Unique, ChildOK, Pow2, SignBit;
    TrieNode(node, bins, depth, t);
    SignBitBound(k);
    if nb < INDEX_LIMIT {
      DepthBound(i, nb, node[t].size, depth[t]);
      SignIsDir(i, nb, depth[t]);
    }
  }

  lemma LowerWithin(node: Nodes, depth: map<Addr, nat>, i: nat, nb: nat, rsize: nat, rsize': nat, t: Addr, rst: Addr)
    requires Descending(node, depth, i, nb, rsize, t, rst) && rsize' <= rsize
    ensures Descending(node, depth, i, nb, rsize', t, rst)
  {
    hide Under, Above, Fitting, AlongPath;
    forall q | Head(node, q) && node[q].index == i ensures Within(node, depth, nb, rsize', t, rst, q) {
      assert Within(node, depth, nb, rsize, t, rst, q);
    }
  }

  lemma DescendingAt(node: Nodes, depth: map<Addr, nat>, i: nat, nb: nat, rsize: nat, t: Addr, rst: Addr)
    requires Descending(node, depth, i, nb, rsize, t, rst)
    ensures t != 0 ==>
              Head(node, t) && t in depth && node[t].index == i && depth[t] <= 64 && AlongPath(node, depth, i, nb, t)
    ensures Ptr(node, depth, i, rst)
  {
    hide Under, Above, AllWithin, Fitting;
  }

  /** Every chunk of bin `i` is covered by `t`. */
  ghost predicate BinCovered(node: Nodes, depth: map<Addr, nat>, i: nat, nb: nat, rsize: nat, t: Addr)
  {
    forall q {:trigger Head(node, q)} | Head(node, q) && node[q].index == i :: Covered(node, depth, nb, rsize, t, q)
  }

  lemma DescentEnd(node: Nodes, bins: seq<Addr>, depth: map<Addr, nat>, i: nat, nb: nat, rsize: nat, rst: Addr)
    requires TrieOK(node, bins, depth) && Descending(node, depth, i, nb, rsize, 0, rst)
    ensures BinCovered(node, depth, i, nb, rsize, rst) && Fitting(node, depth, nb, rsize, rst)
  {
    hide Under, Above, TrieOK, AlongPath;
    NullAbove(node, bins, depth, rst);
    forall q | Head(node, q) && node[q].index == i ensures Covered(node, depth, nb, rsize, rst, q) {
      assert Within(node, depth, nb, rsize, 0, rst, q);
    }
  }

  lemma PerfectFit(node: Nodes, depth: map<Addr, nat>, i: nat, nb: nat, t: Addr)
    ensures BinCovered(node, depth, i, nb, 0, t) && Fitting(node, depth, nb, 0, t)
  {
  }

  /** The descent itself, from the root of the request's bin. */
  method SearchBin(node: Nodes, bins: seq<Addr>, nb: nat, i: nat, ghost depth: map<Addr, nat>)
    returns (t: Addr, v: Addr, rsize: nat)
    requires TrieOK(node, bins, depth) && MIN_LARGE_SIZE <= nb < SIZE_MODULUS && i == ComputeTreeIndex(nb)
    ensures Ptr(node, depth, i, t) && Best(node, nb, v, rsize) && (v != 0 ==> node[v].index == i)
    ensures BinCovered(node, depth, i, nb, rsize, t) && Fitting(node, depth, nb, rsize, t)
  {
    hide TrieOK, Under, Above, Within, Covered, BinCovered, AllWithin, Fitting, Prefix, Dir, Width, ComputeTreeIndex,
         Rem, Best, AlongPath, SignBit, SizeBits, ShiftedLeft, NextRst, Beaten, Large, Descending;
    TrieBins(node, bins, depth);
    t, v, rsize := bins[i], 0, SIZE_MODULUS - nb;
    NoneYet(node, nb);
    if t == 0 {
      EmptyBinCovered(node, bins, depth, i, nb, rsize);
      return;
    }
    var rst: Addr := 0;
    var sizebits := SizeBits(i, nb, 0);
    DescentStart(node, bins, depth, i, nb);
    AllLarge(node, bins, depth);
    while true
      invariant t != 0 && t in depth && depth[t] <= 64 && rsize != 0
      invariant Descending(node, depth, i, nb, rsize, t, rst) && sizebits == SizeBits(i, nb, depth[t])
      invariant Best(node, nb, v, rsize) && (v != 0 ==> v in node && node[v].index == i)
      decreases 64 - depth[t]
    {
      DescendingAt(node, depth, i, nb, rsize, t, rst);
      WrapNeverBetter(node, nb, v, rsize, t);
      LargeFits(node[t].size);
      var trem := Rem(node[t].size, nb);
      if trem < rsize {
        LowerWithin(node, depth, i, nb, rsize, trem, t, rst);
        v, rsize := t, trem;
        if rsize == 0 {
          PerfectFit(node, depth, i, nb, t);
          return;
        }
      }
      NotPerfect(node, nb, rsize, t);
      DescentSide(node, bins, depth, i, nb, t, sizebits);
      var b := SignBit(sizebits);
      DescentStep(node, bins, depth, i, nb, rsize, t, rst, b);
      SizeBitsShift(i, nb, depth[t]);
      rst := NextRst(node[t], b, rst);
      t := node[t].Child(b);
      DescendingAt(node, depth, i, nb, rsize, t, rst);
      if t == 0 {
        DescentEnd(node, bins, depth, i, nb, rsize, rst);
        t := rst;
        return;
      }
      sizebits := ShiftedLeft(sizebits);
    }
  }

  lemma NoneYet(node: Nodes, nb: nat)
    requires nb < SIZE_MODULUS
    ensures Best(node, nb, 0, SIZE_MODULUS - nb)
  {
  }

  lemma LargeFits(s: nat)
    requires Large(s)
    ensures MIN_LARGE_SIZE <= s < SIZE_MODULUS
  {
  }

  lemma NotPerfect(node: Nodes, nb: nat, rsize: nat, t: Addr)
    requires t in node && Beaten(node, nb, rsize, t) && rsize != 0
    ensures node[t].size != nb
  {
  }

  lemma EmptyBinCovered(node: Nodes, bins: seq<Addr>, depth: map<Addr, nat>, i: nat, nb: nat, rsize: nat)
    requires TrieOK(node, bins, depth) && i < NTREEBINS && bins[i] == 0
    ensures BinCovered(node, depth, i, nb, rsize, 0) && Fitting(node, depth, nb, rsize, 0)
  {
    hide Under, TrieOK;
    NullFits(node, bins, depth, nb, rsize);
    if exists q :: Head(node, q) && node[q].index == i {
      var q :| Head(node, q) && node[q].index == i;
      RootExists(node, bins, depth, q);
    }
  }

  /** After the request's own bin: chunks of lower bins are too small, those of higher bins larger. */
  lemma OwnBinCovers(node: Nodes, bins: seq<Addr>, depth: map<Addr, nat>, i: nat, nb: nat, rsize: nat, t: Addr, v: Addr)
    requires TrieOK(node, bins, depth) && MIN_LARGE_SIZE <= nb < SIZE_MODULUS && i == ComputeTreeIndex(nb)
    requires BinCovered(node, depth, i, nb, rsize, t) && Ptr(node, depth, i, t) && Best(node, nb, v, rsize)
    requires (v != 0 ==> node[v].index == i)
    requires t != 0 || v != 0
    ensures AllCovered(node, depth, nb, rsize, t)
  {
    hide Prefix, Dir, Width, ComputeTreeIndex, Unique, ParentOK, ChildOK, Under, TrieOK;
    forall q | Head(node, q) ensures Covered(node, depth, nb, rsize, t, q) {
      TrieNode(node, bins, depth, q);
      if node[q].index == i {
        assert Covered(node, depth, nb, rsize, t, q);
      } else if nb < INDEX_LIMIT {
        if node[q].index < i {
          LowerBinSmaller(node[q].size, nb);
        } else {
          var p := if t != 0 then t else v;
          TrieNode(node, bins, depth, p);
          LowerBinSmaller(node[p].size, node[q].size);
        }
      }
    }
  }

  lemma LowerBinsBeaten(node: Nodes, bins: seq<Addr>, depth: map<Addr, nat>, i: nat, nb: nat, rsize: nat, q: Addr)
    requires TrieOK(node, bins, depth) && MIN_LARGE_SIZE <= nb < SIZE_MODULUS && i == ComputeTreeIndex(nb)
    requires BinCovered(node, depth, i, nb, rsize, 0) && Head(node, q) && node[q].index <= i
    ensures Beaten(node, nb, rsize, q)
  {
    hide Prefix, Dir, Width, ComputeTreeIndex, Unique, ParentOK, ChildOK, Under, TrieOK;
    TrieNode(node, bins, depth, q);
    if node[q].index == i {
      assert Covered(node, depth, nb, rsize, 0, q);
      NullAbove(node, bins, depth, q);
    } else if nb < INDEX_LIMIT {
      LowerBinSmaller(node[q].size, nb);
    }
  }

  /** When the request's bin has nothing: the next marked bin, all of which fits, or no chunk at all. */
  method NextBin(node: Nodes, bins: seq<Addr>, treemap: BinMap.Bits, nb: nat, i: nat, rsize: nat, ghost depth: map<Addr,
      nat>)
    returns (t: Addr)
    requires TrieOK(node, bins, depth) && MapOK(treemap, bins) && MIN_LARGE_SIZE <= nb < SIZE_MODULUS
    requires i == ComputeTreeIndex(nb)
    requires BinCovered(node, depth, i, nb, rsize, 0)
    ensures t != 0 ==> Head(node, t) && t in depth && depth[t] <= 64
    ensures AllCovered(node, depth, nb, rsize, t) && Fitting(node, depth, nb, rsize, t)
  {
    hide TrieOK, MapOK, Covered, BinCovered, AllCovered, Fitting, ComputeTreeIndex, Beaten, Under, NodeOK;
    var leftbits := BinMap.LeftBits(BinMap.Bit(i)) & treemap;
    forall q | Head(node, q) && node[q].index <= i ensures Beaten(node, nb, rsize, q) {
      LowerBinsBeaten(node, bins, depth, i, nb, rsize, q);
    }
    forall q | Head(node, q) && node[q].index > i
      ensures node[q].index < NTREEBINS && BinMap.Marked(leftbits, node[q].index) {
      HigherBinMarked(node, bins, treemap, depth, i, q);
    }
    if leftbits != 0 {
      BinMap.LeastBitIndex(leftbits);
      var j := BinMap.CountTrailing(BinMap.LeastBit(leftbits));
      BinMap.LeftBitsAbove(treemap, i, j);
      MapRead(treemap, bins, j);
      t := bins[j];
      RootUnder(node, bins, depth, j);
      RootCovers(node, bins, depth, nb, rsize, j);
      HigherBinFits(node, bins, depth, nb, rsize, j);
    } else {
      t := 0;
      NullFits(node, bins, depth, nb, rsize);
      NoHigherBin(node, bins, depth, nb, rsize, i);
    }
  }

  lemma HigherBinMarked(node: Nodes, bins: seq<Addr>, treemap: BinMap.Bits, depth: map<Addr, nat>, i: nat, q: Addr)
    requires TrieOK(node, bins, depth) && MapOK(treemap, bins) && Head(node, q) && i < node[q].index
    ensures node[q].index < NTREEBINS && BinMap.Marked(BinMap.LeftBits(BinMap.Bit(i)) & treemap, node[q].index)
  {
    hide TrieOK, MapOK, Under;
    RootExists(node, bins, depth, q);
    MapRead(treemap, bins, node[q].index);
    BinMap.LeftBitsAbove(treemap, i, node[q].index);
  }

  lemma HigherBinFits(node: Nodes, bins: seq<Addr>, depth: map<Addr, nat>, nb: nat, rsize: nat, j: nat)
    requires TrieOK(node, bins, depth) && MIN_LARGE_SIZE <= nb < SIZE_MODULUS && ComputeTreeIndex(nb) < j < NTREEBINS
    requires bins[j] != 0
    ensures Fitting(node, depth, nb, rsize, bins[j])
  {
    hide TrieOK, Prefix, ComputeTreeIndex, ParentOK, ChildOK;
    RootUnder(node, bins, depth, j);
    TrieBins(node, bins, depth);
    if nb < INDEX_LIMIT {
      forall r | r in node && Under(node, depth, bins[j], r) ensures node[r].size >= nb {
        TrieNode(node, bins, depth, r);
        LowerBinSmaller(nb, node[r].size);
      }
    }
  }

  lemma NoHigherBin(node: Nodes, bins: seq<Addr>, depth: map<Addr, nat>, nb: nat, rsize: nat, i: nat)
    requires forall q | Head(node, q) && node[q].index <= i :: Beaten(node, nb, rsize, q)
    requires forall q | Head(node, q) && node[q].index > i ::
             node[q].index < NTREEBINS && BinMap.Marked(0, node[q].index)
    ensures AllCovered(node, depth, nb, rsize, 0)
  {
    hide BinMap.Marked, Beaten, Under;
    forall q | Head(node, q) ensures Covered(node, depth, nb, rsize, 0, q) {
      if node[q].index > i {
        BinMap.NoneMarked(node[q].index);
      }
    }
  }

  /** `tmalloc_large` up to the comparison with dv: the least chunk of all bins that is large enough. */
  method FindLeast(node: Nodes, bins: seq<Addr>, treemap: BinMap.Bits, nb: nat, ghost depth: map<Addr, nat>,
      ghost rank: Ranks)
    returns (v: Addr, rsize: nat)
    requires BinsOK(node, bins, treemap, depth, rank) && MIN_LARGE_SIZE <= nb < SIZE_MODULUS
    ensures if v == 0 then rsize == SIZE_MODULUS - nb && forall p | p in node :: node[p].size < nb
            else v in node && node[v].size == nb + rsize && forall p | p in node && node[p].size >= nb ::
              node[v].size <= node[p].size
  {
    hide TrieOK, RingsOK, MapOK, BinCovered, AllCovered, Fitting, ComputeTreeIndex;
    var idx := ComputeTreeIndex(nb);
    var t;
    t, v, rsize := SearchBin(node, bins, nb, idx, depth);
    if t == 0 && v == 0 {
      t := NextBin(node, bins, treemap, nb, idx, rsize, depth);
    } else {
      OwnBinCovers(node, bins, depth, idx, nb, rsize, t, v);
    }
    v, rsize := ScanLeftmost(node, bins, nb, t, v, rsize, depth, rank);
    AllLarge(node, bins, depth);
  }
}
