/** The tree bins as values: nodes linked by addresses, the invariant of the tries, and what each of
    the link updates keeps. */
module Trie {
  import opened TreeIndex
  import opened TriePath

  /** A chunk's address; 0 is the null pointer. */
  type Addr = nat

  /** `parent`: null for a chained chunk, the bin slot for a root. */
  datatype Parent = Orphan | AtBin(bin: nat) | AtNode(at: Addr)

  /** The words of a `malloc_tree_chunk` that the bins use, with the size its head word holds. */
  datatype Node = Node(size: nat, index: nat, fd: Addr, bk: Addr, left: Addr, right: Addr, parent: Parent)
  {
    /** `child[b]` */
    function Child(b: nat): Addr
    {
      if b == 0 then left else right
    }

    function WithChild(b: nat, c: Addr): Node
    {
      if b == 0 then this.(left := c) else this.(right := c)
    }
  }

  type Nodes = map<Addr, Node>

  predicate Head(node: Nodes, p: Addr)
  {
    p in node && node[p].parent != Orphan
  }

  // ----- The trie of heads -----

  predicate SizeOK(n: Node)
  {
    Large(n.size) && n.index == ComputeTreeIndex(n.size) && n.index < NTREEBINS
  }

  /** The link from above holds `p` at the side its size says, with the path so far agreeing. */
  predicate ParentOK(node: Nodes, bins: seq<Addr>, depth: map<Addr, nat>, p: Addr)
    requires Head(node, p) && |bins| == NTREEBINS
  {
    var n := node[p];
    p in depth && n.index < NTREEBINS && depth[p] <= Width(n.index) &&
    match n.parent
    case AtBin(i) => i == n.index && bins[i] == p && depth[p] == 0
    case AtNode(q) =>
      && Head(node, q) && q in depth && node[q].index == n.index && depth[p] == depth[q] + 1
      && Prefix(n.index, n.size, depth[q]) == Prefix(n.index, node[q].size, depth[q])
      && node[q].Child(Dir(n.index, n.size, depth[q])) == p
  }

  predicate ChildOK(node: Nodes, depth: map<Addr, nat>, p: Addr, b: nat)
    requires p in node && p in depth
  {
    var c := node[p].Child(b);
    c == 0 || (c in node && node[c].parent == AtNode(p) && Dir(node[c].index, node[c].size, depth[p]) == b)
  }

  predicate NodeOK(node: Nodes, bins: seq<Addr>, depth: map<Addr, nat>, p: Addr)
    requires p in node && |bins| == NTREEBINS
  {
    p != 0 && SizeOK(node[p]) &&
    if Head(node, p) then
      ParentOK(node, bins, depth, p) && ChildOK(node, depth, p, 0) && ChildOK(node, depth, p, 1)
    else node[p].left == node[p].right == 0
  }

  predicate BinOK(node: Nodes, bins: seq<Addr>, i: nat)
    requires i < |bins|
  {
    bins[i] == 0 || (bins[i] in node && node[bins[i]].parent == AtBin(i))
  }

  predicate SamePlace(node: Nodes, depth: map<Addr, nat>, p: Addr, q: Addr)
    requires Head(node, p) && Head(node, q) && p in depth && q in depth
  {
    && node[p].index == node[q].index && depth[p] == depth[q]
    && Prefix(node[p].index, node[p].size, depth[p]) == Prefix(node[p].index, node[q].size, depth[p])
  }

  predicate Unique(node: Nodes, depth: map<Addr, nat>)
  {
    forall p, q {:trigger SamePlace(node, depth, p, q)} | Head(node, p) && Head(node, q) && p in depth && q in depth
      && SamePlace(node, depth, p, q) :: p == q
  }

  predicate TrieOK(node: Nodes, bins: seq<Addr>, depth: map<Addr, nat>)
  {
    && |bins| == NTREEBINS
    && (forall p {:trigger NodeOK(node, bins, depth, p)} | p in node :: NodeOK(node, bins, depth, p))
    && (forall i: nat {:trigger BinOK(node, bins, i)} | i < NTREEBINS :: BinOK(node, bins, i))
    && Unique(node, depth)
  }

  /** Heads at or below `t`: those whose path runs through `t`'s place. */
  predicate Under(node: Nodes, depth: map<Addr, nat>, t: Addr, q: Addr)
    requires Head(node, t) && t in depth
  {
    && Head(node, q) && q in depth && node[q].index == node[t].index && depth[t] <= depth[q]
    && Prefix(node[t].index, node[q].size, depth[t]) == Prefix(node[t].index, node[t].size, depth[t])
  }

  /** A head has an ancestor at every depth above it. */
  lemma {:induction false} Ancestor(node: Nodes, bins: seq<Addr>, depth: map<Addr, nat>, p: Addr, k: nat)
    returns (a: Addr)
    requires TrieOK(node, bins, depth) && Head(node, p) && p in depth && k <= depth[p]
    ensures Head(node, a) && a in depth && depth[a] == k && node[a].index == node[p].index
    ensures Prefix(node[p].index, node[a].size, k) == Prefix(node[p].index, node[p].size, k)
    decreases depth[p]
  {
    hide Prefix, Dir, Width, Large, ComputeTreeIndex, Unique;
    assert NodeOK(node, bins, depth, p);
    if k == depth[p] {
      a := p;
    } else {
      var q := node[p].parent.at;
      a := Ancestor(node, bins, depth, q, k);
      assert NodeOK(node, bins, depth, q);
      PrefixShorter(node[p].index, node[p].size, node[q].size, k, depth[q]);
    }
  }

  /** A bin with a head has a root. */
  lemma RootExists(node: Nodes, bins: seq<Addr>, depth: map<Addr, nat>, p: Addr)
    requires TrieOK(node, bins, depth) && Head(node, p)
    ensures node[p].index < NTREEBINS && bins[node[p].index] != 0
    ensures var r := bins[node[p].index]; Head(node, r) && r in depth && depth[r] == 0 && Under(node, depth, r, p)
  {
    hide Prefix, Dir, Width, ComputeTreeIndex, Large, Unique;
    assert NodeOK(node, bins, depth, p);
    var a := Ancestor(node, bins, depth, p, 0);
    assert NodeOK(node, bins, depth, a);
    assert node[a].parent == AtBin(node[p].index);
  }

  lemma RootUnder(node: Nodes, bins: seq<Addr>, depth: map<Addr, nat>, i: nat)
    requires TrieOK(node, bins, depth) && i < NTREEBINS && bins[i] != 0
    ensures var r := bins[i]; Head(node, r) && r in depth && depth[r] == 0 && node[r].index == i
  {
    hide Prefix, Dir, Width, ComputeTreeIndex, Large, Unique;
    assert BinOK(node, bins, i);
    assert NodeOK(node, bins, depth, bins[i]);
  }

  /** What lies under a node is the node itself or lies under the child on its path. */
  lemma Descend(node: Nodes, bins: seq<Addr>, depth: map<Addr, nat>, t: Addr, q: Addr)
    requires TrieOK(node, bins, depth) && Head(node, t) && t in depth && Under(node, depth, t, q) && q != t
    ensures depth[t] < Width(node[t].index)
    ensures var c := node[t].Child(Dir(node[t].index, node[q].size, depth[t]));
            Head(node, c) && c in depth && depth[c] == depth[t] + 1 && Under(node, depth, c, q)
  {
    hide Prefix, Dir, Width, ComputeTreeIndex, Large, Unique, NodeOK;
    if depth[q] == depth[t] {
      assert SamePlace(node, depth, t, q);
      UniquePlace(node, bins, depth, t, q);
    } else {
      var a := Ancestor(node, bins, depth, q, depth[t] + 1);
      AncestorIsChild(node, bins, depth, t, q, a);
    }
  }

  lemma UniquePlace(node: Nodes, bins: seq<Addr>, depth: map<Addr, nat>, p: Addr, q: Addr)
    requires TrieOK(node, bins, depth) && Head(node, p) && Head(node, q) && p in depth && q in depth
    requires SamePlace(node, depth, p, q)
    ensures p == q
  {
  }

  lemma AncestorIsChild(node: Nodes, bins: seq<Addr>, depth: map<Addr, nat>, t: Addr, q: Addr, a: Addr)
    requires TrieOK(node, bins, depth) && Head(node, t) && t in depth && Under(node, depth, t, q) && depth[t] < depth[q]
    requires Head(node, a) && a in depth && depth[a] == depth[t] + 1 && node[a].index == node[q].index
    requires Prefix(node[q].index, node[a].size, depth[a]) == Prefix(node[q].index, node[q].size, depth[a])
    ensures depth[t] < Width(node[t].index)
    ensures node[t].Child(Dir(node[t].index, node[q].size, depth[t])) == a && Under(node, depth, a, q)
  {
    hide Prefix, Dir, Width, ComputeTreeIndex, Large, Unique, ChildOK;
    assert NodeOK(node, bins, depth, a);
    var i, d := node[t].index, depth[t];
    var b := node[a].parent.at;
    PrefixShorter(i, node[a].size, node[q].size, d, d + 1);
    SameDir(i, node[a].size, node[q].size, d);
    assert SamePlace(node, depth, b, t);
    UniquePlace(node, bins, depth, b, t);
  }

  // ----- Updates that keep the trie -----

  /** The same nodes up to their ring links. */
  predicate SameShape(node: Nodes, node': Nodes)
  {
    node.Keys == node'.Keys && forall p | p in node :: node'[p] == node[p].(fd := node'[p].fd, bk := node'[p].bk)
  }

  lemma RelinkRings(node: Nodes, node': Nodes, bins: seq<Addr>, depth: map<Addr, nat>)
    requires TrieOK(node, bins, depth) && SameShape(node, node')
    ensures TrieOK(node', bins, depth)
  {
    hide Prefix, Dir, Width, ComputeTreeIndex, Large;
    forall p | p in node' ensures NodeOK(node', bins, depth, p) {
      assert NodeOK(node, bins, depth, p);
    }
    forall i: nat | i < NTREEBINS ensures BinOK(node', bins, i) {
      assert BinOK(node, bins, i);
    }
    forall p, q | Head(node', p) && Head(node', q) && p in depth && q in depth && SamePlace(node', depth, p, q)
      ensures p == q {
      assert SamePlace(node, depth, p, q);
    }
  }

  lemma AddRoot(node: Nodes, bins: seq<Addr>, depth: map<Addr, nat>, x: Addr, n: Node)
    requires TrieOK(node, bins, depth) && x !in node && x != 0
    requires SizeOK(n) && n.left == n.right == 0 && n.parent == AtBin(n.index) && bins[n.index] == 0
    ensures TrieOK(node[x := n], bins[n.index := x], depth[x := 0])
  {
    hide Prefix, Dir, Width, ComputeTreeIndex, Large;
    var node', bins', depth' := node[x := n], bins[n.index := x], depth[x := 0];
    forall p | p in node' ensures NodeOK(node', bins', depth', p) {
      if p != x {
        assert NodeOK(node, bins, depth, p);
      }
    }
    forall i: nat | i < NTREEBINS ensures BinOK(node', bins', i) {
      assert BinOK(node, bins, i);
    }
    forall p, q | Head(node', p) && Head(node', q) && p in depth' && q in depth' && SamePlace(node', depth', p, q)
      ensures p == q {
      if p != x && q != x {
        assert SamePlace(node, depth, p, q);
      } else if p != x {
        RootExists(node, bins, depth, p);
      } else if q != x {
        RootExists(node, bins, depth, q);
      }
    }
  }

  /** `x` with record `n` may hang as a new leaf on side `b` of `t`. */
  predicate LeafFits(node: Nodes, bins: seq<Addr>, depth: map<Addr, nat>, x: Addr, n: Node, t: Addr, b: nat)
  {
    && TrieOK(node, bins, depth) && x !in node && x != 0 && Head(node, t) && t in depth
    && SizeOK(n) && n.left == n.right == 0 && n.parent == AtNode(t) && n.index == node[t].index
       && n.size != node[t].size
    && Prefix(n.index, n.size, depth[t]) == Prefix(n.index, node[t].size, depth[t])
    && b == Dir(n.index, n.size, depth[t]) && b < 2 && node[t].Child(b) == 0 && depth[t] < Width(n.index)
  }

  lemma AddLeaf(node: Nodes, bins: seq<Addr>, depth: map<Addr, nat>, x: Addr, n: Node, t: Addr, b: nat)
    requires LeafFits(node, bins, depth, x, n, t, b)
    ensures TrieOK(node[t := node[t].WithChild(b, x)][x := n], bins, depth[x := depth[t] + 1])
  {
    hide NodeOK, Prefix, Dir, Width, SizeOK, Unique;
    var node', depth' := node[t := node[t].WithChild(b, x)][x := n], depth[x := depth[t] + 1];
    forall p | p in node' ensures NodeOK(node', bins, depth', p) {
      AddLeafNode(node, bins, depth, x, n, t, b, p);
    }
    forall i: nat | i < NTREEBINS ensures BinOK(node', bins, i) {
      assert BinOK(node, bins, i);
    }
    AddLeafUnique(node, bins, depth, x, n, t, b);
  }

  lemma AddLeafNode(node: Nodes, bins: seq<Addr>, depth: map<Addr, nat>, x: Addr, n: Node, t: Addr, b: nat, p: Addr)
    requires LeafFits(node, bins, depth, x, n, t, b) && (p == x || p in node)
    ensures NodeOK(node[t := node[t].WithChild(b, x)][x := n], bins, depth[x := depth[t] + 1], p)
  {
    hide *;
    LeafFitsFacts(node, bins, depth, x, n, t, b, p);
    if p == x {
      AddLeafNew(node, bins, depth, x, n, t, b);
    } else if p == t {
      AddLeafAbove(node, bins, depth, x, n, t, b);
    } else {
      AddLeafOther(node, bins, depth, x, n, t, b, depth[t] + 1, p);
    }
  }

  lemma LeafFitsFacts(node: Nodes, bins: seq<Addr>, depth: map<Addr, nat>, x: Addr, n: Node, t: Addr, b: nat, p: Addr)
    requires LeafFits(node, bins, depth, x, n, t, b) && (p == x || p in node)
    ensures |bins| == NTREEBINS && (p != x ==> NodeOK(node, bins, depth, p)) && x !in node && x != 0 && Head(node, t)
    ensures t in node && t in depth
    ensures SizeOK(n) && n.left == n.right == 0 && n.parent == AtNode(t) && n.index == node[t].index
    ensures Prefix(n.index, n.size, depth[t]) == Prefix(n.index, node[t].size, depth[t])
    ensures b == Dir(n.index, n.size, depth[t]) && b < 2 && node[t].Child(b) == 0 && depth[t] < Width(n.index)
  {
    hide Prefix, Dir, Width, SizeOK, NodeOK, Unique;
  }

  lemma AddLeafNew(node: Nodes, bins: seq<Addr>, depth: map<Addr, nat>, x: Addr, n: Node, t: Addr, b: nat)
    requires |bins| == NTREEBINS && x !in node && x != 0 && Head(node, t) && t in depth
    requires SizeOK(n) && n.left == n.right == 0 && n.parent == AtNode(t) && n.index == node[t].index
    requires Prefix(n.index, n.size, depth[t]) == Prefix(n.index, node[t].size, depth[t])
    requires b == Dir(n.index, n.size, depth[t]) && b < 2 && depth[t] < Width(n.index)
    ensures NodeOK(node[t := node[t].WithChild(b, x)][x := n], bins, depth[x := depth[t] + 1], x)
  {
    hide Prefix, Dir, Width, Large, ComputeTreeIndex;
  }

  lemma AddLeafAbove(node: Nodes, bins: seq<Addr>, depth: map<Addr, nat>, x: Addr, n: Node, t: Addr, b: nat)
    requires |bins| == NTREEBINS && x !in node && x != 0 && Head(node, t) && t in depth && NodeOK(node, bins, depth, t)
    requires n.parent == AtNode(t) && n.index == node[t].index
    requires b == Dir(n.index, n.size, depth[t]) && b < 2 && node[t].Child(b) == 0
    ensures NodeOK(node[t := node[t].WithChild(b, x)][x := n], bins, depth[x := depth[t] + 1], t)
  {
    hide Prefix, Dir, Width, Large, ComputeTreeIndex;
    var node', depth' := node[t := node[t].WithChild(b, x)][x := n], depth[x := depth[t] + 1];
    assert node'[t].Child(b) == x;
    assert ChildOK(node', depth', t, b);
    assert ChildOK(node', depth', t, 1 - b) by {
      assert ChildOK(node, depth, t, 1 - b);
    }
    assert ParentOK(node', bins, depth', t);
  }

  lemma AddLeafOther(node: Nodes, bins: seq<Addr>, depth: map<Addr, nat>, x: Addr, n: Node, t: Addr, b: nat, d: nat,
      p: Addr)
    requires |bins| == NTREEBINS && x !in node && x != 0 && t in node && p in node && p != t
    requires NodeOK(node, bins, depth, p)
    requires b < 2 && node[t].Child(b) == 0
    ensures NodeOK(node[t := node[t].WithChild(b, x)][x := n], bins, depth[x := d], p)
  {
    hide Prefix, Dir, Width, SizeOK;
  }

  lemma AddLeafUnique(node: Nodes, bins: seq<Addr>, depth: map<Addr, nat>, x: Addr, n: Node, t: Addr, b: nat)
    requires LeafFits(node, bins, depth, x, n, t, b)
    ensures Unique(node[t := node[t].WithChild(b, x)][x := n], depth[x := depth[t] + 1])
  {
    hide Prefix, Dir, Width, SizeOK, NodeOK, BinOK;
    var node', depth' := node[t := node[t].WithChild(b, x)][x := n], depth[x := depth[t] + 1];
    forall p, q | Head(node', p) && Head(node', q) && p in depth' && q in depth' && SamePlace(node', depth', p, q)
      ensures p == q {
      if p != x && q != x {
        assert SamePlace(node, depth, p, q);
      } else if p != x {
        LeafPlaceTaken(node, bins, depth, n, t, p);
      } else if q != x {
        LeafPlaceTaken(node, bins, depth, n, t, q);
      }
    }
  }

  /** A head on the path of `n` below `t` means that `t` has a child on that side. */
  lemma LeafPlaceTaken(node: Nodes, bins: seq<Addr>, depth: map<Addr, nat>, n: Node, t: Addr, p: Addr)
    requires TrieOK(node, bins, depth) && Head(node, t) && t in depth && n.index == node[t].index
    requires Prefix(n.index, n.size, depth[t]) == Prefix(n.index, node[t].size, depth[t])
    requires Head(node, p) && p in depth && node[p].index == n.index && depth[p] == depth[t] + 1
    requires Prefix(n.index, node[p].size, depth[p]) == Prefix(n.index, n.size, depth[p])
    ensures node[t].Child(Dir(n.index, n.size, depth[t])) != 0
  {
    hide Prefix, Dir, Width, ComputeTreeIndex, Large, Unique, ChildOK;
    assert NodeOK(node, bins, depth, p);
    var d := depth[t];
    PrefixShorter(n.index, node[p].size, n.size, d, d + 1);
    SameDir(n.index, node[p].size, n.size, d);
    Descend(node, bins, depth, t, p);
    HeadNotNull(node, bins, depth, node[t].Child(Dir(n.index, node[p].size, d)));
  }

  lemma HeadNotNull(node: Nodes, bins: seq<Addr>, depth: map<Addr, nat>, p: Addr)
    requires TrieOK(node, bins, depth) && p in node
    ensures p != 0
  {
    assert NodeOK(node, bins, depth, p);
  }

  lemma AddOrphan(node: Nodes, bins: seq<Addr>, depth: map<Addr, nat>, x: Addr, n: Node)
    requires TrieOK(node, bins, depth) && x !in node && x != 0
    requires SizeOK(n) && n.left == n.right == 0 && n.parent == Orphan
    ensures TrieOK(node[x := n], bins, depth)
  {
    hide Prefix, Dir, Width, ComputeTreeIndex, Large;
    var node' := node[x := n];
    forall p | p in node' ensures NodeOK(node', bins, depth, p) {
      if p != x {
        assert NodeOK(node, bins, depth, p);
      }
    }
    forall i: nat | i < NTREEBINS ensures BinOK(node', bins, i) {
      assert BinOK(node, bins, i);
    }
    forall p, q | Head(node', p) && Head(node', q) && p in depth && q in depth && SamePlace(node', depth, p, q)
      ensures p == q {
      assert SamePlace(node, depth, p, q);
    }
  }

  lemma DropOrphan(node: Nodes, bins: seq<Addr>, depth: map<Addr, nat>, x: Addr)
    requires TrieOK(node, bins, depth) && x in node && node[x].parent == Orphan
    ensures TrieOK(node - {x}, bins, depth)
  {
    hide Prefix, Dir, Width, ComputeTreeIndex, Large;
    var node' := node - {x};
    forall p | p in node' ensures NodeOK(node', bins, depth, p) {
      assert NodeOK(node, bins, depth, p);
    }
    forall i: nat | i < NTREEBINS ensures BinOK(node', bins, i) {
      assert BinOK(node, bins, i);
    }
    forall p, q | Head(node', p) && Head(node', q) && p in depth && q in depth && SamePlace(node', depth, p, q)
      ensures p == q {
      assert SamePlace(node, depth, p, q);
    }
  }

  /** `r` is a leaf head that becomes an orphan, the slot above it (side `b` if that is a node's) is nulled. */
  predicate Cut(node: Nodes, bins: seq<Addr>, r: Addr, b: nat, node': Nodes, bins': seq<Addr>)
  {
    && Head(node, r) && node[r].left == node[r].right == 0 && |bins| == NTREEBINS
    && match node[r].parent
       case AtBin(i) => i < NTREEBINS && bins' == bins[i := 0] && node' == node[r := node[r].(parent := Orphan)]
       case AtNode(q) =>
         && bins' == bins && q in node && q != r && b < 2 && node[q].Child(b) == r
         && node' == node[q := node[q].WithChild(b, 0)][r := node[r].(parent := Orphan)]
  }

  lemma CutLeaf(node: Nodes, bins: seq<Addr>, depth: map<Addr, nat>, r: Addr, b: nat, node': Nodes, bins': seq<Addr>)
    requires TrieOK(node, bins, depth) && Cut(node, bins, r, b, node', bins')
    ensures TrieOK(node', bins', depth)
  {
    hide NodeOK, Prefix, Dir, Width, SizeOK, Unique;
    forall p | p in node' ensures NodeOK(node', bins', depth, p) {
      assert NodeOK(node, bins, depth, p) && NodeOK(node, bins, depth, r);
      if node[r].parent.AtBin? {
        CutRootNode(node, bins, depth, r, b, node', bins', p);
      } else {
        CutLeafNode(node, bins, depth, r, b, node', bins', p);
      }
    }
    forall i: nat | i < NTREEBINS ensures BinOK(node', bins', i) {
      assert BinOK(node, bins, i);
    }
    CutLeafUnique(node, bins, depth, r, b, node', bins');
  }

  lemma CutRootNode(node: Nodes, bins: seq<Addr>, depth: map<Addr, nat>, r: Addr, b: nat, node': Nodes,
      bins': seq<Addr>, p: Addr)
    requires Cut(node, bins, r, b, node', bins') && p in node && node[r].parent.AtBin?
    requires NodeOK(node, bins, depth, p) && NodeOK(node, bins, depth, r)
    ensures NodeOK(node', bins', depth, p)
  {
    hide Prefix, Dir, Width, Large, ComputeTreeIndex;
  }

  lemma CutLeafNode(node: Nodes, bins: seq<Addr>, depth: map<Addr, nat>, r: Addr, b: nat, node': Nodes,
      bins': seq<Addr>, p: Addr)
    requires Cut(node, bins, r, b, node', bins') && p in node && node[r].parent.AtNode?
    requires NodeOK(node, bins, depth, p) && NodeOK(node, bins, depth, r)
    ensures NodeOK(node', bins', depth, p)
  {
    hide Prefix, Dir, Width, Large, ComputeTreeIndex;
    if p != r && Head(node, p) {
      assert ParentOK(node', bins', depth, p);
      assert p in depth && ChildOK(node, depth, p, 0) && ChildOK(node, depth, p, 1);
    }
  }

  lemma CutLeafUnique(node: Nodes, bins: seq<Addr>, depth: map<Addr, nat>, r: Addr, b: nat, node': Nodes,
      bins': seq<Addr>)
    requires TrieOK(node, bins, depth) && Cut(node, bins, r, b, node', bins')
    ensures Unique(node', depth)
  {
    hide Prefix, Dir, Width, SizeOK, NodeOK, BinOK;
    forall p, q | Head(node', p) && Head(node', q) && p in depth && q in depth && SamePlace(node', depth, p, q)
      ensures p == q {
      assert SamePlace(node, depth, p, q);
    }
  }

  /** What the record of `p` becomes when the orphan `r` takes the place of the head `x`, `b` being the
      side on which `x` hangs if it is not a root. */
  function Moved(node: Nodes, x: Addr, r: Addr, b: nat, p: Addr): Node
    requires p in node && x in node
  {
    if p == r then node[r].(parent := node[x].parent, left := node[x].left, right := node[x].right)
    else
      var n := if node[x].parent == AtNode(p) then node[p].WithChild(b, r) else node[p];
      if n.parent == AtNode(x) then n.(parent := AtNode(r)) else n
  }

  predicate Replaced(node: Nodes, bins: seq<Addr>, x: Addr, r: Addr, b: nat, node': Nodes, bins': seq<Addr>)
  {
    && Head(node, x) && r in node && node[r].parent == Orphan && |bins| == NTREEBINS
    && node'.Keys == node.Keys - {x}
    && (forall p | p in node' :: node'[p] == Moved(node, x, r, b, p))
    && match node[x].parent
       case AtBin(i) => i < NTREEBINS && bins' == bins[i := r]
       case AtNode(q) => bins' == bins && q in node && b < 2 && node[q].Child(b) == x
  }

  /** `r` may stand where `x` stands. */
  predicate SamePath(node: Nodes, depth: map<Addr, nat>, x: Addr, r: Addr)
    requires x in node && r in node
  {
    x in depth && node[r].index == node[x].index
    && Prefix(node[x].index, node[r].size, depth[x]) == Prefix(node[x].index, node[x].size, depth[x])
  }

  lemma Replace(node: Nodes, bins: seq<Addr>, depth: map<Addr, nat>, x: Addr, r: Addr, b: nat, node': Nodes,
      bins': seq<Addr>)
    requires TrieOK(node, bins, depth) && Replaced(node, bins, x, r, b, node', bins') && SamePath(node, depth, x, r)
    ensures TrieOK(node', bins', depth[r := depth[x]])
  {
    hide NodeOK, Prefix, Dir, Width, SizeOK, Unique, Moved;
    var depth' := depth[r := depth[x]];
    forall p | p in node' ensures NodeOK(node', bins', depth', p) {
      ReplaceNode(node, bins, depth, x, r, b, node', bins', p);
    }
    forall i: nat | i < NTREEBINS ensures BinOK(node', bins', i) {
      ReplaceBin(node, bins, depth, x, r, b, node', bins', i);
    }
    ReplaceUnique(node, bins, depth, x, r, b, node', bins');
  }

  lemma ReplaceBin(node: Nodes, bins: seq<Addr>, depth: map<Addr, nat>, x: Addr, r: Addr, b: nat, node': Nodes,
      bins': seq<Addr>, i: nat)
    requires TrieOK(node, bins, depth) && Replaced(node, bins, x, r, b, node', bins') && i < NTREEBINS
    ensures BinOK(node', bins', i)
  {
    hide Prefix, Dir, Width, SizeOK, Unique;
    assert BinOK(node, bins, i);
    assert NodeOK(node, bins, depth, x);
  }

  lemma ReplaceNode(node: Nodes, bins: seq<Addr>, depth: map<Addr, nat>, x: Addr, r: Addr, b: nat, node': Nodes,
      bins': seq<Addr>, p: Addr)
    requires TrieOK(node, bins, depth) && Replaced(node, bins, x, r, b, node', bins') && SamePath(node, depth, x, r)
    requires p in node'
    ensures NodeOK(node', bins', depth[r := depth[x]], p)
  {
    hide NodeOK, Prefix, Dir, Width, SizeOK, Unique, Moved, BinOK;
    assert NodeOK(node, bins, depth, p) && NodeOK(node, bins, depth, x) && NodeOK(node, bins, depth, r);
    if p == r {
      ReplaceMoved(node, bins, depth, x, r, b, node', bins');
    } else if node[p].parent == AtNode(x) {
      ReplaceChild(node, bins, depth, x, r, b, node', bins', p);
    } else if node[x].parent == AtNode(p) {
      ReplaceAbove(node, bins, depth, x, r, b, node', bins', p);
    } else {
      ReplaceOther(node, bins, depth, x, r, b, node', bins', p);
    }
  }

  /** The side on which `x` hangs is the one its size says. */
  lemma SideIsDir(node: Nodes, bins: seq<Addr>, depth: map<Addr, nat>, x: Addr, r: Addr, b: nat, node': Nodes,
      bins': seq<Addr>)
    requires Replaced(node, bins, x, r, b, node', bins') && SamePath(node, depth, x, r) && node[x].parent.AtNode?
    requires NodeOK(node, bins, depth, x) && NodeOK(node, bins, depth, node[x].parent.at)
    ensures var q := node[x].parent.at; Head(node, q) && q in depth && depth[x] == depth[q] + 1 && q != x && q != r
    ensures var i, d := node[x].index, depth[node[x].parent.at];
            && b == Dir(i, node[x].size, d) == Dir(i, node[r].size, d)
            && Prefix(i, node[r].size, d) == Prefix(i, node[x].size, d)
  {
    hide Prefix, Dir, Width, SizeOK, Moved;
    var q, i := node[x].parent.at, node[x].index;
    DirBit(i, node[x].size, depth[q]);
    assert ChildOK(node, depth, q, b);
    PrefixShorter(i, node[r].size, node[x].size, depth[q], depth[x]);
    SameDir(i, node[r].size, node[x].size, depth[q]);
  }

  lemma ReplaceMoved(node: Nodes, bins: seq<Addr>, depth: map<Addr, nat>, x: Addr, r: Addr, b: nat, node': Nodes,
      bins': seq<Addr>)
    requires TrieOK(node, bins, depth) && Replaced(node, bins, x, r, b, node', bins') && SamePath(node, depth, x, r)
    requires NodeOK(node, bins, depth, x) && NodeOK(node, bins, depth, r)
    ensures NodeOK(node', bins', depth[r := depth[x]], r)
  {
    hide Prefix, Dir, Width, Large, ComputeTreeIndex, Unique, TrieOK;
    var depth' := depth[r := depth[x]];
    assert ParentOK(node', bins', depth', r) by {
      if node[x].parent.AtNode? {
        TrieNode(node, bins, depth, node[x].parent.at);
        SideIsDir(node, bins, depth, x, r, b, node', bins');
      }
    }
    assert ChildOK(node', depth', r, 0) by {
      assert ChildOK(node, depth, x, 0);
    }
    assert ChildOK(node', depth', r, 1) by {
      assert ChildOK(node, depth, x, 1);
    }
  }

  lemma TrieNode(node: Nodes, bins: seq<Addr>, depth: map<Addr, nat>, p: Addr)
    requires TrieOK(node, bins, depth) && p in node
    ensures |bins| == NTREEBINS && NodeOK(node, bins, depth, p)
  {
  }

  lemma ReplaceChild(node: Nodes, bins: seq<Addr>, depth: map<Addr, nat>, x: Addr, r: Addr, b: nat, node': Nodes,
      bins': seq<Addr>, p: Addr)
    requires Replaced(node, bins, x, r, b, node', bins') && SamePath(node, depth, x, r) && p in node' && p != r
    requires NodeOK(node, bins, depth, x) && NodeOK(node, bins, depth, r) && NodeOK(node, bins, depth, p)
    requires node[p].parent == AtNode(x)
    ensures NodeOK(node', bins', depth[r := depth[x]], p)
  {
    hide Prefix, Dir, Width, Large, ComputeTreeIndex;
    var depth' := depth[r := depth[x]];
    assert node[x].parent != AtNode(p);
    assert ParentOK(node', bins', depth', p);
    assert ChildOK(node', depth', p, 0) by {
      assert ChildOK(node, depth, p, 0);
    }
    assert ChildOK(node', depth', p, 1) by {
      assert ChildOK(node, depth, p, 1);
    }
  }

  lemma ReplaceAbove(node: Nodes, bins: seq<Addr>, depth: map<Addr, nat>, x: Addr, r: Addr, b: nat, node': Nodes,
      bins': seq<Addr>, p: Addr)
    requires Replaced(node, bins, x, r, b, node', bins') && SamePath(node, depth, x, r) && p in node' && p != r
    requires NodeOK(node, bins, depth, x) && NodeOK(node, bins, depth, r) && NodeOK(node, bins, depth, p)
    requires node[p].parent != AtNode(x) && node[x].parent == AtNode(p)
    ensures NodeOK(node', bins', depth[r := depth[x]], p)
  {
    hide Prefix, Dir, Width, Large, ComputeTreeIndex;
    var depth' := depth[r := depth[x]];
    SideIsDir(node, bins, depth, x, r, b, node', bins');
    assert ParentOK(node', bins', depth', p);
    assert ChildOK(node', depth', p, b);
    assert ChildOK(node', depth', p, 1 - b) by {
      assert ChildOK(node, depth, p, 1 - b);
      DirBit(node[x].index, node[x].size, depth[p]);
    }
  }

  lemma ReplaceOther(node: Nodes, bins: seq<Addr>, depth: map<Addr, nat>, x: Addr, r: Addr, b: nat, node': Nodes,
      bins': seq<Addr>, p: Addr)
    requires Replaced(node, bins, x, r, b, node', bins') && SamePath(node, depth, x, r) && p in node' && p != r
    requires NodeOK(node, bins, depth, x) && NodeOK(node, bins, depth, p) && node[p].parent != AtNode(x)
    requires node[x].parent != AtNode(p)
    ensures NodeOK(node', bins', depth[r := depth[x]], p)
  {
    hide Prefix, Dir, Width, Large, ComputeTreeIndex;
    if Head(node, p) {
      var depth' := depth[r := depth[x]];
      assert ParentOK(node', bins', depth', p);
      assert ChildOK(node', depth', p, 0) by {
        assert ChildOK(node, depth, p, 0);
      }
      assert ChildOK(node', depth', p, 1) by {
        assert ChildOK(node, depth, p, 1);
      }
    }
  }

  lemma ReplaceUnique(node: Nodes, bins: seq<Addr>, depth: map<Addr, nat>, x: Addr, r: Addr, b: nat, node': Nodes,
      bins': seq<Addr>)
    requires TrieOK(node, bins, depth) && Replaced(node, bins, x, r, b, node', bins') && SamePath(node, depth, x, r)
    ensures Unique(node', depth[r := depth[x]])
  {
    hide Prefix, Dir, Width, SizeOK, NodeOK, BinOK;
    var depth' := depth[r := depth[x]];
    forall p, q | Head(node', p) && Head(node', q) && p in depth' && q in depth' && SamePlace(node', depth', p, q)
      ensures p == q {
      var p0, q0 := if p == r then x else p, if q == r then x else q;
      assert SamePlace(node, depth, p0, q0);
    }
  }
}
