/** The tree bins of a malloc state: linking chunks in and out. */
module TreeBins {
  import opened TreeIndex
  import opened TriePath
  import opened Trie
  import opened Rings
  import BinMap

  /** `treemap` marks exactly the bins whose slot is not null. */
  predicate MapOK(map_: BinMap.Bits, bins: seq<Addr>)
  {
    |bins| == NTREEBINS && forall i: nat | i < NTREEBINS :: BinMap.Marked(map_, i) <==> bins[i] != 0
  }

  ghost predicate BinsOK(node: Nodes, bins: seq<Addr>, map_: BinMap.Bits, depth: map<Addr, nat>, rank: Ranks)
  {
    TrieOK(node, bins, depth) && RingsOK(node, rank) && MapOK(map_, bins)
  }

  /** Where the search for size `s` stands: at `t`, with every head of that size at or below it. */
  ghost predicate OnPath(node: Nodes, bins: seq<Addr>, depth: map<Addr, nat>, s: nat, t: Addr)
  {
    && Head(node, t) && t in depth && depth[t] <= Width(node[t].index)
    && node[t].index == ComputeTreeIndex(s)
    && Prefix(node[t].index, s, depth[t]) == Prefix(node[t].index, node[t].size, depth[t])
    && forall q | Head(node, q) && node[q].size == s :: Under(node, depth, t, q)
  }

  predicate PathFacts(node: Nodes, depth: map<Addr, nat>, i: nat, t: Addr)
  {
    Head(node, t) && t in depth && node[t].index == i && depth[t] <= Width(i)
  }

  lemma SearchStart(node: Nodes, bins: seq<Addr>, depth: map<Addr, nat>, s: nat)
    requires TrieOK(node, bins, depth) && Large(s) && bins[ComputeTreeIndex(s)] != 0
    ensures OnPath(node, bins, depth, s, bins[ComputeTreeIndex(s)])
    ensures PathFacts(node, depth, ComputeTreeIndex(s), bins[ComputeTreeIndex(s)])
    ensures depth[bins[ComputeTreeIndex(s)]] == 0
  {
    hide Prefix, Dir, Width, Large, ComputeTreeIndex, Unique, ParentOK, ChildOK;
    var i := ComputeTreeIndex(s);
    RootUnder(node, bins, depth, i);
    TrieNode(node, bins, depth, bins[i]);
    SameBinSamePrefix(s, node[bins[i]].size, i);
    forall q | Head(node, q) && node[q].size == s ensures Under(node, depth, bins[i], q) {
      TrieNode(node, bins, depth, q);
      RootExists(node, bins, depth, q);
    }
  }

  /** One turn of the search at a node of another size. */
  lemma SearchStep(node: Nodes, bins: seq<Addr>, depth: map<Addr, nat>, s: nat, t: Addr)
    requires TrieOK(node, bins, depth) && OnPath(node, bins, depth, s, t) && node[t].size != s
    ensures node[t].index < NTREEBINS && depth[t] < Width(node[t].index) && Dir(node[t].index, s, depth[t]) < 2
    ensures var c := node[t].Child(Dir(node[t].index, s, depth[t]));
            if c == 0 then forall q | Head(node, q) :: node[q].size != s
            else OnPath(node, bins, depth, s, c) && PathFacts(node, depth, node[t].index, c) && depth[c] == depth[t] + 1
  {
    hide Prefix, Dir, Width, Large, ComputeTreeIndex, Unique, ParentOK, Under, TrieOK;
    TrieNode(node, bins, depth, t);
    var i, d := node[t].index, depth[t];
    DepthBound(i, s, node[t].size, d);
    DirBit(i, s, d);
    var c := node[t].Child(Dir(i, s, d));
    forall q | Head(node, q) && node[q].size == s ensures Head(node, c) && c in depth && Under(node, depth, c, q) {
      Descend(node, bins, depth, t, q);
    }
    if c == 0 {
      if exists q :: Head(node, q) && node[q].size == s {
        TrieNode(node, bins, depth, c);
      }
    } else {
      assert ChildOK(node, depth, t, Dir(i, s, d));
      ChildPrefix(node, bins, depth, t, c, s);
    }
  }

  lemma ChildPrefix(node: Nodes, bins: seq<Addr>, depth: map<Addr, nat>, t: Addr, c: Addr, s: nat)
    requires TrieOK(node, bins, depth) && Head(node, t) && t in depth && c in node && node[c].parent == AtNode(t)
    requires Prefix(node[t].index, s, depth[t]) == Prefix(node[t].index, node[t].size, depth[t])
    requires Dir(node[c].index, node[c].size, depth[t]) == Dir(node[t].index, s, depth[t])
    requires depth[t] < Width(node[t].index)
    ensures Head(node, c) && c in depth && depth[c] == depth[t] + 1 <= Width(node[t].index)
    ensures node[c].index == node[t].index
    ensures Prefix(node[t].index, s, depth[c]) == Prefix(node[t].index, node[c].size, depth[c])
  {
    hide Prefix, Dir, Width, Large, ComputeTreeIndex, Unique, ChildOK;
    TrieNode(node, bins, depth, c);
    PrefixLonger(node[t].index, s, node[c].size, depth[t]);
  }

  /** Sizes of the chunks that the nodes stand for. */
  ghost function Sizes(node: Nodes): map<Addr, nat>
  {
    map p | p in node :: node[p].size
  }

  lemma NoHeadNoChunk(node: Nodes, rank: Ranks, s: nat)
    requires RingsOK(node, rank) && forall q | Head(node, q) :: node[q].size != s
    ensures forall p | p in node :: node[p].size != s
  {
    hide RingOK;
    forall p | p in node ensures node[p].size != s {
      var n, h := ReachesHead(node, rank, p);
    }
  }

  lemma EmptyBinNoSize(node: Nodes, bins: seq<Addr>, depth: map<Addr, nat>, rank: Ranks, s: nat)
    requires TrieOK(node, bins, depth) && RingsOK(node, rank) && Large(s) && bins[ComputeTreeIndex(s)] == 0
    ensures forall p | p in node :: node[p].size != s
  {
    hide RingOK, Large, ComputeTreeIndex, Prefix, Dir, Width, ParentOK, ChildOK, Unique, Under;
    forall q | Head(node, q) ensures node[q].size != s {
      TrieNode(node, bins, depth, q);
      RootExists(node, bins, depth, q);
    }
    NoHeadNoChunk(node, rank, s);
  }

  lemma MarkOK(map_: BinMap.Bits, bins: seq<Addr>, i: nat, x: Addr)
    requires MapOK(map_, bins) && i < NTREEBINS && x != 0
    ensures MapOK(BinMap.Mark(map_, i), bins[i := x])
  {
    forall j: nat | j < NTREEBINS ensures BinMap.Marked(BinMap.Mark(map_, i), j) <==> bins[i := x][j] != 0 {
      BinMap.MarkMarks(map_, i, j);
    }
  }

  lemma ClearOK(map_: BinMap.Bits, bins: seq<Addr>, i: nat)
    requires MapOK(map_, bins) && i < NTREEBINS
    ensures MapOK(BinMap.Clear(map_, i), bins[i := 0])
  {
    forall j: nat | j < NTREEBINS ensures BinMap.Marked(BinMap.Clear(map_, i), j) <==> bins[i := 0][j] != 0 {
      BinMap.ClearClears(map_, i, j);
    }
  }

  lemma InsertRoot(node: Nodes, bins: seq<Addr>, map_: BinMap.Bits, depth: map<Addr, nat>, rank: Ranks, x: Addr,
      n: Node, k: nat)
    requires BinsOK(node, bins, map_, depth, rank) && x !in node && x != 0
    requires SizeOK(n) && n.left == n.right == 0 && n.fd == n.bk == x && n.parent == AtBin(n.index)
    requires bins[n.index] == 0
    ensures BinsOK(node[x := n], bins[n.index := x], BinMap.Mark(map_, n.index), depth[x := 0], rank[x := k])
  {
    hide TrieOK, RingsOK, MapOK, Large, ComputeTreeIndex;
    TrieBins(node, bins, depth);
    AddRoot(node, bins, depth, x, n);
    MarkOK(map_, bins, n.index, x);
    EmptyBinNoSize(node, bins, depth, rank, n.size);
    AddAlone(node, rank, x, n, node[x := n], k);
  }

  lemma TrieBins(node: Nodes, bins: seq<Addr>, depth: map<Addr, nat>)
    requires TrieOK(node, bins, depth)
    ensures |bins| == NTREEBINS
  {
  }

  lemma InsertLeaf(node: Nodes, bins: seq<Addr>, map_: BinMap.Bits, depth: map<Addr, nat>, rank: Ranks, x: Addr,
      n: Node, t: Addr, k: nat)
    requires BinsOK(node, bins, map_, depth, rank) && x !in node && x != 0 && OnPath(node, bins, depth, n.size, t)
    requires node[t].size != n.size
    requires SizeOK(n) && n.left == n.right == 0 && n.fd == n.bk == x && n.parent == AtNode(t)
    requires node[t].Child(Dir(n.index, n.size, depth[t])) == 0
    ensures BinsOK(node[t := node[t].WithChild(Dir(n.index, n.size, depth[t]), x)][x := n], bins, map_,
            depth[x := depth[t] + 1], rank[x := k])
  {
    hide TrieOK, RingsOK, MapOK, Large, ComputeTreeIndex, Prefix, Dir, Width, Under;
    TrieBins(node, bins, depth);
    SearchStep(node, bins, depth, n.size, t);
    AddLeaf(node, bins, depth, x, n, t, Dir(n.index, n.size, depth[t]));
    NoHeadNoChunk(node, rank, n.size);
    AddAlone(node, rank, x, n, node[t := node[t].WithChild(Dir(n.index, n.size, depth[t]), x)][x := n], k);
  }

  lemma InsertChained(node: Nodes, bins: seq<Addr>, map_: BinMap.Bits, depth: map<Addr, nat>, rank: Ranks, x: Addr,
      n: Node, t: Addr, k: nat)
    requires BinsOK(node, bins, map_, depth, rank) && x !in node && x != 0 && Head(node, t) && node[t].size == n.size
    requires SizeOK(n) && n.left == n.right == 0 && n.fd == node[t].fd && n.bk == t && n.parent == Orphan
    requires forall p | p in rank :: rank[p] < k
    ensures node[t].fd in node && BinsOK(Joined(node, t, x, n), bins, map_, depth, rank[x := k])
  {
    hide TrieOK, RingsOK, MapOK, SizeOK;
    Join(node, rank, t, x, n, k);
    AddOrphan(node, bins, depth, x, n);
    RelinkRings(node[x := n], Joined(node, t, x, n), bins, depth);
  }

  lemma MapRead(map_: BinMap.Bits, bins: seq<Addr>, i: nat)
    requires MapOK(map_, bins) && i < NTREEBINS
    ensures |bins| == NTREEBINS && (BinMap.Marked(map_, i) <==> bins[i] != 0)
  {
  }

  lemma FdIsNode(node: Nodes, rank: Ranks, t: Addr)
    requires RingsOK(node, rank) && t in node
    ensures node[t].fd in node
  {
    assert RingOK(node, rank, t);
  }

  /** `r` with the place and the children of `x`. */
  function Adopter(node: Nodes, x: Addr, r: Addr): Node
    requires x in node && r in node
  {
    node[r].(parent := node[x].parent,
             left := if node[x].left != 0 then node[x].left else node[r].left,
             right := if node[x].right != 0 then node[x].right else node[r].right)
  }

  /** The records that change when `r` is linked to where `x` hangs (on side `b` of a node above it) and,
      if it is not null, takes over the children of `x`. */
  function Taken(node: Nodes, x: Addr, r: Addr, b: nat, p: Addr): Node
    requires p in node && x in node
  {
    if p == r && r != 0 then Adopter(node, x, r)
    else
      var n := if node[x].parent == AtNode(p) then node[p].WithChild(b, r) else node[p];
      if r != 0 && p != 0 && (p == node[x].left || p == node[x].right) then n.(parent := AtNode(r)) else n
  }

  /** The side of `x` below the node above it, as the code finds it. */
  function Side(node: Nodes, x: Addr): nat
    requires x in node
  {
    match node[x].parent
    case AtNode(q) => if q in node && node[q].left == x then 0 else 1
    case _ => 0
  }

  function BinsTaken(node: Nodes, bins: seq<Addr>, x: Addr, r: Addr): seq<Addr>
    requires x in node
  {
    match node[x].parent
    case AtBin(i) => if i < |bins| then bins[i := r] else bins
    case _ => bins
  }

  /** Where `x` hangs, read off its own links. */
  predicate Hangs(node: Nodes, bins: seq<Addr>, x: Addr)
  {
    && Head(node, x) && |bins| == NTREEBINS && node[x].index < NTREEBINS
    && match node[x].parent
       case AtBin(i) => i == node[x].index && bins[i] == x
       case AtNode(q) => bins[node[x].index] != x && q in node && q != x && (node[q].left == x || node[q].right == x)
  }

  predicate MayTake(node: Nodes, x: Addr, r: Addr)
    requires x in node
  {
    r == 0 ||
    (r in node && r != x && node[x].parent != AtNode(r)
     && (node[x].left == 0
        || (node[x].left in node && node[x].left != r && node[x].left != x && node[x].parent != AtNode(node[x].left)))
     && (node[x].right == 0
        || (node[x].right in node && node[x].right != r && node[x].right != x && node[x].right != node[x].left
                                && node[x].parent != AtNode(node[x].right))))
  }

  lemma HeadHangs(node: Nodes, bins: seq<Addr>, depth: map<Addr, nat>, x: Addr)
    requires TrieOK(node, bins, depth) && Head(node, x)
    ensures Hangs(node, bins, x)
  {
    hide Prefix, Dir, Width, Large, ComputeTreeIndex, Unique;
    TrieNode(node, bins, depth, x);
    assert BinOK(node, bins, node[x].index);
    if node[x].parent.AtNode? {
      TrieNode(node, bins, depth, node[x].parent.at);
    }
  }

  lemma UnderSelf(node: Nodes, depth: map<Addr, nat>, x: Addr)
    requires Head(node, x) && x in depth
    ensures Under(node, depth, x, x)
  {
  }

  /** A child of a node under `x` is under `x` too, one level deeper. */
  lemma ChildUnder(node: Nodes, bins: seq<Addr>, depth: map<Addr, nat>, x: Addr, t: Addr, b: nat)
    requires TrieOK(node, bins, depth) && Head(node, x) && x in depth && Under(node, depth, x, t) && b < 2
    requires node[t].Child(b) != 0
    ensures var c := node[t].Child(b);
            Under(node, depth, x, c) && depth[c] == depth[t] + 1 <= 64 && depth[c] <= Width(node[x].index)
              && node[c].parent == AtNode(t) && c != t
  {
    hide Prefix, Dir, Large, ComputeTreeIndex, Unique;
    TrieNode(node, bins, depth, t);
    var c := node[t].Child(b);
    assert ChildOK(node, depth, t, b);
    TrieNode(node, bins, depth, c);
    PrefixShorter(node[x].index, node[c].size, node[t].size, depth[x], depth[t]);
  }

  // ----- Unlinking, case by case -----

  /** `r` has just been made an orphan or was one: putting it where `x` hangs keeps the trie. */
  lemma TakenKeepsTrie(node: Nodes, bins: seq<Addr>, map_: BinMap.Bits, depth: map<Addr, nat>, x: Addr, r: Addr,
      node': Nodes)
    requires TrieOK(node, bins, depth) && MapOK(map_, bins) && Head(node, x) && r in node && node[r].parent == Orphan
    requires r != x
    requires SamePath(node, depth, x, r)
    requires node'.Keys == node.Keys - {x} && forall p | p in node' :: node'[p] == Taken(node, x, r, Side(node, x), p)
    ensures TrieOK(node', BinsTaken(node, bins, x, r), depth[r := depth[x]]) && MapOK(map_, BinsTaken(node, bins, x, r))
  {
    hide NodeOK, BinOK, Unique, SamePath, Taken, Moved;
    HeadHangs(node, bins, depth, x);
    NotNull(node, bins, depth, r);
    NotNull(node, bins, depth, x);
    forall p | p in node' ensures node'[p] == Moved(node, x, r, Side(node, x), p) {
      TakenIsMoved(node, bins, depth, x, r, p);
    }
    Replace(node, bins, depth, x, r, Side(node, x), node', BinsTaken(node, bins, x, r));
  }

  lemma NotNull(node: Nodes, bins: seq<Addr>, depth: map<Addr, nat>, r: Addr)
    requires TrieOK(node, bins, depth) && r in node
    ensures r != 0
  {
    assert NodeOK(node, bins, depth, r);
  }

  lemma TakenIsMoved(node: Nodes, bins: seq<Addr>, depth: map<Addr, nat>, x: Addr, r: Addr, p: Addr)
    requires TrieOK(node, bins, depth) && Head(node, x) && r in node && node[r].parent == Orphan && r != x && p in node
    requires p != x
    ensures Taken(node, x, r, Side(node, x), p) == Moved(node, x, r, Side(node, x), p)
  {
    hide Prefix, Width, Large, ComputeTreeIndex, Unique, SizeOK;
    TrieNode(node, bins, depth, x);
    TrieNode(node, bins, depth, r);
    TrieNode(node, bins, depth, p);
    ChildOfIff(node, bins, depth, x, p);
  }

  lemma ChildOfIff(node: Nodes, bins: seq<Addr>, depth: map<Addr, nat>, x: Addr, p: Addr)
    requires TrieOK(node, bins, depth) && Head(node, x) && p in node
    ensures node[p].parent == AtNode(x) <==> p == node[x].left || p == node[x].right
    ensures p != 0
  {
    hide Prefix, Width, Large, ComputeTreeIndex, Unique, SizeOK, Dir;
    TrieNode(node, bins, depth, x);
    TrieNode(node, bins, depth, p);
    assert ChildOK(node, depth, x, 0) && ChildOK(node, depth, x, 1);
  }

  lemma HeadMayBeReplaced(node: Nodes, bins: seq<Addr>, depth: map<Addr, nat>, x: Addr, r: Addr)
    requires TrieOK(node, bins, depth) && Head(node, x) && r in node && r != x && node[r].parent == Orphan
    ensures Hangs(node, bins, x) && MayTake(node, x, r)
  {
    hide Prefix, Width, Large, ComputeTreeIndex, Unique, SizeOK;
    HeadHangs(node, bins, depth, x);
    TrieNode(node, bins, depth, x);
    TrieNode(node, bins, depth, r);
    assert ChildOK(node, depth, x, 0) && ChildOK(node, depth, x, 1);
    if node[x].left != 0 {
      TrieNode(node, bins, depth, node[x].left);
    }
    if node[x].right != 0 {
      TrieNode(node, bins, depth, node[x].right);
    }
  }

  lemma ChildrenHeads(node: Nodes, bins: seq<Addr>, depth: map<Addr, nat>, x: Addr)
    requires TrieOK(node, bins, depth) && Head(node, x)
    ensures node[x].left != 0 ==> Head(node, node[x].left)
    ensures node[x].right != 0 ==> Head(node, node[x].right)
  {
    hide Prefix, Dir, Width, Large, ComputeTreeIndex, Unique;
    TrieNode(node, bins, depth, x);
    assert ChildOK(node, depth, x, 0) && ChildOK(node, depth, x, 1);
  }

  /** `x` out of its ring, all else as it was. */
  function LinkedOut(node: Nodes, x: Addr): Nodes
    requires x in node && node[x].fd in node && node[x].bk in node
  {
    var mid := node[node[x].fd := node[node[x].fd].(bk := node[x].bk)];
    mid[node[x].bk := mid[node[x].bk].(fd := node[x].fd)]
  }

  lemma LinkedOutFacts(node: Nodes, bins: seq<Addr>, depth: map<Addr, nat>, rank: Ranks, x: Addr)
    requires TrieOK(node, bins, depth) && RingsOK(node, rank) && x in node && node[x].bk != x
    ensures var r := node[x].bk;
            node[x].fd in node && r in node && node[r].size == node[x].size && node[r].index == node[x].index
    ensures node[node[x].fd].bk == x && node[node[x].bk].fd == x && node[x].fd != x
    ensures SameShape(node, LinkedOut(node, x)) && TrieOK(LinkedOut(node, x), bins, depth)
    ensures Head(node, x) ==> x in depth && node[node[x].bk].parent == Orphan
  {
    hide Prefix, Dir, Width, Large, ComputeTreeIndex, Unique, ChildOK;
    Neighbours(node, rank, x);
    TrieNode(node, bins, depth, x);
    TrieNode(node, bins, depth, node[x].bk);
    RelinkRings(node, LinkedOut(node, x), bins, depth);
  }

  lemma UnlinkChained(node: Nodes, bins: seq<Addr>, map_: BinMap.Bits, depth: map<Addr, nat>, rank: Ranks, x: Addr)
    requires BinsOK(node, bins, map_, depth, rank) && x in node && node[x].parent == Orphan
    ensures node[x].bk != x && node[x].fd in node && node[x].bk in node
    ensures BinsOK(LinkedOut(node, x) - {x}, bins, map_, depth, rank)
  {
    hide TrieOK, RingOK, MapOK;
    ChainedNotAlone(node, rank, x);
    LinkedOutFacts(node, bins, depth, rank, x);
    DropOrphan(LinkedOut(node, x), bins, depth, x);
    Leave(node, rank, x, LinkedOut(node, x) - {x});
  }

  lemma UnlinkHead(node: Nodes, bins: seq<Addr>, map_: BinMap.Bits, depth: map<Addr, nat>, rank: Ranks, x: Addr,
      node': Nodes)
    requires BinsOK(node, bins, map_, depth, rank) && Head(node, x) && node[x].bk != x
    requires node[x].fd in node && node[x].bk in node
    requires node'.Keys == node.Keys - {x}
    requires var m, r := LinkedOut(node, x), node[x].bk; forall p | p in node' ::
             node'[p] == Taken(m, x, r, Side(m, x), p)
    ensures var r := node[x].bk;
            x in depth && BinsOK(node', BinsTaken(node, bins, x, r), map_, depth[r := depth[x]], rank)
  {
    hide TrieOK, RingsOK, MapOK, Taken, Side, Prefix;
    var m, r := LinkedOut(node, x), node[x].bk;
    LinkedOutFacts(node, bins, depth, rank, x);
    TakenKeepsTrie(m, bins, map_, depth, x, r, node');
    NotNull(node, bins, depth, r);
    ChildrenHeads(node, bins, depth, x);
    forall p | p in node' ensures LeftRing(node, x, node', p) {
      TakenRing(node, x, r, node', p);
    }
    UnlinkHeadRing(node, rank, x, node');
  }

  predicate LeftRing(node: Nodes, x: Addr, node': Nodes, p: Addr)
    requires x in node && p in node' && p in node
  {
    && node'[p].size == node[p].size
    && node'[p].fd == (if p == node[x].bk then node[x].fd else node[p].fd)
    && node'[p].bk == (if p == node[x].fd then node[x].bk else node[p].bk)
    && (node'[p].parent != Orphan <==> node[p].parent != Orphan || (p == node[x].bk && node[x].parent != Orphan))
  }

  lemma TakenRing(node: Nodes, x: Addr, r: Addr, node': Nodes, p: Addr)
    requires Head(node, x) && node[x].bk == r && r != x && r != 0 && node[x].fd in node && r in node && p in node'
    requires p in node && p != x
    requires node[x].left != 0 && node[x].left in node ==> Head(node, node[x].left)
    requires node[x].right != 0 && node[x].right in node ==> Head(node, node[x].right)
    requires var m := LinkedOut(node, x); node'[p] == Taken(m, x, r, Side(m, x), p)
    ensures LeftRing(node, x, node', p)
  {
  }

  lemma UnlinkHeadRing(node: Nodes, rank: Ranks, x: Addr, node': Nodes)
    requires RingsOK(node, rank) && Head(node, x) && node[x].bk != x && node'.Keys == node.Keys - {x}
    requires forall p | p in node' :: LeftRing(node, x, node', p)
    ensures RingsOK(node', rank)
  {
    hide RingOK;
    forall p | p in node' ensures LeftRing(node, x, node', p) {
    }
    Leave(node, rank, x, node');
  }

  lemma UnlinkLeaf(node: Nodes, bins: seq<Addr>, map_: BinMap.Bits, depth: map<Addr, nat>, rank: Ranks, x: Addr,
      node': Nodes)
    requires BinsOK(node, bins, map_, depth, rank) && Head(node, x) && node[x].bk == x
    requires node[x].left == node[x].right == 0
    requires node'.Keys == node.Keys - {x} && forall p | p in node' :: node'[p] == Taken(node, x, 0, Side(node, x), p)
    ensures node[x].index < NTREEBINS
    ensures BinsOK(node', BinsTaken(node, bins, x, 0), if node[x].parent.AtBin? then BinMap.Clear(map_, node[x].index)
            else map_, depth, rank)
  {
    hide TrieOK, RingsOK, MapOK;
    HeadHangs(node, bins, depth, x);
    var bins' := BinsTaken(node, bins, x, 0);
    var cut := (if node[x].parent.AtBin? then node
      else node[node[x].parent.at := node[node[x].parent.at].WithChild(Side(node, x), 0)])
               [x := node[x].(parent := Orphan)];
    assert Cut(node, bins, x, Side(node, x), cut, bins');
    CutLeaf(node, bins, depth, x, Side(node, x), cut, bins');
    DropOrphan(cut, bins', depth, x);
    assert node' == cut - {x};
    forall p | p in node' ensures SameRing(node, node', p) {
    }
    LeaveAlone(node, rank, x, node');
    if node[x].parent.AtBin? {
      ClearOK(map_, bins, node[x].index);
    }
  }

  lemma UnlinkInner(node: Nodes, bins: seq<Addr>, map_: BinMap.Bits, depth: map<Addr, nat>, rank: Ranks, x: Addr,
      r: Addr, q: Addr, b: nat, node': Nodes)
    requires BinsOK(node, bins, map_, depth, rank) && Head(node, x) && x in depth && node[x].bk == x
    requires Under(node, depth, x, r) && depth[x] < depth[r] && node[r].left == node[r].right == 0
    requires node[r].parent == AtNode(q) && q in node && q != r && b < 2 && node[q].Child(b) == r
    requires node'.Keys == node.Keys - {x}
    requires var m := node[q := node[q].WithChild(b, 0)]; forall p | p in node' ::
             node'[p] == Taken(m, x, r, Side(m, x), p)
    ensures var m := node[q := node[q].WithChild(b, 0)];
            BinsOK(node', BinsTaken(m, bins, x, r), map_, depth[r := depth[x]], rank)
  {
    hide TrieOK, RingsOK, MapOK, Taken, Side, Prefix, BinsTaken;
    var m := node[q := node[q].WithChild(b, 0)];
    var m2 := m[r := m[r].(parent := Orphan)];
    NotNull(node, bins, depth, r);
    TrieBins(node, bins, depth);
    CutLeaf(node, bins, depth, r, b, m2, bins);
    ChildrenHeads(node, bins, depth, x);
    InnerPlace(node, bins, depth, x, r, m, m2);
    forall p | p in node' ensures node'[p] == Taken(m2, x, r, Side(m2, x), p) && SameRing(node, node', p) {
      TakenIgnoresParent(m, x, r, p);
      InnerRing(node, x, r, q, b, node', p);
    }
    TakenKeepsTrie(m2, bins, map_, depth, x, r, node');
    LeaveAlone(node, rank, x, node');
  }

  lemma InnerPlace(node: Nodes, bins: seq<Addr>, depth: map<Addr, nat>, x: Addr, r: Addr, m: Nodes, m2: Nodes)
    requires TrieOK(node, bins, depth) && Head(node, x) && x in depth && Under(node, depth, x, r) && depth[x] < depth[r]
    requires r in m
    requires x in m && m[x].parent == node[x].parent && m2 == m[r := m[r].(parent := Orphan)]
    ensures node[x].parent != AtNode(r) && Side(m2, x) == Side(m, x)
    ensures BinsTaken(m2, bins, x, r) == BinsTaken(m, bins, x, r)
  {
    hide Prefix, Dir, Width, Large, ComputeTreeIndex, Unique, ChildOK;
    TrieNode(node, bins, depth, x);
  }

  lemma TakenIgnoresParent(m: Nodes, x: Addr, r: Addr, p: Addr)
    requires x in m && r in m && r != 0 && x != r && p in m && p != x && m[x].parent != AtNode(r)
    requires var m2 := m[r := m[r].(parent := Orphan)]; Side(m2, x) == Side(m, x)
    ensures var m2 := m[r := m[r].(parent := Orphan)]; Taken(m2, x, r, Side(m2, x), p) == Taken(m, x, r, Side(m, x), p)
  {
  }

  lemma InnerRing(node: Nodes, x: Addr, r: Addr, q: Addr, b: nat, node': Nodes, p: Addr)
    requires Head(node, x) && Head(node, r) && q in node && r != x && r != 0 && q != r && p in node && p in node'
    requires p != x
    requires node[x].left != 0 ==> Head(node, node[x].left)
    requires node[x].right != 0 ==> Head(node, node[x].right)
    requires var m := node[q := node[q].WithChild(b, 0)]; node'[p] == Taken(m, x, r, Side(m, x), p)
    ensures SameRing(node, node', p)
  {
  }

  lemma MayTakeNull(node: Nodes, x: Addr)
    requires x in node
    ensures MayTake(node, x, 0)
  {
  }

  lemma OnlyIsHead(node: Nodes, bins: seq<Addr>, depth: map<Addr, nat>, rank: Ranks, x: Addr)
    requires TrieOK(node, bins, depth) && RingsOK(node, rank) && x in node && node[x].bk == x
    ensures Head(node, x) && x in depth
  {
    hide Prefix, Dir, Width, Large, ComputeTreeIndex, Unique, ChildOK;
    TrieNode(node, bins, depth, x);
    if node[x].parent == Orphan {
      ChainedNotAlone(node, rank, x);
    }
  }

  /** Nulling the slot above the leaf leaves it ready to take the place of `x`. */
  lemma InnerMayBeReplaced(node: Nodes, bins: seq<Addr>, depth: map<Addr, nat>, x: Addr, r: Addr, q: Addr, b: nat,
      m: Nodes)
    requires TrieOK(node, bins, depth) && Head(node, x) && x in depth && Under(node, depth, x, r) && depth[x] < depth[r]
    requires node[r].left == node[r].right == 0 && node[r].parent == AtNode(q) && q in node && q != r && b < 2
    requires node[q].Child(b) == r
    requires m == node[q := node[q].WithChild(b, 0)]
    ensures r != 0 && r in m && Hangs(m, bins, x) && MayTake(m, x, r)
  {
    hide Prefix, Dir, Width, Large, ComputeTreeIndex, Unique, NodeOK, BinOK, Hangs, MayTake;
    NotNull(node, bins, depth, r);
    TrieBins(node, bins, depth);
    var m2 := m[r := m[r].(parent := Orphan)];
    CutLeaf(node, bins, depth, r, b, m2, bins);
    HeadMayBeReplaced(m2, bins, depth, x, r);
    InnerNotAbove(node, bins, depth, x, r);
    HangsIgnoresParent(m, bins, x, r);
  }

  lemma InnerNotAbove(node: Nodes, bins: seq<Addr>, depth: map<Addr, nat>, x: Addr, r: Addr)
    requires TrieOK(node, bins, depth) && Head(node, x) && x in depth && Under(node, depth, x, r) && depth[x] < depth[r]
    ensures node[x].parent != AtNode(r)
  {
    hide Prefix, Dir, Width, Large, ComputeTreeIndex, Unique, ChildOK;
    TrieNode(node, bins, depth, x);
  }

  lemma HangsIgnoresParent(m: Nodes, bins: seq<Addr>, x: Addr, r: Addr)
    requires r in m && r != x && x in m && m[x].parent != AtNode(r)
    requires var m2 := m[r := m[r].(parent := Orphan)]; Hangs(m2, bins, x) && MayTake(m2, x, r)
    ensures Hangs(m, bins, x) && MayTake(m, x, r)
  {
  }

  lemma TakenSizes(node: Nodes, m: Nodes, x: Addr, r: Addr, node': Nodes)
    requires x in node && x in m && m.Keys == node.Keys && forall p | p in node :: m[p].size == node[p].size
    requires r == 0 || r in m
    requires node'.Keys == node.Keys - {x} && forall p | p in node' :: node'[p] == Taken(m, x, r, Side(m, x), p)
    ensures Sizes(node') == Sizes(node) - {x}
  {
    hide Side;
    forall p | p in node' ensures node'[p].size == node[p].size {
    }
  }

  class TreeBins {
    var node: Nodes
    var bins: seq<Addr>
    var treemap: BinMap.Bits
    ghost var depth: map<Addr, nat>
    ghost var rank: Ranks
    ghost var clock: nat

    ghost predicate Valid()
      reads this
    {
      BinsOK(node, bins, treemap, depth, rank) && forall p | p in rank :: rank[p] < clock
    }

    /** The chunks in the bins, with their sizes. */
    ghost function Contents(): map<Addr, nat>
      reads this
    {
      Sizes(node)
    }

    constructor ()
      ensures Valid() && Contents() == map[]
    {
      node, bins, treemap, depth, rank, clock := map[], seq(NTREEBINS, _ => 0), 0, map[], map[], 0;
      new;
      forall i: nat | i < NTREEBINS ensures !BinMap.Marked(0, i) {
        BinMap.NoneMarked(i);
      }
    }

    /** `insert_large_chunk`; `ok` tells that no corruption was reported. */
    method Insert(x: Addr, s: nat, least: Addr) returns (ok: bool)
      requires Valid() && x !in node && x != 0 && Large(s)
      requires least <= x && forall p | p in node :: least <= p
      modifies this
      ensures ok && Valid() && Contents() == old(Contents())[x := s]
    {
      hide TrieOK, RingsOK, MapOK, OnPath, Large, ComputeTreeIndex, SizeBits, ShiftedLeft, SignBit, Prefix, Dir, Width,
        Joined;
      ok := true;
      var i := ComputeTreeIndex(s);
      TrieBins(node, bins, depth);
      MapRead(treemap, bins, i);
      if !BinMap.Marked(treemap, i) {
        var n := Node(s, i, x, x, 0, 0, AtBin(i));
        InsertRoot(node, bins, treemap, depth, rank, x, n, clock);
        treemap, bins := BinMap.Mark(treemap, i), bins[i := x];
        node := node[x := n];
        depth, rank, clock := depth[x := 0], rank[x := clock], clock + 1;
      } else {
        var t := bins[i];
        var k := SizeBits(i, s, 0);
        SearchStart(node, bins, depth, s);
        while true
          invariant Valid() && node == old(node) && bins == old(bins) && treemap == old(treemap) && depth == old(depth)
          invariant OnPath(node, bins, depth, s, t) && PathFacts(node, depth, i, t) && k == SizeBits(i, s, depth[t])
          decreases Width(i) - depth[t]
        {
          if node[t].size != s {
            SearchStep(node, bins, depth, s, t);
            SignIsDir(i, s, depth[t]);
            SizeBitsShift(i, s, depth[t]);
            var b := SignBit(k);
            k := ShiftedLeft(k);
            if node[t].Child(b) != 0 {
              t := node[t].Child(b);
            } else {
              ok := least <= t;
              if ok {
                HangLeaf(x, s, i, t, b);
              }
              return;
            }
          } else {
            FdIsNode(node, rank, t);
            ok := least <= t && least <= node[t].fd;
            if ok {
              Chain(x, s, i, t);
            }
            return;
          }
        }
      }
    }

    /** The end of the search at a missing child: `x` becomes a leaf below `t`. */
    method HangLeaf(x: Addr, s: nat, i: nat, t: Addr, b: nat)
      requires Valid() && x !in node && x != 0 && Large(s) && i == ComputeTreeIndex(s)
      requires OnPath(node, bins, depth, s, t) && PathFacts(node, depth, i, t) && node[t].size != s
      requires b == Dir(i, s, depth[t]) && node[t].Child(b) == 0
      modifies this
      ensures Valid() && Contents() == old(Contents())[x := s]
    {
      hide TrieOK, RingsOK, MapOK, OnPath, Large, ComputeTreeIndex, Prefix, Dir, Width;
      var n := Node(s, i, x, x, 0, 0, AtNode(t));
      InsertLeaf(node, bins, treemap, depth, rank, x, n, t, clock);
      node := node[t := node[t].WithChild(b, x)];
      node := node[x := n];
      depth, rank, clock := depth[x := depth[t] + 1], rank[x := clock], clock + 1;
    }

    /** The end of the search at a chunk of the same size: `x` joins the ring of `t`. */
    method Chain(x: Addr, s: nat, i: nat, t: Addr)
      requires Valid() && x !in node && x != 0 && Large(s) && i == ComputeTreeIndex(s)
      requires Head(node, t) && node[t].size == s
      modifies this
      ensures Valid() && Contents() == old(Contents())[x := s]
    {
      hide TrieOK, RingsOK, MapOK, Large, ComputeTreeIndex;
      var f := node[t].fd;
      var n := Node(s, i, f, t, 0, 0, Orphan);
      InsertChained(node, bins, treemap, depth, rank, x, n, t, clock);
      node := node[t := node[t].(fd := x)];
      node := node[f := node[f].(bk := x)];
      node := node[x := n];
      rank, clock := rank[x := clock], clock + 1;
    }
  
    /** `unlink_large_chunk` */
    method Unlink(x: Addr, least: Addr) returns (ok: bool)
      requires Valid() && x in node && forall p | p in node :: least <= p
      modifies this
      ensures ok && Valid() && Contents() == old(Contents()) - {x}
    {
      hide *;
      if node[x].bk != x {
        ok := UnlinkMember(x, least);
      } else {
        ok := UnlinkOnly(x, least);
      }
    }

    /** `x` shares its size with others: its ring closes behind it, and if it was the head the chunk
        before it takes its place. */
    method UnlinkMember(x: Addr, least: Addr) returns (ok: bool)
      requires Valid() && x in node && forall p | p in node :: least <= p
      requires node[x].bk != x
      modifies this
      ensures ok && Valid() && Contents() == old(Contents()) - {x}
    {
      hide TrieOK, RingsOK, MapOK, Taken, Side, Hangs, MayTake;
      ghost var node0 := node;
      LinkedOutFacts(node, bins, depth, rank, x);
      var f, r := node[x].fd, node[x].bk;
      ok := least <= f && node[f].bk == x && node[r].fd == x;
      node := node[f := node[f].(bk := r)];
      node := node[r := node[r].(fd := f)];
      if node[x].parent == Orphan {
        UnlinkChained(node0, bins, treemap, depth, rank, x);
        node := node - {x};
      } else {
        HeadMayBeReplaced(node, bins, depth, x, r);
        var ok' := TakePlace(x, r, least);
        ok := ok && ok';
        NotNull(node0, old(bins), depth, r);
        node := node - {x};
        UnlinkHead(node0, old(bins), old(treemap), depth, rank, x, node);
        TakenSizes(node0, LinkedOut(node0, x), x, r, node);
        depth := depth[r := depth[x]];
      }
    }

    /** `x` is the only chunk of its size: a leaf below it takes its place, or none if it is a leaf. */
    method UnlinkOnly(x: Addr, least: Addr) returns (ok: bool)
      requires Valid() && x in node && forall p | p in node :: least <= p
      requires node[x].bk == x
      modifies this
      ensures ok && Valid() && Contents() == old(Contents()) - {x}
    {
      hide TrieOK, RingsOK, MapOK, Taken, Side, Hangs, MayTake, BinsTaken, Under;
      ghost var node0 := node;
      OnlyIsHead(node, bins, depth, rank, x);
      if node[x].right == 0 && node[x].left == 0 {
        HeadHangs(node, bins, depth, x);
        MayTakeNull(node, x);
        ok := TakePlace(x, 0, least);
        node := node - {x};
        UnlinkLeaf(node0, old(bins), old(treemap), depth, rank, x, node);
        TakenSizes(node0, node0, x, 0, node);
      } else {
        var r, q, b := RightmostLeaf(x);
        ok := least <= q;
        node := node[q := node[q].WithChild(b, 0)];
        InnerMayBeReplaced(node0, bins, depth, x, r, q, b, node);
        ghost var m := node;
        var ok' := TakePlace(x, r, least);
        ok := ok && ok';
        node := node - {x};
        UnlinkInner(node0, old(bins), old(treemap), depth, rank, x, r, q, b, node);
        TakenSizes(node0, m, x, r, node);
        depth := depth[r := depth[x]];
      }
    }

    /** The leaf reached from `x` by going right wherever possible, with the slot that holds it. */
    method RightmostLeaf(x: Addr) returns (r: Addr, q: Addr, b: nat)
      requires Valid() && Head(node, x) && x in depth && (node[x].right != 0 || node[x].left != 0)
      ensures Under(node, depth, x, r) && depth[x] < depth[r] && node[r].left == node[r].right == 0
      ensures node[r].parent == AtNode(q) && q in node && q != r && b < 2 && node[q].Child(b) == r
    {
      hide TrieOK, RingsOK, MapOK, Large, ComputeTreeIndex, Prefix, Dir, Width;
      q := x;
      if node[x].right != 0 {
        r, b := node[x].right, 1;
      } else {
        r, b := node[x].left, 0;
      }
      UnderSelf(node, depth, x);
      ChildUnder(node, bins, depth, x, x, b);
      while node[r].right != 0 || node[r].left != 0
        invariant Under(node, depth, x, r) && depth[x] < depth[r] <= 64
        invariant node[r].parent == AtNode(q) && q in node && q != r && b < 2 && node[q].Child(b) == r
        decreases 64 - depth[r]
      {
        q := r;
        b := if node[r].right != 0 then 1 else 0;
        ChildUnder(node, bins, depth, x, r, b);
        r := if node[r].right != 0 then node[r].right else node[r].left;
      }
    }

    /** The relinking part of `unlink_large_chunk`: `r` (or null) is put where `x` hangs. */
    method TakePlace(x: Addr, r: Addr, least: Addr) returns (ok: bool)
      requires Hangs(node, bins, x) && MayTake(node, x, r)
      requires forall p | p in node :: least <= p
      modifies this`node, this`bins, this`treemap
      ensures ok && node.Keys == old(node.Keys)
      ensures forall p | p in node && p != x :: node[p] == Taken(old(node), x, r, Side(old(node), x), p)
      ensures bins == BinsTaken(old(node), old(bins), x, r)
      ensures treemap == if old(node[x].parent.AtBin?) && r == 0 then BinMap.Clear(old(treemap), old(node[x].index))
              else old(treemap)
    {
      ok := LinkAbove(x, r, least);
      if r != 0 {
        var ok' := Adopt(x, r, least);
        ok := ok && ok';
      }
    }

    /** The slot above `x` gets `r`; an emptied bin loses its mark. */
    method LinkAbove(x: Addr, r: Addr, least: Addr) returns (ok: bool)
      requires Hangs(node, bins, x) && forall p | p in node :: least <= p
      modifies this`node, this`bins, this`treemap
      ensures ok && node.Keys == old(node.Keys)
      ensures forall p | p in node ::
                node[p] == if old(node[x].parent) == AtNode(p) then old(node[p]).WithChild(Side(old(node), x), r)
                  else old(node[p])
      ensures bins == BinsTaken(old(node), old(bins), x, r)
      ensures treemap == if old(node[x].parent.AtBin?) && r == 0 then BinMap.Clear(old(treemap), old(node[x].index))
              else old(treemap)
    {
      ok := true;
      var i := node[x].index;
      if bins[i] == x {
        bins := bins[i := r];
        if r == 0 {
          treemap := BinMap.Clear(treemap, i);
        }
      } else {
        var q := node[x].parent.at;
        ok := least <= q;
        if node[q].left == x {
          node := node[q := node[q].(left := r)];
        } else {
          node := node[q := node[q].(right := r)];
        }
      }
    }

    /** `r` takes the parent link and the children of `x`. */
    method Adopt(x: Addr, r: Addr, least: Addr) returns (ok: bool)
      requires x in node && r != 0 && MayTake(node, x, r) && forall p | p in node :: least <= p
      modifies this`node
      ensures ok && node.Keys == old(node.Keys)
      ensures forall p | p in node && p != x ::
                node[p] == if p == r then Adopter(old(node), x, r)
                           else if p != 0 && (p == old(node[x].left) || p == old(node[x].right))
                             then old(node[p]).(parent := AtNode(r))
                           else old(node[p])
    {
      var n := node[x];
      ok := least <= r;
      node := node[r := node[r].(parent := n.parent)];
      if n.left != 0 {
        ok := ok && least <= n.left;
        node := node[r := node[r].(left := n.left)];
        node := node[n.left := node[n.left].(parent := AtNode(r))];
      }
      if n.right != 0 {
        ok := ok && least <= n.right;
        node := node[r := node[r].(right := n.right)];
        node := node[n.right := node[n.right].(parent := AtNode(r))];
      }
    }
  }
}
