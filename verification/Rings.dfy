/** Chunks of one size hang together in a ring by `fd` and `bk`; one of them, the head, is in the trie. */
module Rings {
  import opened Trie

  /** Insertion times: along `fd` a ring runs from its newest chained chunk to older ones and to the head. */
  type Ranks = map<Addr, nat>

  predicate RingOK(node: Nodes, rank: Ranks, p: Addr)
    requires p in node
  {
    var n := node[p];
    && p in rank && n.fd in node && n.bk in node && n.fd in rank
    && node[n.fd].bk == p && node[n.bk].fd == p && node[n.fd].size == n.size
    && (n.parent == Orphan ==> rank[n.fd] < rank[p])
  }

  lemma Neighbours(node: Nodes, rank: Ranks, p: Addr)
    requires RingsOK(node, rank) && p in node
    ensures node[p].fd in node && node[p].bk in node && RingOK(node, rank, p)
    ensures RingOK(node, rank, node[p].fd) && RingOK(node, rank, node[p].bk)
    ensures node[node[p].bk].size == node[node[p].fd].size == node[p].size
  {
    assert RingOK(node, rank, p);
    assert RingOK(node, rank, node[p].bk);
  }

  ghost predicate OneHead(node: Nodes)
  {
    forall p, q | Head(node, p) && Head(node, q) && node[p].size == node[q].size :: p == q
  }

  ghost predicate RingsOK(node: Nodes, rank: Ranks)
  {
    OneHead(node) && forall p {:trigger RingOK(node, rank, p)} | p in node :: RingOK(node, rank, p)
  }

  /** The chunk reached by `n` steps along `fd`. */
  function Walk(node: Nodes, p: Addr, n: nat): Addr
    decreases n
  {
    if n == 0 || p !in node then p else Walk(node, node[p].fd, n - 1)
  }

  /** All chunks of one size are on one ring: each reaches the head of its size along `fd`. */
  lemma {:induction false} ReachesHead(node: Nodes, rank: Ranks, p: Addr) returns (n: nat, h: Addr)
    requires RingsOK(node, rank) && p in node
    ensures Head(node, h) && node[h].size == node[p].size && Walk(node, p, n) == h
    ensures p != h ==> node[h].bk != h
    decreases if p in rank then rank[p] else 0
  {
    assert RingOK(node, rank, p);
    if Head(node, p) {
      n, h := 0, p;
    } else {
      n, h := ReachesHead(node, rank, node[p].fd);
      n := n + 1;
    }
  }

  /** A head that is its own neighbour is the only chunk of its size. */
  lemma Alone(node: Nodes, rank: Ranks, x: Addr)
    requires RingsOK(node, rank) && Head(node, x) && node[x].bk == x
    ensures forall p | p in node && node[p].size == node[x].size :: p == x
  {
    forall p | p in node && node[p].size == node[x].size ensures p == x {
      var n, h := ReachesHead(node, rank, p);
    }
  }

  /** A chained chunk has another neighbour, and so has the head of a ring with one. */
  lemma ChainedNotAlone(node: Nodes, rank: Ranks, x: Addr)
    requires RingsOK(node, rank) && x in node && node[x].parent == Orphan
    ensures node[x].bk != x && node[x].fd != x
  {
    assert RingOK(node, rank, x);
  }

  /** The same size, ring links and status. */
  predicate SameRing(node: Nodes, node': Nodes, p: Addr)
    requires p in node
  {
    p in node' && node'[p].size == node[p].size && node'[p].fd == node[p].fd && node'[p].bk == node[p].bk
    && (node'[p].parent == Orphan <==> node[p].parent == Orphan)
  }

  lemma RingFrame(node: Nodes, node': Nodes, rank: Ranks, rank': Ranks, p: Addr)
    requires p in node && RingOK(node, rank, p)
    requires SameRing(node, node', p) && SameRing(node, node', node[p].fd) && SameRing(node, node', node[p].bk)
    requires p in rank' && rank'[p] == rank[p] && node[p].fd in rank' && rank'[node[p].fd] == rank[node[p].fd]
    ensures RingOK(node', rank', p)
  {
  }

  lemma AddAlone(node: Nodes, rank: Ranks, x: Addr, n: Node, node': Nodes, k: nat)
    requires RingsOK(node, rank) && x !in node && n.fd == n.bk == x && n.parent != Orphan
    requires forall p | p in node :: node[p].size != n.size
    requires node'.Keys == node.Keys + {x} && node'[x] == n
    requires forall p | p in node :: SameRing(node, node', p)
    ensures RingsOK(node', rank[x := k])
  {
    hide SameRing, RingOK;
    var rank' := rank[x := k];
    forall p | p in node' ensures RingOK(node', rank', p) {
      if p == x {
        AloneOK(node', rank', x);
      } else {
        Neighbours(node, rank, p);
        Ranked(node, rank, p);
        RingFrame(node, node', rank, rank', p);
      }
    }
    AddOneHead(node, x, n, node');
  }

  lemma AloneOK(node: Nodes, rank: Ranks, x: Addr)
    requires x in node && x in rank && node[x].fd == node[x].bk == x && node[x].parent != Orphan
    ensures RingOK(node, rank, x)
  {
  }

  lemma Ranked(node: Nodes, rank: Ranks, p: Addr)
    requires p in node && RingOK(node, rank, p)
    ensures p in rank && node[p].fd in rank
  {
  }

  lemma AddOneHead(node: Nodes, x: Addr, n: Node, node': Nodes)
    requires OneHead(node) && forall p | p in node :: node[p].size != n.size
    requires node'.Keys == node.Keys + {x} && node'[x] == n && x !in node
    requires forall p | p in node :: SameRing(node, node', p)
    ensures OneHead(node')
  {
    forall p, q | Head(node', p) && Head(node', q) && node'[p].size == node'[q].size ensures p == q {
      assert p in node ==> SameRing(node, node', p);
      assert q in node ==> SameRing(node, node', q);
    }
  }

  function Joined(node: Nodes, t: Addr, x: Addr, n: Node): Nodes
    requires t in node && node[t].fd in node
  {
    var mid := node[t := node[t].(fd := x)];
    mid[node[t].fd := mid[node[t].fd].(bk := x)][x := n]
  }

  /** `x` is linked in on the `fd` side of the head `t`. */
  lemma Join(node: Nodes, rank: Ranks, t: Addr, x: Addr, n: Node, k: nat)
    requires RingsOK(node, rank) && Head(node, t) && x !in node
    requires n.size == node[t].size && n.fd == node[t].fd && n.bk == t && n.parent == Orphan
    requires forall p | p in rank :: rank[p] < k
    ensures node[t].fd in node && RingsOK(Joined(node, t, x, n), rank[x := k])
  {
    hide RingOK;
    Neighbours(node, rank, t);
    var node', rank' := Joined(node, t, x, n), rank[x := k];
    forall p | p in node' ensures RingOK(node', rank', p) {
      JoinOne(node, rank, t, x, n, k, p);
    }
    forall p, q | Head(node', p) && Head(node', q) && node'[p].size == node'[q].size ensures p == q {
      assert Head(node, p) && Head(node, q);
    }
  }

  lemma JoinOne(node: Nodes, rank: Ranks, t: Addr, x: Addr, n: Node, k: nat, p: Addr)
    requires Head(node, t) && x !in node && RingOK(node, rank, t) && RingOK(node, rank, node[t].fd)
    requires n.size == node[t].size && n.fd == node[t].fd && n.bk == t && n.parent == Orphan
    requires forall p | p in rank :: rank[p] < k
    requires p == x || (p in node && RingOK(node, rank, p))
    ensures RingOK(Joined(node, t, x, n), rank[x := k], p)
  {
  }

  /** `x` is linked out; if it was the head, the chunk before it is the new head. */
  lemma Leave(node: Nodes, rank: Ranks, x: Addr, node': Nodes)
    requires RingsOK(node, rank) && x in node && node[x].bk != x
    requires node'.Keys == node.Keys - {x}
    requires forall p | p in node' ::
               && node'[p].size == node[p].size
               && node'[p].fd == (if p == node[x].bk then node[x].fd else node[p].fd)
               && node'[p].bk == (if p == node[x].fd then node[x].bk else node[p].bk)
               && (node'[p].parent != Orphan <==>
                    node[p].parent != Orphan || (p == node[x].bk && node[x].parent != Orphan))
    ensures RingsOK(node', rank)
  {
    hide RingOK;
    Neighbours(node, rank, x);
    forall p | p in node' ensures RingOK(node', rank, p) {
      LeaveOne(node, rank, x, node', p);
    }
    forall p, q | Head(node', p) && Head(node', q) && node'[p].size == node'[q].size ensures p == q {
      var p0, q0 := if p == node[x].bk && Head(node, x) then x else p, if q == node[x].bk && Head(node, x) then x
        else q;
      assert Head(node, p0) && Head(node, q0) && node[p0].size == node[q0].size;
    }
  }

  lemma LeaveOne(node: Nodes, rank: Ranks, x: Addr, node': Nodes, p: Addr)
    requires x in node && node[x].bk != x && p in node' && p in node && p != x
    requires RingOK(node, rank, x) && RingOK(node, rank, node[x].bk) && RingOK(node, rank, node[x].fd)
    requires RingOK(node, rank, p)
    requires node'.Keys == node.Keys - {x}
    requires forall p | p in node' ::
               && node'[p].size == node[p].size
               && node'[p].fd == (if p == node[x].bk then node[x].fd else node[p].fd)
               && node'[p].bk == (if p == node[x].fd then node[x].bk else node[p].bk)
               && (node'[p].parent != Orphan <==>
                    node[p].parent != Orphan || (p == node[x].bk && node[x].parent != Orphan))
    ensures RingOK(node', rank, p)
  {
  }

  /** The only chunk of its size goes. */
  lemma LeaveAlone(node: Nodes, rank: Ranks, x: Addr, node': Nodes)
    requires RingsOK(node, rank) && Head(node, x) && node[x].bk == x
    requires node'.Keys == node.Keys - {x}
    requires forall p | p in node' :: SameRing(node, node', p)
    ensures RingsOK(node', rank)
  {
    hide RingOK;
    Alone(node, rank, x);
    forall p | p in node' ensures RingOK(node', rank, p) {
      Neighbours(node, rank, p);
      LeftAlone(node, rank, x, node', p);
    }
    forall p, q | Head(node', p) && Head(node', q) && node'[p].size == node'[q].size ensures p == q {
      assert SameRing(node, node', p) && SameRing(node, node', q);
    }
  }

  lemma LeftAlone(node: Nodes, rank: Ranks, x: Addr, node': Nodes, p: Addr)
    requires x in node && p in node' && p in node && RingOK(node, rank, p) && RingOK(node, rank, node[p].bk)
    requires forall p | p in node && node[p].size == node[x].size :: p == x
    requires node'.Keys == node.Keys - {x}
    requires forall p | p in node' :: SameRing(node, node', p)
    ensures RingOK(node', rank, p)
  {
    hide SameRing;
    RingFrame(node, node', rank, rank, p);
  }
}
