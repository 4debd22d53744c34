/** Boundary tags: the words at the borders of chunks, and the invariant that ties them to the tiling. */
module BoundaryTags {
  import opened Words

  type Addr = nat

  /** The words of memory, and the tiling that they stand for: chunks with their sizes, those in use,
      the top chunk, and the places where a run of fenceposts ends a segment. */
  datatype Tags = Tags(mem: map<Addr, nat>, ch: map<Addr, nat>, used: set<Addr>, top: Addr, fence: set<Addr>)
  {
    function W(a: Addr): nat
    {
      if a in mem then mem[a] else 0
    }

    function HeadOf(p: Addr): nat
    {
      W(p + 8)
    }
  }

  /** The size and status fields of a chunk's own head. */
  predicate HeadOK(h: Tags, p: Addr)
    requires p in h.ch
  {
    && p > 0 && p % 16 == 0 && h.ch[p] % 16 == 0 && h.ch[p] >= (if p == h.top then 16 else MIN_CHUNK_SIZE)
    && SizeOf(h.HeadOf(p)) == h.ch[p] && (Cin(h.HeadOf(p)) <==> p in h.used)
    && (p !in h.used ==> Pin(h.HeadOf(p)))
  }

  /** What the chunk's end says about it: the next head's PINUSE bit, and its size if it is free. The chunk
      after a free one is in use; only top and the last chunk before fenceposts have none after them. */
  predicate NextOK(h: Tags, p: Addr)
    requires p in h.ch
  {
    var n := p + h.ch[p];
    if p == h.top then p !in h.used && n !in h.ch && h.HeadOf(n) == TOP_FOOT_SIZE
    else if n in h.ch then (Pin(h.HeadOf(n)) <==> p in h.used) && (p !in h.used ==> h.W(n) == h.ch[p] && n in h.used)
    else p in h.used && n in h.fence
  }

  /** A clear PINUSE bit promises a free chunk before, of the size in prev_foot. */
  predicate PrevOK(h: Tags, p: Addr)
    requires p in h.ch
  {
    Pin(h.HeadOf(p)) ||
    (h.W(p) <= p && p - h.W(p) in h.ch && h.ch[p - h.W(p)] == h.W(p) && p - h.W(p) !in h.used && p - h.W(p) != h.top)
  }

  predicate ChunkOK(h: Tags, p: Addr)
    requires p in h.ch
  {
    HeadOK(h, p) && NextOK(h, p) && PrevOK(h, p)
  }

  predicate Apart(h: Tags, p: Addr, q: Addr)
    requires p in h.ch && q in h.ch
  {
    p + h.ch[p] <= q || q + h.ch[q] <= p
  }

  /** The head of a fencepost: 8 bytes, it and the chunk before it in use */
  predicate FenceOK(h: Tags, f: Addr)
  {
    h.HeadOf(f) == 11 && f !in h.ch && f % 16 == 0
  }

  /** The words past the last chunk of a segment are in no chunk. */
  predicate EndApart(h: Tags, f: Addr, p: Addr)
    requires p in h.ch
  {
    p + h.ch[p] <= f || f + 16 <= p
  }

  function TopEnd(h: Tags): Addr
  {
    if h.top in h.ch then h.top + h.ch[h.top] else 0
  }

  ghost predicate OK(h: Tags)
  {
    && (forall p {:trigger ChunkOK(h, p)} | p in h.ch :: ChunkOK(h, p))
    && (forall p, q {:trigger Apart(h, p, q)} | p in h.ch && q in h.ch && p != q :: Apart(h, p, q))
    && (forall f {:trigger FenceOK(h, f)} | f in h.fence :: FenceOK(h, f))
    && (forall f, p {:trigger EndApart(h, f, p)} | f in h.fence && p in h.ch :: EndApart(h, f, p))
    && (h.top in h.ch ==> forall p {:trigger EndApart(h, TopEnd(h), p)} | p in h.ch :: EndApart(h, TopEnd(h), p))
    && h.used <= h.ch.Keys && (h.top in h.ch || h.top == 0)
  }

  // ----- Replacing the tiling of one region -----

  predicate Outside(a: Addr, b: Addr, p: Addr)
  {
    p < a || b <= p
  }

  /** The chunk at `p` lies wholly before, wholly after or wholly inside [a, b). */
  predicate NoStraddle(h: Tags, a: Addr, b: Addr, p: Addr)
    requires p in h.ch
  {
    p + h.ch[p] <= a || b <= p || (a <= p && p + h.ch[p] <= b)
  }

  /** Outside [a, b) the two states have the same chunks with the same status. */
  predicate SameOutside(h: Tags, h': Tags, a: Addr, b: Addr, p: Addr)
  {
    Outside(a, b, p) ==>
        (p in h.ch <==> p in h'.ch) && (p in h.ch ==> h'.ch[p] == h.ch[p]) && (p in h.used <==> p in h'.used)
  }

  /** Only words from the head at `a` to the head at `b` differ. */
  predicate SameWords(h: Tags, h': Tags, a: Addr, b: Addr, w: Addr)
  {
    w < a + 8 || b + 8 < w ==> h'.W(w) == h.W(w)
  }

  /** How the top chunk may change: not at all, to one that ends the region, or to none. */
  ghost predicate TopMoves(h: Tags, h': Tags, a: Addr, b: Addr)
  {
    || (h'.top == h.top && !(a <= h.top < b) && (h.top in h.ch ==> h.top + h.ch[h.top] + 16 <= a || b <= h.top))
    || ((a <= h.top < b || h.top !in h.ch) && a <= h'.top < b && h'.top in h'.ch && h'.top + h'.ch[h'.top] == b
        && forall p | p in h.ch && b <= p :: b + 16 <= p)
    || (a <= h.top < b && h'.top !in h'.ch && h'.top == 0)
  }

  /** Fenceposts stay where they were, outside the region. */
  ghost predicate FencesStay(h: Tags, h': Tags, a: Addr, b: Addr)
  {
    h'.fence == h.fence && (forall f | f in h.fence :: f + 16 <= a || b <= f)
      && (b in h.fence ==> h'.HeadOf(b) == FENCEPOST_HEAD)
  }

  /** Towards the chunk before the region nothing changes. */
  ghost predicate FrontKept(h: Tags, h': Tags, a: Addr)
  {
    && (!Pin(h'.HeadOf(a)) ==> a in h'.used)
    && if a in h.ch then Pin(h'.HeadOf(a)) == Pin(h.HeadOf(a)) else forall p | p in h.ch :: p + h.ch[p] != a
  }

  /** The state `h'` retiles [a, b) of the state `h`; the chunks of the region and the one after are in order. */
  ghost predicate Retiles(h: Tags, h': Tags, a: Addr, b: Addr)
  {
    && 0 < a < b && a % 16 == 0 && b % 16 == 0 && a in h'.ch && h'.used <= h'.ch.Keys
    && (forall p {:trigger NoStraddle(h, a, b, p)} | p in h.ch :: NoStraddle(h, a, b, p))
    && (forall p {:trigger NoStraddle(h', a, b, p)} | p in h'.ch :: NoStraddle(h', a, b, p))
    && (forall p {:trigger SameOutside(h, h', a, b, p)} :: SameOutside(h, h', a, b, p))
    && (forall w {:trigger SameWords(h, h', a, b, w)} :: SameWords(h, h', a, b, w))
    && (forall p {:trigger ChunkOK(h', p)} | p in h'.ch && a <= p <= b :: ChunkOK(h', p))
    && (forall p, q {:trigger Apart(h', p, q)} | p in h'.ch && q in h'.ch && a <= p < b && a <= q < b && p != q ::
       Apart(h', p, q))
    && FrontKept(h, h', a) && FencesStay(h, h', a, b) && TopMoves(h, h', a, b)
  }

  lemma Retile(h: Tags, h': Tags, a: Addr, b: Addr)
    requires OK(h) && Retiles(h, h', a, b)
    ensures OK(h')
  {
    hide ChunkOK, NoStraddle, SameOutside, SameWords, FrontKept, FencesStay, TopMoves, Apart, FenceOK, EndApart;
    forall p | p in h'.ch ensures ChunkOK(h', p) {
      RetileChunk(h, h', a, b, p);
    }
    forall p, q | p in h'.ch && q in h'.ch && p != q ensures Apart(h', p, q) {
      RetileApart(h, h', a, b, p, q);
    }
    forall f | f in h'.fence ensures FenceOK(h', f) {
      RetileFence(h, h', a, b, f);
    }
    forall f, p | f in h'.fence && p in h'.ch ensures EndApart(h', f, p) {
      RetileFenceApart(h, h', a, b, f, p);
    }
    forall p | h'.top in h'.ch && p in h'.ch ensures EndApart(h', TopEnd(h'), p) {
      RetileTopApart(h, h', a, b, p);
    }
    RetileTop(h, h', a, b);
  }

  lemma RetileTop(h: Tags, h': Tags, a: Addr, b: Addr)
    requires OK(h) && Retiles(h, h', a, b)
    ensures h'.top in h'.ch || h'.top == 0
  {
    hide ChunkOK, SameWords, FrontKept, Apart, FenceOK, FencesStay, NoStraddle;
    assert SameOutside(h, h', a, b, h.top);
  }

  lemma RetileChunk(h: Tags, h': Tags, a: Addr, b: Addr, p: Addr)
    requires OK(h) && Retiles(h, h', a, b) && p in h'.ch
    ensures ChunkOK(h', p)
  {
    hide ChunkOK, NoStraddle, SameWords, FrontKept, FencesStay, TopMoves;
    if p < a || b < p {
      assert SameOutside(h, h', a, b, p) && ChunkOK(h, p);
      RetileHead(h, h', a, b, p);
      RetileNext(h, h', a, b, p);
      RetilePrev(h, h', a, b, p);
      assert ChunkOK(h', p) by {
        Assemble(h', p);
      }
    } else {
      assert ChunkOK(h', p);
    }
  }

  lemma Assemble(h: Tags, p: Addr)
    requires p in h.ch && HeadOK(h, p) && NextOK(h, p) && PrevOK(h, p)
    ensures ChunkOK(h, p)
  {
    hide HeadOK, NextOK, PrevOK;
  }

  lemma TopSame(h: Tags, h': Tags, a: Addr, b: Addr, p: Addr)
    requires TopMoves(h, h', a, b) && p in h.ch && Outside(a, b, p) && p != 0
    ensures p == h'.top <==> p == h.top
  {
  }

  lemma RetileHead(h: Tags, h': Tags, a: Addr, b: Addr, p: Addr)
    requires OK(h) && Retiles(h, h', a, b) && p in h.ch && p in h'.ch && (p < a || b < p)
    ensures HeadOK(h', p)
  {
    hide NoStraddle, FrontKept, FencesStay, TopMoves, NextOK, PrevOK, SizeOf, Pin, Cin, Apart, FenceOK, EndApart;
    assert SameOutside(h, h', a, b, p) && ChunkOK(h, p) && SameWords(h, h', a, b, p + 8);
    TopSame(h, h', a, b, p);
  }

  lemma RetilePrev(h: Tags, h': Tags, a: Addr, b: Addr, p: Addr)
    requires OK(h) && Retiles(h, h', a, b) && p in h.ch && p in h'.ch && (p < a || b < p)
    ensures PrevOK(h', p)
  {
    hide FrontKept, FencesStay, TopMoves, NextOK, SizeOf, Pin, Cin, Apart, FenceOK, EndApart;
    assert ChunkOK(h, p) && SameWords(h, h', a, b, p + 8) && SameWords(h, h', a, b, p);
    if !Pin(h.HeadOf(p)) {
      var r := p - h.W(p);
      assert NoStraddle(h, a, b, r) && SameOutside(h, h', a, b, r) && ChunkOK(h, r);
      TopSame(h, h', a, b, r);
    }
  }

  lemma RetileNext(h: Tags, h': Tags, a: Addr, b: Addr, p: Addr)
    requires OK(h) && Retiles(h, h', a, b) && p in h.ch && p in h'.ch && (p < a || b < p)
    ensures NextOK(h', p)
  {
    hide FencesStay, TopMoves, PrevOK, SizeOf, Pin, Cin, Apart, FenceOK, EndApart;
    var n := p + h.ch[p];
    assert ChunkOK(h, p) && NoStraddle(h, a, b, p) && SameOutside(h, h', a, b, p);
    assert SameOutside(h, h', a, b, n) && SameWords(h, h', a, b, n) && SameWords(h, h', a, b, n + 8);
    TopSame(h, h', a, b, p);
    assert h'.fence == h.fence by {
      FenceSetStays(h, h', a, b);
    }
    assert n == a || n < a || b < n;
    assert n != a ==> h'.HeadOf(n) == h.HeadOf(n) && h'.W(n) == h.W(n);
    if n == a {
      assert a in h.ch && h'.W(a) == h.W(a) && p != h.top;
    } else if n in h.ch {
      assert n in h'.ch;
    } else {
      assert n !in h'.ch;
    }
  }

  lemma FenceSetStays(h: Tags, h': Tags, a: Addr, b: Addr)
    requires FencesStay(h, h', a, b)
    ensures h'.fence == h.fence
  {
  }

  lemma RetileApart(h: Tags, h': Tags, a: Addr, b: Addr, p: Addr, q: Addr)
    requires OK(h) && Retiles(h, h', a, b) && p in h'.ch && q in h'.ch && p != q
    ensures Apart(h', p, q)
  {
    hide ChunkOK, SameWords, FrontKept, FencesStay, TopMoves, FenceOK, EndApart;
    assert NoStraddle(h', a, b, p) && NoStraddle(h', a, b, q);
    assert SameOutside(h, h', a, b, p) && SameOutside(h, h', a, b, q);
    if Outside(a, b, p) && Outside(a, b, q) {
      assert Apart(h, p, q);
    }
  }

  lemma RetileFence(h: Tags, h': Tags, a: Addr, b: Addr, f: Addr)
    requires OK(h) && Retiles(h, h', a, b) && f in h'.fence
    ensures FenceOK(h', f)
  {
    hide ChunkOK, NoStraddle, FrontKept, TopMoves, Apart, EndApart;
    assert FenceOK(h, f) && SameWords(h, h', a, b, f + 8) && SameOutside(h, h', a, b, f);
  }

  lemma RetileFenceApart(h: Tags, h': Tags, a: Addr, b: Addr, f: Addr, p: Addr)
    requires OK(h) && Retiles(h, h', a, b) && f in h'.fence && p in h'.ch
    ensures EndApart(h', f, p)
  {
    hide ChunkOK, SameWords, FrontKept, TopMoves, Apart, FenceOK;
    assert NoStraddle(h', a, b, p) && SameOutside(h, h', a, b, p);
    assert FencesStay(h, h', a, b);
    if Outside(a, b, p) {
      assert EndApart(h, f, p);
    }
  }

  lemma RetileTopApart(h: Tags, h': Tags, a: Addr, b: Addr, p: Addr)
    requires OK(h) && Retiles(h, h', a, b) && h'.top in h'.ch && p in h'.ch
    ensures EndApart(h', TopEnd(h'), p)
  {
    hide ChunkOK, SameWords, FrontKept, Apart, FenceOK, FencesStay;
    assert NoStraddle(h', a, b, p) && SameOutside(h, h', a, b, p) && SameOutside(h, h', a, b, h.top);
    if Outside(a, b, p) {
      assert NoStraddle(h, a, b, p);
      if h.top in h.ch {
        assert EndApart(h, TopEnd(h), p);
      }
    }
  }
}
