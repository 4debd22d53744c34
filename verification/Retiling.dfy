/** The retilings that the allocator performs: a run of adjacent chunks becomes one chunk or two. */
module Retiling {
  import opened Words
  import opened BoundaryTags

  /** `X` is the set of chunks in [a, b), and no chunk or segment end crosses the borders. */
  ghost predicate Region(h: Tags, a: Addr, b: Addr, X: set<Addr>)
  {
    && 0 < a < b && a % 16 == 0 && b % 16 == 0 && a in X && X <= h.ch.Keys
    && (forall q {:trigger q in X} | q in X :: a <= q && q + h.ch[q] <= b)
    && (forall q {:trigger q in h.ch} | q in h.ch && q !in X :: q + h.ch[q] <= a || b <= q)
    && (forall f {:trigger f in h.fence} | f in h.fence :: f + 16 <= a || b <= f)
    && (h.top in h.ch && h.top !in X ==> TopEnd(h) + 16 <= a || b <= h.top)
  }

  /** A single chunk is a region. */
  lemma Region1(h: Tags, p: Addr)
    requires OK(h) && p in h.ch
    ensures Region(h, p, p + h.ch[p], {p})
  {
    hide SizeOf, Pin, Cin, NextOK, PrevOK, FenceOK;
    assert ChunkOK(h, p);
    forall q | q in h.ch && q != p ensures q + h.ch[q] <= p || p + h.ch[p] <= q {
      assert Apart(h, p, q) && ChunkOK(h, q);
    }
    forall f | f in h.fence ensures f + 16 <= p || p + h.ch[p] <= f {
      assert EndApart(h, f, p);
    }
    if h.top in h.ch && h.top != p {
      assert EndApart(h, TopEnd(h), p) && Apart(h, p, h.top) && ChunkOK(h, h.top);
    }
  }

  lemma RegionJoin(h: Tags, a: Addr, m: Addr, b: Addr, X: set<Addr>, Y: set<Addr>)
    requires OK(h) && Region(h, a, m, X) && Region(h, m, b, Y)
    ensures Region(h, a, b, X + Y)
  {
    hide SizeOf, Pin, Cin, NextOK, PrevOK, FenceOK, Apart, EndApart;
    forall q | q in h.ch && q !in X + Y ensures q + h.ch[q] <= a || b <= q {
      assert ChunkOK(h, q);
    }
    assert h.top in h.ch ==> ChunkOK(h, h.top);
  }

  /** The chunk after the region keeps its own fields and learns about the last chunk of the region. */
  ghost predicate AfterOK(h: Tags, h': Tags, b: Addr, last: nat, u: bool)
  {
    if b in h.ch then
      && SizeOf(h'.HeadOf(b)) == SizeOf(h.HeadOf(b)) && (Cin(h'.HeadOf(b)) <==> Cin(h.HeadOf(b)))
         && (Pin(h'.HeadOf(b)) <==> u)
      && (!u ==> h'.W(b) == last && b in h.used)
    else u && b in h.fence
  }

  /** The frame of a retiling of [a, b). */
  ghost predicate Framed(h: Tags, h': Tags, a: Addr, b: Addr)
  {
    && (forall w: Addr {:trigger h'.W(w)} | w < a + 8 || b + 8 < w :: h'.W(w) == h.W(w))
    && h'.fence == h.fence && (b in h.fence ==> h'.HeadOf(b) == FENCEPOST_HEAD)
    && (Pin(h'.HeadOf(a)) <==> Pin(h.HeadOf(a)))
  }

  /** The last chunk [m, b) of the region ends the segment as top, or is followed as `AfterOK` says. */
  ghost predicate LastOK(h: Tags, h': Tags, X: set<Addr>, m: Addr, b: Addr, u: bool)
  {
    if h.top in X then
      h'.top == m && !u && b !in h.ch && h'.HeadOf(b) == TOP_FOOT_SIZE && b - m >= 16
        && (forall p | p in h.ch && b <= p :: b + 16 <= p)
    else h'.top == h.top && b - m >= MIN_CHUNK_SIZE && AfterOK(h, h', b, b - m, u)
  }

  /** The region becomes one chunk, in use if `u`. */
  ghost predicate OneChunk(h: Tags, h': Tags, a: Addr, b: Addr, X: set<Addr>, u: bool)
  {
    && Framed(h, h', a, b) && a < b
    && h'.ch == (h.ch - X)[a := b - a] && h'.used == (h.used - X) + (if u then {a} else {})
    && SizeOf(h'.HeadOf(a)) == b - a && (Cin(h'.HeadOf(a)) <==> u) && (!u ==> Pin(h.HeadOf(a)))
    && LastOK(h, h', X, a, b, u)
  }

  lemma ToOne(h: Tags, h': Tags, a: Addr, b: Addr, X: set<Addr>, u: bool)
    requires OK(h) && Region(h, a, b, X) && OneChunk(h, h', a, b, X, u)
    ensures OK(h')
  {
    hide SizeOf, Pin, Cin, HeadOK, NextOK, PrevOK, FenceOK, EndApart;
    RegionOutside(h, h', a, b, X);
    forall p | p in h'.ch && a <= p <= b ensures ChunkOK(h', p) {
      if p == a {
        OneOK(h, h', a, b, X, u);
      } else {
        assert p == b;
        AfterRegion(h, h', a, a, b, X, u);
      }
    }
    RegionEnds(h, h', a, a, b, X, u);
    Retile(h, h', a, b);
  }

  /** Chunks outside the region are as before. */
  lemma RegionOutside(h: Tags, h': Tags, a: Addr, b: Addr, X: set<Addr>)
    requires OK(h) && Region(h, a, b, X) && Framed(h, h', a, b)
    requires forall p | p in h.ch && p !in X :: p in h'.ch && h'.ch[p] == h.ch[p] && (p in h.used <==> p in h'.used)
    requires forall p | p in h'.ch && (p !in h.ch || p in X) :: a <= p < b && p + h'.ch[p] <= b
    requires h'.used <= h'.ch.Keys
    ensures forall p | p in h.ch :: NoStraddle(h, a, b, p)
    ensures forall p | p in h'.ch :: NoStraddle(h', a, b, p)
    ensures forall p :: SameOutside(h, h', a, b, p)
    ensures forall w :: SameWords(h, h', a, b, w)
  {
    hide SizeOf, Pin, Cin, HeadOK, NextOK, PrevOK, FenceOK, EndApart, Apart;
    forall p | p in h'.ch ensures NoStraddle(h', a, b, p) {
      if p in h.ch && p !in X {
        assert h'.ch[p] == h.ch[p];
      }
    }
    forall p | p in X ensures a <= p < b {
      assert ChunkOK(h, p) && HeadOK(h, p);
      HeadPositive(h, p);
    }
    forall p ensures SameOutside(h, h', a, b, p) {
    }
  }

  lemma HeadPositive(h: Tags, p: Addr)
    requires p in h.ch && HeadOK(h, p)
    ensures h.ch[p] > 0
  {
  }

  lemma OneOK(h: Tags, h': Tags, a: Addr, b: Addr, X: set<Addr>, u: bool)
    requires OK(h) && Region(h, a, b, X) && OneChunk(h, h', a, b, X, u)
    ensures ChunkOK(h', a)
  {
    hide SizeOf, Pin, Cin, FenceOK, EndApart, Apart;
    assert ChunkOK(h, a);
    if b in h.ch {
      assert ChunkOK(h, b);
      HeadPositive(h, b);
    }
    assert HeadOK(h', a);
    assert NextOK(h', a);
    assert PrevOK(h', a) by {
      FrontPrev(h, h', a, b, X);
    }
  }

  lemma FrontPrev(h: Tags, h': Tags, a: Addr, b: Addr, X: set<Addr>)
    requires OK(h) && Region(h, a, b, X) && Framed(h, h', a, b) && a in h'.ch
    requires forall p | p in h.ch && p !in X :: p in h'.ch && h'.ch[p] == h.ch[p] && (p in h'.used ==> p in h.used)
    requires h'.top == h.top || a <= h'.top
    ensures PrevOK(h', a)
  {
    hide SizeOf, Pin, Cin, FenceOK, EndApart, Apart, NextOK;
    assert ChunkOK(h, a);
    if !Pin(h.HeadOf(a)) {
      assert h'.W(a) == h.W(a);
      var r := a - h.W(a);
      assert ChunkOK(h, r);
      HeadPositive(h, r);
      assert r !in X;
    }
  }

  lemma AfterRegion(h: Tags, h': Tags, a: Addr, m: Addr, b: Addr, X: set<Addr>, u: bool)
    requires OK(h) && Region(h, a, b, X) && Framed(h, h', a, b) && LastOK(h, h', X, m, b, u) && a <= m < b
    requires m in h'.ch && h'.ch[m] == b - m && (m in h'.used <==> u) && b in h'.ch && b in h.ch && b !in X
    requires forall p | p in h.ch && p !in X :: p in h'.ch && h'.ch[p] == h.ch[p] && (p in h.used <==> p in h'.used)
    requires forall p | p in h'.ch && (p !in h.ch || p in X) :: a <= p < b
    ensures ChunkOK(h', b)
  {
    hide SizeOf, Pin, Cin, FenceOK, EndApart, Apart;
    assert ChunkOK(h, b);
    var n := b + h.ch[b];
    assert h'.W(n) == h.W(n) && h'.HeadOf(n) == h.HeadOf(n);
    assert HeadOK(h', b);
    assert PrevOK(h', b);
    assert n in h.ch ==> n !in X;
  }

  lemma RegionEnds(h: Tags, h': Tags, a: Addr, m: Addr, b: Addr, X: set<Addr>, u: bool)
    requires OK(h) && Region(h, a, b, X) && Framed(h, h', a, b) && LastOK(h, h', X, m, b, u) && a <= m < b
    requires m in h'.ch && h'.ch[m] == b - m && (m in h'.used <==> u) && a in h'.ch
    requires !Pin(h.HeadOf(a)) ==> a in h'.used
    ensures FrontKept(h, h', a) && FencesStay(h, h', a, b) && TopMoves(h, h', a, b)
  {
    hide SizeOf, Pin, Cin, FenceOK, EndApart, Apart, NextOK, PrevOK;
    assert ChunkOK(h, a);
    if h.top in X {
      assert ChunkOK(h, h.top);
      HeadPositive(h, h.top);
    } else if h.top in h.ch {
      assert ChunkOK(h, h.top);
      HeadPositive(h, h.top);
    }
  }

  /** The region becomes two chunks, the first in use if `u`, the second if `v`; never both free. */
  ghost predicate TwoChunks(h: Tags, h': Tags, a: Addr, m: Addr, b: Addr, X: set<Addr>, u: bool, v: bool)
  {
    && Framed(h, h', a, b) && a + MIN_CHUNK_SIZE <= m < b && m % 16 == 0 && (u || v)
    && h'.ch == (h.ch - X)[a := m - a][m := b - m]
    && h'.used == (h.used - X) + (if u then {a} else {}) + (if v then {m} else {})
    && SizeOf(h'.HeadOf(a)) == m - a && (Cin(h'.HeadOf(a)) <==> u) && (!u ==> Pin(h.HeadOf(a)) && h'.W(m) == m - a)
    && SizeOf(h'.HeadOf(m)) == b - m && (Cin(h'.HeadOf(m)) <==> v) && (Pin(h'.HeadOf(m)) <==> u)
    && LastOK(h, h', X, m, b, v)
  }

  lemma ToTwo(h: Tags, h': Tags, a: Addr, m: Addr, b: Addr, X: set<Addr>, u: bool, v: bool)
    requires OK(h) && Region(h, a, b, X) && TwoChunks(h, h', a, m, b, X, u, v)
    ensures OK(h')
  {
    hide SizeOf, Pin, Cin, HeadOK, NextOK, PrevOK, FenceOK, EndApart;
    RegionOutside(h, h', a, b, X);
    forall p | p in h'.ch && a <= p <= b ensures ChunkOK(h', p) {
      if p == a {
        FirstOK(h, h', a, m, b, X, u, v);
      } else if p == m {
        SecondOK(h, h', a, m, b, X, u, v);
      } else {
        assert p == b;
        AfterRegion(h, h', a, m, b, X, v);
      }
    }
    RegionEnds(h, h', a, m, b, X, v);
    Retile(h, h', a, b);
  }

  lemma FirstOK(h: Tags, h': Tags, a: Addr, m: Addr, b: Addr, X: set<Addr>, u: bool, v: bool)
    requires OK(h) && Region(h, a, b, X) && TwoChunks(h, h', a, m, b, X, u, v)
    ensures ChunkOK(h', a)
  {
    hide SizeOf, Pin, Cin, FenceOK, EndApart, Apart, OK, PrevOK, Region, AfterOK;
    RegionStart(h, a, b, X);
    assert HeadOK(h', a);
    assert NextOK(h', a);
    assert PrevOK(h', a) by {
      TwoOutside(h, h', a, m, b, X, u, v);
      FrontPrev(h, h', a, b, X);
    }
  }

  lemma RegionStart(h: Tags, a: Addr, b: Addr, X: set<Addr>)
    requires Region(h, a, b, X)
    ensures 0 < a < b && a % 16 == 0 && b % 16 == 0 && a in X && a in h.ch
  {
  }

  lemma TwoOutside(h: Tags, h': Tags, a: Addr, m: Addr, b: Addr, X: set<Addr>, u: bool, v: bool)
    requires Region(h, a, b, X) && TwoChunks(h, h', a, m, b, X, u, v) && OK(h)
    ensures forall p | p in h.ch && p !in X :: p in h'.ch && h'.ch[p] == h.ch[p] && (p in h'.used ==> p in h.used)
    ensures h'.top == h.top || a <= h'.top
  {
    hide SizeOf, Pin, Cin, FenceOK, EndApart, Apart, AfterOK, HeadOK, NextOK, PrevOK;
    forall p | p in h.ch && p !in X ensures p != a && p != m {
      assert ChunkOK(h, p);
      HeadPositive(h, p);
    }
  }

  lemma SecondOK(h: Tags, h': Tags, a: Addr, m: Addr, b: Addr, X: set<Addr>, u: bool, v: bool)
    requires OK(h) && Region(h, a, b, X) && TwoChunks(h, h', a, m, b, X, u, v)
    ensures ChunkOK(h', m)
  {
    hide SizeOf, Pin, Cin, FenceOK, EndApart, Apart;
    if b in h.ch {
      assert ChunkOK(h, b);
      HeadPositive(h, b);
    }
    assert HeadOK(h', m);
    assert NextOK(h', m);
    assert PrevOK(h', m);
  }
}
