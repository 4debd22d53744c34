/** What the invariant means: exact tiling, disjoint blocks, maximal free runs, one bin for each free chunk. */
module HeapFacts {
  import opened Words
  import opened BoundaryTags
  import opened HeapState
  import opened HeapSteps
  import opened HeapOps
  import opened HeapOps2
  import opened SegmentOps
  import opened SegmentGrow
  import opened SegmentNew
  import opened Consolidate
  import opened Payload
  import TreeIndex

  // ----- Tiling -----

  /** `w` is one of the bytes of chunk `p`. */
  predicate Covers(h: Tags, p: Addr, w: Addr)
  {
    p in h.ch && p <= w < p + h.ch[p]
  }

  /** The traversal from a segment's base, chunk by chunk, meets the chunk of every byte before the end. */
  lemma {:induction false} Traverse(st: State, k: nat, c: Addr, w: Addr) returns (p: Addr)
    requires k < |st.segs| && ChunkInSeg(st.tags, st.segs, k, c) && c <= w < SegEnd(st.tags, st.segs, k)
    requires Inv(st, {}, {})
    ensures Covers(st.tags, p, w)
    decreases w - c
  {
    hide Inv;
    ChunkFactsAt(st, {}, {}, c);
    if w < c + st.tags.ch[c] {
      p := c;
    } else {
      NextInSeg(st, k, c);
      p := Traverse(st, k, c + st.tags.ch[c], w);
    }
  }

  /** Before the end of its segment, a chunk is followed by another one. */
  lemma NextInSeg(st: State, k: nat, c: Addr)
    requires k < |st.segs| && ChunkInSeg(st.tags, st.segs, k, c) && c + st.tags.ch[c] < SegEnd(st.tags, st.segs, k)
    requires Inv(st, {}, {})
    ensures ChunkInSeg(st.tags, st.segs, k, c + st.tags.ch[c])
  {
    hide MapsOK, FootprintOK, LeastOK, UsedOK, BinsMatch, Pin, Cin, SizeOf, SegsOK, OK;
    var h, n := st.tags, c + st.tags.ch[c];
    ChunkFactsAt(st, {}, {}, c);
    SegEndBelow(st, k);
    if c == h.top {
      TopSeg(st, k);
    } else if n !in h.ch {
      var j := FenceSeg(h, st.segs, n);
      if j != k {
        SegsApartAt(h, st.segs, j, k);
      }
    }
    ChunkFactsAt(st, {}, {}, n);
    Adjacent(h, st.segs, k, c, n);
  }

  lemma SegEndBelow(st: State, k: nat)
    requires k < |st.segs| && Inv(st, {}, {})
    ensures SegEnd(st.tags, st.segs, k) + 32 <= st.segs[k].base + st.segs[k].size
    ensures st.segs[k].base < SegEnd(st.tags, st.segs, k)
    ensures ChunkInSeg(st.tags, st.segs, k, st.segs[k].base)
  {
    hide MapsOK, FootprintOK, LeastOK, UsedOK, BinsMatch, Pin, Cin, SizeOf, SegsOK, OK, DvTopOK;
    SegAt(st.tags, st.segs, k);
    var b := st.segs[k].base;
    var j := SegOf(st.tags, st.segs, b);
    ChunkFactsAt(st, {}, {}, b);
    if j != k {
      SegsApartAt(st.tags, st.segs, j, k);
    }
  }

  /** top can only lie in the first segment. */
  lemma TopSeg(st: State, k: nat)
    requires k < |st.segs| && st.tags.top in st.tags.ch
    requires st.segs[k].base <= st.tags.top < st.segs[k].base + st.segs[k].size && Inv(st, {}, {})
    ensures k == 0
  {
    hide MapsOK, FootprintOK, LeastOK, UsedOK, BinsMatch, SegsOK, OK, DvTopOK;
    Seg0(st, {}, {});
    if k != 0 {
      SegsApartAt(st.tags, st.segs, 0, k);
    }
  }

  /** Chunks tile each segment exactly, from its base to top's end or to the fenceposts. */
  lemma Tiling(st: State, k: nat, w: Addr)
    requires k < |st.segs| && st.segs[k].base <= w < SegEnd(st.tags, st.segs, k) && Inv(st, {}, {})
    ensures exists p :: Covers(st.tags, p, w)
    ensures forall p, q | Covers(st.tags, p, w) && Covers(st.tags, q, w) :: p == q
  {
    hide Inv;
    SegEndBelow(st, k);
    var p := Traverse(st, k, st.segs[k].base, w);
    forall p, q | Covers(st.tags, p, w) && Covers(st.tags, q, w) ensures p == q {
      if p != q {
        TwoApart(st, p, q);
      }
    }
  }

  lemma TwoApart(st: State, p: Addr, q: Addr)
    requires p in st.tags.ch && q in st.tags.ch && p != q && Inv(st, {}, {})
    ensures p + st.tags.ch[p] <= q || q + st.tags.ch[q] <= p
  {
    hide MapsOK, FootprintOK, LeastOK, UsedOK, BinsMatch, SegsOK, DvTopOK, OK;
    ChunksApart(st.tags, p, q);
  }

  // ----- Free chunks -----

  /** No two free chunks are neighbours. */
  lemma NoFreeNeighbours(st: State, p: Addr, q: Addr)
    requires p in st.tags.ch && q in st.tags.ch && q == p + st.tags.ch[p] && Inv(st, {}, {})
    ensures p in st.tags.used || q in st.tags.used
  {
    hide MapsOK, FootprintOK, LeastOK, UsedOK, BinsMatch, SegsOK, DvTopOK, OK, Pin, Cin, SizeOf;
    ChunkFactsAt(st, {}, {}, p);
  }

  /** A free chunk is dv, or top, or in the one bin for its size; the bins hold nothing else. */
  lemma OneBin(st: State, p: Addr)
    requires Inv(st, {}, {})
    ensures p in st.tags.ch && p !in st.tags.used && p != st.dv && p != st.tags.top ==>
              if st.tags.ch[p] < TreeIndex.MIN_LARGE_SIZE then p in st.small && p !in st.tree
                else p in st.tree && p !in st.small
    ensures p in st.small || p in st.tree ==> p in st.tags.ch && p !in st.tags.used && p != st.dv && p != st.tags.top
    ensures p in st.small ==> st.small[p] == st.tags.ch[p]
    ensures p in st.tree ==> st.tree[p] == st.tags.ch[p]
  {
    hide OK, MapsOK, FootprintOK, LeastOK, UsedOK, SegsOK, DvTopOK;
    assert p in st.tags.ch && p !in st.tags.used && p != st.dv && p != st.tags.top ==> IsFree(st.tags, st.dv, p);
  }

  /** Free chunks are the maximal runs between chunks in use: the segments and the chunks in use determine them. */
  lemma FreeRuns(st: State, st': State, p: Addr)
    requires st'.segs == st.segs && SameUsed(st, st') && p in st.tags.ch && Inv(st, {}, {}) && Inv(st', {}, {})
    ensures p in st'.tags.ch && st'.tags.ch[p] == st.tags.ch[p]
  {
    hide Inv;
    if p !in st.tags.used {
      FreeStart(st, st', p);
      FreeEnd(st, st', p);
      FreeEnd(st', st, p);
    }
  }

  /** The same chunks are in use. */
  predicate SameUsed(st: State, st': State)
  {
    && st'.tags.used == st.tags.used && st.tags.used <= st.tags.ch.Keys && st.tags.used <= st'.tags.ch.Keys
    && forall p | p in st.tags.used :: st'.tags.ch[p] == st.tags.ch[p]
  }

  /** Where the chunks of a segment end depends on the segment alone. */
  lemma SameEnds(st: State, st': State, k: nat)
    requires st'.segs == st.segs && k < |st.segs| && Inv(st, {}, {}) && Inv(st', {}, {})
    ensures SegEnd(st'.tags, st'.segs, k) == SegEnd(st.tags, st.segs, k)
  {
    hide MapsOK, FootprintOK, LeastOK, UsedOK, BinsMatch, OK, Pin, Cin, SizeOf, SegsOK, DvTopOK;
    SegAt(st.tags, st.segs, k);
    SegAt(st'.tags, st'.segs, k);
  }

  /** What follows a free chunk inside its segment is in use. */
  lemma AfterRun(st: State, p: Addr, k: nat)
    requires p in st.tags.ch && p !in st.tags.used && k < |st.segs| && ChunkInSeg(st.tags, st.segs, k, p)
    requires Inv(st, {}, {})
    ensures p + st.tags.ch[p] in st.tags.used || p + st.tags.ch[p] == SegEnd(st.tags, st.segs, k)
  {
    hide MapsOK, FootprintOK, LeastOK, UsedOK, BinsMatch, Pin, Cin, SizeOf, SegsOK, OK, DvTopOK;
    ChunkFactsAt(st, {}, {}, p);
    SegEndBelow(st, k);
    if p == st.tags.top {
      TopSeg(st, k);
    }
  }

  lemma SegOfChunk(st: State, p: Addr) returns (k: nat)
    requires p in st.tags.ch && Inv(st, {}, {})
    ensures k < |st.segs| && ChunkInSeg(st.tags, st.segs, k, p) && p < SegEnd(st.tags, st.segs, k)
  {
    hide MapsOK, FootprintOK, LeastOK, UsedOK, BinsMatch, Pin, Cin, SizeOf, SegsOK, OK, DvTopOK;
    k := SegOf(st.tags, st.segs, p);
    ChunkFactsAt(st, {}, {}, p);
  }

  /** A chunk in use is where it is in both states, so it cannot reach into a free one. */
  lemma UsedCovers(st: State, st': State, q: Addr, w: Addr)
    requires SameUsed(st, st') && q in st'.tags.used && Covers(st'.tags, q, w)
    ensures Covers(st.tags, q, w)
  {
  }

  lemma FreeStart(st: State, st': State, p: Addr)
    requires st'.segs == st.segs && SameUsed(st, st') && p in st.tags.ch && p !in st.tags.used && Inv(st, {}, {})
    requires Inv(st', {}, {})
    ensures p in st'.tags.ch
  {
    hide Inv;
    var k := SegOfChunk(st, p);
    SameEnds(st, st', k);
    ChunkFactsAt(st, {}, {}, p);
    SegEndBelow(st', k);
    var q := Traverse(st', k, st'.segs[k].base, p);
    if q in st'.tags.used {
      UsedCovers(st, st', q, p);
      TwoApart(st, p, q);
    } else {
      var j := SegOfChunk(st', q);
      SameSegment(st', j, k, q, p);
      SegEndBelow(st, k);
      var r := Traverse(st, k, st.segs[k].base, q);
      RunBefore(st, st', k, r, q, p);
    }
  }

  /** A chunk that covers a byte of segment k lies in segment k. */
  lemma SameSegment(st: State, j: nat, k: nat, q: Addr, w: Addr)
    requires j < |st.segs| && k < |st.segs| && ChunkInSeg(st.tags, st.segs, j, q) && Covers(st.tags, q, w)
    requires st.segs[k].base <= w < SegEnd(st.tags, st.segs, k)
    requires Inv(st, {}, {})
    ensures j == k
  {
    hide MapsOK, FootprintOK, LeastOK, UsedOK, BinsMatch, Pin, Cin, SizeOf, SegsOK, OK, DvTopOK;
    SegEndBelow(st, j);
    SegEndBelow(st, k);
    if j != k {
      SegsApartAt(st.tags, st.segs, j, k);
    }
  }

  /** The chunk `q` of `st'` cannot reach from before `p` beyond its start: the chunk `r` of `st` would end in it. */
  lemma RunBefore(st: State, st': State, k: nat, r: Addr, q: Addr, p: Addr)
    requires st'.segs == st.segs && SameUsed(st, st') && k < |st.segs| && Inv(st, {}, {}) && Inv(st', {}, {})
    requires p in st.tags.ch && p !in st.tags.used && ChunkInSeg(st.tags, st.segs, k, p)
    requires p < SegEnd(st.tags, st.segs, k)
    requires Covers(st'.tags, q, p) && q !in st'.tags.used && Covers(st.tags, r, q) && st.segs[k].base <= q
    ensures q == p
  {
    hide Inv;
    if r != p {
      TwoApart(st, r, p);
      if r in st.tags.used {
        assert Covers(st'.tags, r, q);
        if r != q {
          TwoApart(st', r, q);
        }
      } else {
        var j := SegOfChunk(st, r);
        SameSegment(st, j, k, r, q);
        AfterRun(st, r, k);
        var n := r + st.tags.ch[r];
        if n in st.tags.used {
          UsedSize(st', n);
          if n != q {
            TwoApart(st', n, q);
          }
        }
      }
    }
  }

  lemma UsedSize(st: State, n: Addr)
    requires n in st.tags.used && Inv(st, {}, {})
    ensures n in st.tags.ch && st.tags.ch[n] > 0
  {
    hide MapsOK, FootprintOK, LeastOK, BinsMatch, SegsOK, DvTopOK, OK;
    UsedAreChunks(st, {}, {});
    ChunkFactsAt(st, {}, {}, n);
  }

  lemma FreeEnd(st: State, st': State, p: Addr)
    requires st'.segs == st.segs && SameUsed(st, st') && p in st.tags.ch && p !in st.tags.used && p in st'.tags.ch
    requires Inv(st, {}, {}) && Inv(st', {}, {})
    ensures st'.tags.ch[p] <= st.tags.ch[p]
  {
    hide Inv;
    var k := SegOfChunk(st, p);
    SameEnds(st, st', k);
    AfterRun(st, p, k);
    var n := p + st.tags.ch[p];
    ChunkFactsAt(st, {}, {}, p);
    ChunkFactsAt(st', {}, {}, p);
    if n in st.tags.used {
      UsedSize(st', n);
      TwoApart(st', p, n);
    } else {
      var j := SegOfChunk(st', p);
      assert Covers(st'.tags, p, p);
      SameSegment(st', j, k, p, p);
    }
  }

  // ----- Clients' blocks -----

  /** Blocks of clients are 16-aligned, and no two share a byte that clients may use; neither does a block's
      memory hold the head of any chunk or a prev_foot that counts. */
  lemma BlocksApart(st: State, p: Addr, q: Addr)
    requires (p in st.live || p in st.maps) && (q in st.live || q in st.maps) && p != q && Inv(st, {}, {})
    ensures (p + 16) % 16 == 0 && (p + UsableEnd(st, p) <= q + 16 || q + UsableEnd(st, q) <= p + 16)
  {
    hide OK, DvTopOK, BinsMatch, UsedOK, FootprintOK, LeastOK, MapsOK, SegsOK;
    BlockExtent(st, p);
    BlockExtent(st, q);
    if p in st.maps && q in st.maps {
      MapPair(st, p, q);
    } else if p in st.maps {
      var k := BlockSegment(st, q);
      MapSeg(st, p, k);
    } else if q in st.maps {
      var k := BlockSegment(st, p);
      MapSeg(st, q, k);
    } else {
      NextChunk(st, p, {}, {});
      NextChunk(st, q, {}, {});
      ChunksApart(st.tags, p, q);
    }
  }

  /** The extent of a block's memory */
  lemma BlockExtent(st: State, p: Addr)
    requires (p in st.live || p in st.maps) && Inv(st, {}, {})
    ensures p % 16 == 0
    ensures p in st.maps ==> st.maps[p].base <= p && p + UsableEnd(st, p) <= st.maps[p].base + st.maps[p].len
    ensures p !in st.maps ==> p in st.live && p in st.tags.ch && UsableEnd(st, p) == st.tags.ch[p] + 8
  {
    hide OK, DvTopOK, BinsMatch, UsedOK, FootprintOK, LeastOK, MapsOK, SegsOK;
    if p in st.maps {
      MapWords(st, p);
    } else {
      NextChunk(st, p, {}, {});
    }
  }

  lemma BlockSegment(st: State, p: Addr) returns (k: nat)
    requires p in st.live && p !in st.maps && Inv(st, {}, {})
    ensures k < |st.segs| && st.segs[k].base <= p && p + UsableEnd(st, p) <= st.segs[k].base + st.segs[k].size
  {
    hide OK, DvTopOK, BinsMatch, UsedOK, FootprintOK, LeastOK, MapsOK, SegsOK;
    NextChunk(st, p, {}, {});
    k := SegOf(st.tags, st.segs, p);
  }
}
