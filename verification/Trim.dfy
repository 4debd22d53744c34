/** Giving memory back to the system: `release_unused_segments` and `sys_trim`. */
module Trim {
  import opened Words
  import opened BoundaryTags
  import opened HeapState
  import opened HeapSteps
  import opened HeapOps
  import opened HeapOps2
  import opened HeapBins
  import opened MallocState
  import opened HandOut
  import opened Requests
  import opened SegmentOps
  import opened SegmentGrow
  import opened SegmentNew
  import opened SegmentDrop
  import opened SystemAlloc
  import SB = SmallBins
  import TB = TreeBins

  // ----- release_unused_segments -----

  /** What the test on segment `i` reads: its first chunk's head. */
  lemma FirstChunk(st: State, i: nat)
    requires 0 < i < |st.segs| && Inv(st, {}, {})
    ensures var p, h := st.segs[i].base, st.tags;
            && p in h.ch && p != h.top && SizeOf(h.HeadOf(p)) == h.ch[p] && (Inuse(h.HeadOf(p)) <==> p in h.used)
            && (p !in h.used && p != st.dv ==> InBins(st, p)) && h.ch[p] % 16 == 0
    ensures st.segs[i].size >= 4096
  {
    hide MapsOK, FootprintOK, LeastOK, UsedOK, Pin, Cin, SizeOf, NextOK, PrevOK, SegsOK, DvTopOK;
    BasePinned2(st, i);
    BaseNotTop(st, {}, {}, i);
    SegSizePos(st.tags, st.segs, i);
    var p := st.segs[i].base;
    ChunkFactsAt(st, {}, {}, p);
    assert p !in st.tags.used && p != st.dv ==> IsFree(st.tags, st.dv, p);
  }

  lemma BasePinned2(st: State, i: nat)
    requires i < |st.segs| && Inv(st, {}, {})
    ensures st.segs[i].base in st.tags.ch && Pin(st.tags.HeadOf(st.segs[i].base))
  {
    hide MapsOK, LeastOK, FootprintOK, BinsMatch, UsedOK, DvTopOK, OK, Pin, InSomeSeg;
    SegAtK(st.tags, st.segs, i);
  }

  /** The segment is free as a whole: it holds one free chunk, up to its record. */
  predicate Empty(s: Segment, l: Layout)
  {
    s.base in l.ch && s.base !in l.used && s.base + l.ch[s.base] == s.rec
  }

  /** The record lies where the fenceposts end at the segment's end, as it does when the top that was sealed
      off could hold a chunk. */
  predicate RecordAtEnd(s: Segment)
  {
    s.rec + TOP_FOOT_SIZE == s.base + s.size
  }

  /** The test that the loop makes: the first chunk is free and leaves no more than the size of a foot behind it. */
  predicate Test(s: Segment, l: Layout)
  {
    s.base in l.ch && s.base !in l.used && s.base + l.ch[s.base] + TOP_FOOT_SIZE >= s.base + s.size
  }

  /** The test finds the segments that are free as a whole, but for those whose record took the place of a top
      too small for a chunk. */
  lemma TestExact(st: State, k: nat)
    requires 0 < k < |st.segs| && Inv(st, {}, {})
    ensures Test(st.segs[k], LayoutOf(st)) <==> Empty(st.segs[k], LayoutOf(st)) && RecordAtEnd(st.segs[k])
    ensures !RecordAtEnd(st.segs[k]) ==> st.segs[k].rec + 96 == st.segs[k].base + st.segs[k].size
  {
    hide MapsOK, LeastOK, FootprintOK, BinsMatch, DvTopOK, OK, SegsOK, UsedOK;
    SegAtK(st.tags, st.segs, k);
    ChunksApart(st.tags, st.segs[k].base, st.segs[k].rec);
    ChunkFactsAt(st, {}, {}, st.segs[k].base);
  }

  /** Which of the two a segment is, is settled when its top is sealed off: a top of 16 bytes leaves no room
      for the chunk, and the test misses the segment. */
  lemma SealedTest(st: State, st': State, base: Addr, size: nat, L: set<Addr>, Y: set<Addr>)
    requires Sealing(st, st', base, size, L, Y)
    ensures |st'.segs| > 1 && (RecordAtEnd(st'.segs[1]) <==> st.topsize >= MIN_CHUNK_SIZE)
    ensures !RecordAtEnd(st'.segs[1]) ==> st.topsize == 16 && st'.segs[1].rec == st.tags.top
  {
    hide Inv, SealedWords, Vacant, Sealing;
    Numbers(st, st', base, size, L, Y);
  }

  /** The segment goes: it is free as a whole, its record is at its end, and the system unmaps it. */
  predicate Goes(s: Segment, l: Layout, refuse: set<Addr>)
  {
    Empty(s, l) && RecordAtEnd(s) && s.base !in refuse
  }

  /** The segments that stay, in their order */
  function Left(segs: seq<Segment>, l: Layout, refuse: set<Addr>): seq<Segment>
  {
    if segs == [] then [] else
      var n := |segs| - 1;
      Left(segs[..n], l, refuse) + if Goes(segs[n], l, refuse) then [] else [segs[n]]
  }

  /** Two segments of 64 KiB: one with top, and one that was sealed with a top of 16 bytes and whose blocks are
      all freed since. */
  function Missed(): State
  {
    var b, r, t := 0x10_0000, 0x10_0000 + 0xFFA0, 0x20_0000;
    var mem := map[b + 8 := 0xFFA0 + 1, r := 0xFFA0, r + 8 := SEGMENT_RECORD + 2, r + 56 := FENCEPOST_HEAD,
                   t + 8 := 0xFFB0 + 1, t + 0xFFB0 + 8 := TOP_FOOT_SIZE];
    var tags := Tags(mem, map[b := 0xFFA0, r := SEGMENT_RECORD, t := 0xFFB0], {r}, t, {r + SEGMENT_RECORD});
    State(tags, 0, 0, 0xFFB0, [Segment(t, 0x1_0000, 0), Segment(b, 0x1_0000, r)], {}, map[], b, 0x2_0000, map[],
      map[b := 0xFFA0])
  }

  lemma MissedTags()
    ensures OK(Missed().tags)
  {
    hide ChunkOK;
    var h := Missed().tags;
    forall p | p in h.ch ensures ChunkOK(h, p) {
      MissedChunk(p);
    }
  }

  lemma MissedChunk(p: Addr)
    requires p in Missed().tags.ch
    ensures ChunkOK(Missed().tags, p)
  {
    var h, b, t := Missed().tags, 0x10_0000, 0x20_0000;
    assert p == b || p == b + 0xFFA0 || p == t;
    assert h.HeadOf(b) == 0xFFA0 + 1 && h.HeadOf(b + 0xFFA0) == SEGMENT_RECORD + 2 && h.HeadOf(t) == 0xFFB0 + 1;
  }

  lemma MissedSegs()
    ensures SegsOK(Missed().tags, Missed().segs) && UsedOK(Missed(), {})
  {
    hide Pin;
    var st := Missed();
    var h, s := st.tags, st.segs[1];
    MissedChunk(s.base);
    MissedChunk(h.top);
    assert Pin(h.HeadOf(s.base)) && Pin(h.HeadOf(h.top));
    assert Records(st.segs) == {s.rec};
    forall p | p in h.ch ensures InSomeSeg(h, st.segs, p) {
      assert ChunkInSeg(h, st.segs, if p == h.top then 0 else 1, p);
    }
    assert SegEnd(h, st.segs, 1) in h.fence;
  }

  lemma MissedRest()
    ensures DvTopOK(Missed()) && BinsMatch(Missed(), {}) && MapsOK(Missed()) && FootprintOK(Missed())
    ensures LeastOK(Missed())
  {
    var segs := Missed().segs;
    assert segs[1..] == [segs[1]] && segs[1..][1..] == [];
    assert SegSizes(segs[1..]) == segs[1].size + SegSizes([]);
    assert MapSizes(map[]) == 0;
  }

  /** Its second segment is free as a whole, and stays although the system would unmap it. */
  lemma MissedStays()
    ensures Inv(Missed(), {}, {}) && Empty(Missed().segs[1], LayoutOf(Missed()))
    ensures Left(Missed().segs[1..], LayoutOf(Missed()), {}) == Missed().segs[1..]
  {
    hide OK, SegsOK, UsedOK, DvTopOK, BinsMatch, MapsOK, FootprintOK, LeastOK;
    MissedTags();
    MissedSegs();
    MissedRest();
    var segs := Missed().segs;
    assert segs[1..] == [segs[1]] && [segs[1]][..0] == [];
  }

  /** No segment is left that would go. */
  ghost predicate NoneToRelease(segs: seq<Segment>, l: Layout, refuse: set<Addr>)
  {
    forall k: nat {:trigger segs[k]} | 0 < k < |segs| :: !Goes(segs[k], l, refuse)
  }

  lemma {:induction false} LeftStays(segs: seq<Segment>, l: Layout, refuse: set<Addr>, k: nat)
    requires k < |Left(segs, l, refuse)|
    ensures !Goes(Left(segs, l, refuse)[k], l, refuse)
  {
    if k < |Left(segs[..|segs| - 1], l, refuse)| {
      LeftStays(segs[..|segs| - 1], l, refuse, k);
    }
  }

  /** The first `c` of the segments have been looked at; `segs'` is what is left, `i` of them seen. */
  ghost predicate SoFar(segs: seq<Segment>, l: Layout, refuse: set<Addr>, segs': seq<Segment>, c: nat, i: nat)
  {
    if segs == [] then segs' == [] && c == i == 1 else
      1 <= c <= |segs| && i == 1 + |Left(segs[1..c], l, refuse)|
        && segs' == [segs[0]] + Left(segs[1..c], l, refuse) + segs[c..]
  }

  /** Fewer chunks, each as it was */
  predicate Fewer(l: Layout, l': Layout)
  {
    forall p {:trigger p in l'.ch} | p in l'.ch :: p in l.ch && l'.ch[p] == l.ch[p] && (p in l'.used <==> p in l.used)
  }

  /** One more segment is looked at. */
  lemma OneMoreSeen(segs: seq<Segment>, l: Layout, refuse: set<Addr>, segs1: seq<Segment>, segs2: seq<Segment>, c: nat,
      i: nat)
    requires SoFar(segs, l, refuse, segs1, c, i) && 0 < i < |segs1|
    requires segs2 == if Goes(segs1[i], l, refuse) then segs1[..i] + segs1[i + 1..] else segs1
    ensures SoFar(segs, l, refuse, segs2, c + 1, if Goes(segs1[i], l, refuse) then i else i + 1)
  {
    assert segs1[i] == segs[c];
    assert segs[1..c + 1][..c - 1] == segs[1..c];
    assert segs1[..i] == [segs[0]] + Left(segs[1..c], l, refuse);
    assert segs1[i + 1..] == segs[c + 1..];
  }

  /** A chunk that is left is free or in use as it was. */
  lemma GoesStill(s: Segment, l: Layout, l': Layout, refuse: set<Addr>)
    requires Fewer(l, l') && s.base in l'.ch
    ensures Goes(s, l, refuse) <==> Empty(s, l') && RecordAtEnd(s) && s.base !in refuse
  {
  }

  lemma FewerThrough(l: Layout, l1: Layout, l2: Layout)
    requires Fewer(l, l1) && Fewer(l1, l2)
    ensures Fewer(l, l2)
  {
  }

  /** Which segments stay is a matter of their own first chunks. */
  lemma {:induction false} LeftSame(segs: seq<Segment>, l: Layout, l': Layout, refuse: set<Addr>)
    requires forall s | s in segs :: Empty(s, l') <==> Empty(s, l)
    ensures Left(segs, l', refuse) == Left(segs, l, refuse)
  {
    if segs != [] {
      LeftSame(segs[..|segs| - 1], l, l', refuse);
    }
  }

  /** The free first chunk of a segment goes out of dv or its bin. */
  method Detach(m: MState, i: nat, p: Addr, psize: nat) returns (ok: bool)
    requires Good(m) && 0 < i < |m.segs| && p == m.segs[i].base && p in m.layout.ch && m.layout.ch[p] == psize
    requires p !in m.layout.used
    modifies m`dv, m`dvsize, m.small, m.trees
    ensures ok && m.Valid() && Inv(m.S(), {p}, {}) && IsFree(m.H(), m.dv, p) && ClientsKept(old(m.S()), m.S())
  {
    hide Inv, SB.BinsOK, TB.BinsOK, SB.SmallBins.Valid, TB.TreeBins.Valid, OthersKept, InBins, IsFree, Pin, Cin, SizeOf,
      Inuse;
    ghost var st := m.S();
    FirstChunk(st, i);
    ok := true;
    DvWord(st, {}, {});
    if p == m.dv {
      DropDv(st, {}, {});
      m.dv := 0;
      m.dvsize := 0;
      assert m.S() == WithDv(st, 0, 0);
      assert {} + {p} == {p};
    } else {
      ok := UnlinkChunk(m, p, psize, {}, {});
      assert {} + {p} == {p};
    }
    ClientsUnaware(st, m.S());
  }

  /** The segment is unmapped, or its first chunk goes back into a bin. */
  method DropOrKeep(m: MState, i: nat, p: Addr, psize: nat, refuse: set<Addr>) returns (ok: bool, gone: bool)
    requires m.Valid() && Unused(m.S(), i, {p}, {}) && p == m.segs[i].base && m.layout.ch[p] == psize
    modifies m`segs, m`footprint, m`layout, m.small, m.trees
    ensures ok && Good(m) && ClientsKept(old(m.S()), m.S()) && gone == (p !in refuse)
    ensures if gone then m.segs == old(m.segs[..i] + m.segs[i + 1..])
            && m.footprint + old(m.segs[i].size) == old(m.footprint)
            else m.segs == old(m.segs) && m.footprint == old(m.footprint)
    ensures Fewer(old(m.layout), m.layout)
  {
    hide Inv, SB.BinsOK, TB.BinsOK, SB.SmallBins.Valid, TB.TreeBins.Valid, OthersKept, BlockKept, IsFree;
    ghost var st := m.S();
    DropSegment(st, i, {p}, {});
    assert {p} - {p} == {};
    ok, gone := true, p !in refuse;
    if gone {
      CutOut(m, i);
      KeptAll(st, m.S());
    } else {
      ok := InsertChunk(m, p, psize, {p}, {});
      ClientsUnaware(st, m.S());
    }
  }

  method CutOut(m: MState, i: nat)
    requires 0 < i < |m.segs| && m.segs[i].size <= m.footprint
    modifies m`segs, m`footprint, m`layout
    ensures m.S() == Dropped(old(m.S()), i)
  {
    hide SB.SmallBins.Contents, TB.TreeBins.Contents;
    ghost var g := Dropped(m.S(), i);
    m.footprint := m.footprint - m.segs[i].size;
    m.segs := m.segs[..i] + m.segs[i + 1..];
    m.layout := LayoutOf(g);
  }

  /** `release_unused_segments`; the system refuses to unmap at the addresses in `refuse`. */
  method ReleaseUnusedSegments(m: MState, refuse: set<Addr>) returns (ok: bool, released: nat)
    requires Good(m)
    modifies m`dv, m`dvsize, m`segs, m`footprint, m`releaseChecks, m`layout, m.small, m.trees
    ensures ok && Good(m) && ClientsKept(old(m.S()), m.S()) && m.footprint + released == old(m.footprint)
    ensures old(m.segs) == [] ==> m.segs == []
    ensures old(m.segs) != [] ==> m.segs == old([m.segs[0]] + Left(m.segs[1..], m.layout, refuse))
    ensures NoneToRelease(m.segs, m.layout, refuse)
    ensures m.releaseChecks == if old(|m.segs|) > 4096 then old(|m.segs|) - 1 else 4095
  {
    hide Inv, SB.BinsOK, TB.BinsOK, SB.SmallBins.Valid, TB.TreeBins.Valid, OthersKept, BlockKept, IsFree, ClientsKept,
         Pin, Cin, SizeOf, Inuse, InBins, Fewer, Goes, SoFar, Empty, RecordAtEnd;
    ghost var st, segs0, l0 := m.S(), m.segs, m.layout;
    ClientsUnaware(st, st);
    NoneSeen(segs0, l0, refuse);
    released := 0;
    ok := true;
    var nsegs := 0;
    var i := 1;
    ghost var c := 1;
    while i < |m.segs|
      invariant ok && Good(m) && ClientsKept(st, m.S()) && 1 <= i && 1 <= c
      invariant m.footprint + released == old(m.footprint)
      invariant Fewer(l0, m.layout) && SoFar(segs0, l0, refuse, m.segs, c, i) && nsegs == c - 1
      decreases |m.segs| - i
    {
      var base, size := m.segs[i].base, m.segs[i].size;
      nsegs := nsegs + 1;
      ghost var st1, segs1, l1 := m.S(), m.segs, m.layout;
      FirstChunk(st1, i);
      var p := base;
      var psize := SizeOf(m.HeadOf(p));
      Tested(st1, i);
      GoesStill(segs1[i], l0, l1, refuse);
      SameLayout(l1);
      var gone := false;
      if !Inuse(m.HeadOf(p)) && p + psize >= base + size - TOP_FOOT_SIZE {
        ok, gone := ReleaseOne(m, i, p, psize, refuse);
        ClientsKeptThrough(st, st1, m.S());
        if gone {
          released := released + size;
        }
      }
      assert gone == Goes(segs1[i], l0, refuse);
      OneMoreSeen(segs0, l0, refuse, segs1, m.segs, c, i);
      FewerThrough(l0, l1, m.layout);
      c := c + 1;
      if !gone {
        i := i + 1;
      }
    }
    AllSeen(segs0, l0, refuse, m.segs, c, i);
    NoneLeft(m.S(), segs0, l0, refuse);
    m.releaseChecks := if nsegs > MAX_RELEASE_CHECK_RATE then nsegs else MAX_RELEASE_CHECK_RATE;
  }

  lemma NoneSeen(segs: seq<Segment>, l: Layout, refuse: set<Addr>)
    ensures SoFar(segs, l, refuse, segs, 1, 1) && Fewer(l, l)
  {
  }

  lemma SameLayout(l: Layout)
    ensures Fewer(l, l)
  {
  }

  lemma AllSeen(segs: seq<Segment>, l: Layout, refuse: set<Addr>, segs': seq<Segment>, c: nat, i: nat)
    requires SoFar(segs, l, refuse, segs', c, i) && i >= |segs'|
    ensures segs == [] ==> segs' == []
    ensures segs != [] ==> segs' == [segs[0]] + Left(segs[1..], l, refuse) && c == |segs|
    ensures segs == [] ==> c == 1
  {
    assert segs != [] ==> c == |segs| && segs[1..c] == segs[1..];
  }

  /** Those that stay would not go in the end, either. */
  lemma NoneLeft(st: State, segs: seq<Segment>, l: Layout, refuse: set<Addr>)
    requires if segs == [] then st.segs == [] else st.segs == [segs[0]] + Left(segs[1..], l, refuse)
    requires Fewer(l, LayoutOf(st)) && Inv(st, {}, {})
    ensures NoneToRelease(st.segs, LayoutOf(st), refuse)
  {
    hide Inv, Fewer, Goes, Left;
    forall k: nat | 0 < k < |st.segs| ensures !Goes(st.segs[k], LayoutOf(st), refuse) {
      BasePinned2(st, k);
      GoesStill(st.segs[k], l, LayoutOf(st), refuse);
      LeftStays(segs[1..], l, refuse, k - 1);
      StaysOut(st.segs[k], l, LayoutOf(st), refuse);
    }
  }

  lemma StaysOut(s: Segment, l: Layout, l': Layout, refuse: set<Addr>)
    requires Goes(s, l, refuse) <==> Empty(s, l') && RecordAtEnd(s) && s.base !in refuse
    ensures Goes(s, l, refuse) <==> Goes(s, l', refuse)
  {
  }

  /** What the test reads from memory */
  lemma Tested(st: State, i: nat)
    requires 0 < i < |st.segs| && Inv(st, {}, {})
    ensures var p, s := st.segs[i].base, st.segs[i];
            Empty(s, LayoutOf(st)) && RecordAtEnd(s)
            <==> !Inuse(st.tags.HeadOf(p)) && p + SizeOf(st.tags.HeadOf(p)) >= s.base + s.size - TOP_FOOT_SIZE
  {
    hide Inv, SizeOf, Inuse;
    FirstChunk(st, i);
    TestExact(st, i);
  }

  method ReleaseOne(m: MState, i: nat, p: Addr, psize: nat, refuse: set<Addr>) returns (ok: bool, gone: bool)
    requires Good(m) && 0 < i < |m.segs| && p == m.segs[i].base && p in m.layout.ch && m.layout.ch[p] == psize
    requires p !in m.layout.used
    requires p + psize + TOP_FOOT_SIZE >= m.segs[i].base + m.segs[i].size
    modifies m`dv, m`dvsize, m`segs, m`footprint, m`layout, m.small, m.trees
    ensures ok && Good(m) && ClientsKept(old(m.S()), m.S()) && gone == (p !in refuse)
    ensures if gone then m.segs == old(m.segs[..i] + m.segs[i + 1..])
            && m.footprint + old(m.segs[i].size) == old(m.footprint)
            else m.segs == old(m.segs) && m.footprint == old(m.footprint)
    ensures Fewer(old(m.layout), m.layout)
  {
    hide Inv, SB.BinsOK, TB.BinsOK, SB.SmallBins.Valid, TB.TreeBins.Valid, OthersKept, BlockKept, IsFree, ClientsKept,
      Fewer;
    ghost var st := m.S();
    ok := Detach(m, i, p, psize);
    ghost var st1 := m.S();
    ok, gone := DropOrKeep(m, i, p, psize, refuse);
    ClientsKeptThrough(st, st1, m.S());
  }

  // ----- sys_trim -----

  /** `segment_holding(m, top)` */
  method SegmentHoldingTop(m: MState) returns (i: nat)
    requires Good(m) && m.top != 0
    ensures i == 0 && m.segs != []
  {
    hide Inv, SB.BinsOK, TB.BinsOK, SB.SmallBins.Valid, TB.TreeBins.Valid;
    i := 0;
    while i < |m.segs| && !Holds(m.segs[i], m.top)
      invariant i <= |m.segs| && forall j: nat | j < i :: !Holds(m.segs[j], m.top)
    {
      i := i + 1;
    }
    HasSegment(m.S());
    Seg0(m.S(), {}, {});
  }

  /** `segment_holds` */
  predicate Holds(s: Segment, a: Addr)
  {
    s.base <= a < s.base + s.size
  }

  /** `has_segment_link` of the segment with top: no segment record lies in it. */
  method HasSegmentLink(m: MState, base: Addr, size: nat) returns (linked: bool)
    requires Good(m) && m.segs != [] && base == m.segs[0].base && size == m.segs[0].size
    ensures !linked
  {
    hide Inv, SB.BinsOK, TB.BinsOK, SB.SmallBins.Valid, TB.TreeBins.Valid;
    linked := false;
    var i := 1;
    while i < |m.segs|
      invariant 1 <= i && !linked
    {
      RecordElsewhere(m.S(), i);
      if base <= m.segs[i].rec + 16 < base + size {
        return true;
      }
      i := i + 1;
    }
  }

  lemma RecordElsewhere(st: State, i: nat)
    requires 0 < i < |st.segs| && Inv(st, {}, {})
    ensures !(st.segs[0].base <= st.segs[i].rec + 16 < st.segs[0].base + st.segs[0].size)
  {
    hide MapsOK, LeastOK, FootprintOK, BinsMatch, UsedOK, DvTopOK, OK, SegsOK, Pin;
    SegAtK(st.tags, st.segs, i);
    SegsApartAt(st.tags, st.segs, 0, i);
  }

  /** As much as top can give up in units of 64 KiB, of what it has beyond `pad` */
  predicate Spare(topsize: nat, cut: nat, pad: nat)
  {
    cut % 65536 == 0 && cut < topsize && 0 < topsize - cut - pad <= 65536
  }

  /** Top, which ended before its segment's end `end`, has given up all it can spare, unless the system refuses to
      unmap just that. */
  ghost predicate CutDown(topsize: nat, topsize': nat, end: Addr, pad: nat, refuse: set<Addr>)
  {
    if topsize <= pad then topsize' == topsize else
      exists e: nat :: Spare(topsize, e, pad) && topsize' == topsize - if end - e in refuse then 0 else e
  }

  /** The whole units that top can spare */
  function Extra(topsize: nat, pad: nat): (e: nat)
    requires topsize > pad
    ensures Spare(topsize, e, pad)
  {
    ((topsize - pad + (GRANULARITY - 1)) / GRANULARITY - 1) * GRANULARITY
  }

  function Cut(s: Segment, n: nat): Segment
    requires n <= s.size
  {
    s.(size := s.size - n)
  }

  /** All chunks but `t` are as they were. */
  predicate SameBut(l: Layout, l': Layout, t: Addr)
  {
    l'.used == l.used && l'.ch - {t} == l.ch - {t}
  }

  lemma NoCut(st: State)
    requires Inv(st, {}, {}) && st.tags.top != 0
    ensures st.segs != [] && Cut(st.segs[0], 0) == st.segs[0]
  {
    hide Inv;
    HasSegment(st);
  }

  /** Top is in the first segment, so whether others are free is not a matter of its size. */
  lemma LeftBehindTop(st: State, l': Layout, refuse: set<Addr>)
    requires st.segs != [] && SameBut(LayoutOf(st), l', st.tags.top) && Inv(st, {}, {})
    ensures Left(st.segs[1..], l', refuse) == Left(st.segs[1..], LayoutOf(st), refuse)
  {
    hide Inv;
    forall s | s in st.segs[1..] ensures Empty(s, l') <==> Empty(s, LayoutOf(st)) {
      var k: nat :| 0 < k < |st.segs| && s == st.segs[k];
      BaseNotTop(st, {}, {}, k);
      assert (s.base in l'.ch <==> s.base in (l'.ch - {st.tags.top}))
             && (s.base in st.tags.ch <==> s.base in (st.tags.ch - {st.tags.top}));
    }
    LeftSame(st.segs[1..], LayoutOf(st), l', refuse);
  }

  /** Top gives up the whole units that it can spare. */
  method CutTop(m: MState, pad: nat, refuse: set<Addr>) returns (released: nat)
    requires Good(m) && m.top != 0 && m.topsize > pad >= TOP_FOOT_SIZE
    modifies m`mem, m`top, m`topsize, m`trimCheck, m`segs, m`footprint, m`layout
    ensures Good(m) && ClientsKept(old(m.S()), m.S()) && m.footprint + released == old(m.footprint)
    ensures m.topsize + released == old(m.topsize) && m.topsize > pad
    ensures m.trimCheck == if released > 0 then 0x20_0000 else old(m.trimCheck)
    ensures old(m.segs) != []
    ensures CutDown(old(m.topsize), m.topsize, old(m.segs[0].base + m.segs[0].size), pad, refuse)
    ensures m.segs != [] && released <= old(m.segs[0].size)
    ensures m.segs == old(m.segs)[0 := Cut(old(m.segs[0]), released)] && SameBut(old(m.layout), m.layout, old(m.top))
  {
    hide Inv, SB.BinsOK, TB.BinsOK, SB.SmallBins.Valid, TB.TreeBins.Valid, OthersKept, BlockKept, TopMem, Extra;
    ghost var st := m.S();
    ClientsUnaware(st, st);
    released := 0;
    var extra := Extra(m.topsize, pad);
    var i := SegmentHoldingTop(m);
    var sp := m.segs[i];
    Seg0(st, {}, {});
    var linked := HasSegmentLink(m, sp.base, sp.size);
    if sp.size >= extra && !linked {
      var newsize := sp.size - extra;
      if sp.base + newsize !in refuse {
        released := extra;
      }
    }
    if released != 0 {
      Pages16(extra);
      PageAligned(sp.size - extra);
      PageAligned(sp.size);
      ResizeTop(st, sp.size - released, {}, {});
      Shrink(m, released, i);
      KeptAll(st, m.S());
    }
  }

  lemma Pages16(e: nat)
    requires e % 65536 == 0
    ensures e % 4096 == 0 && e % 16 == 0
  {
  }

  method Shrink(m: MState, released: nat, i: nat)
    requires i == 0 && m.segs != [] && m.top % 16 == 0 && released <= m.topsize && released <= m.segs[0].size
    requires released <= m.footprint
    requires (m.topsize - released) % 16 == 0
    modifies m`mem, m`top, m`topsize, m`trimCheck, m`segs, m`footprint, m`layout
    ensures m.S() == Resized(old(m.S()), old(m.segs[0].size) - released) && m.trimCheck == TRIM_THRESHOLD
  {
    hide SB.SmallBins.Contents, TB.TreeBins.Contents, TopMem;
    m.segs := m.segs[i := m.segs[i].(size := m.segs[i].size - released)];
    m.footprint := m.footprint - released;
    InitTop(m, m.top, m.topsize - released);
    m.layout := m.layout.(ch := m.layout.ch[m.top := m.topsize]);
  }

  /** The part of `sys_trim` that shrinks top */
  method TrimTop(m: MState, pad: nat, refuse: set<Addr>) returns (released: nat)
    requires Good(m) && m.top != 0 && pad >= TOP_FOOT_SIZE
    modifies m`mem, m`top, m`topsize, m`trimCheck, m`segs, m`footprint, m`layout
    ensures Good(m) && ClientsKept(old(m.S()), m.S()) && m.footprint + released == old(m.footprint)
    ensures m.topsize + released == old(m.topsize) && (old(m.topsize > pad) ==> m.topsize > pad)
    ensures m.trimCheck == if released > 0 then 0x20_0000 else old(m.trimCheck)
    ensures old(m.segs) != [] && released <= old(m.segs[0].size) && m.segs != []
    ensures CutDown(old(m.topsize), m.topsize, old(m.segs[0].base + m.segs[0].size), pad, refuse)
    ensures m.segs[0] == Cut(old(m.segs[0]), released)
    ensures Left(m.segs[1..], m.layout, refuse) == old(Left(m.segs[1..], m.layout, refuse))
  {
    hide Inv, SB.BinsOK, TB.BinsOK, SB.SmallBins.Valid, TB.TreeBins.Valid, OthersKept, BlockKept, ClientsKept, Extra,
      Cut, Left;
    ghost var st := m.S();
    ClientsUnaware(st, st);
    NoCut(st);
    released := 0;
    if m.topsize > pad {
      released := CutTop(m, pad, refuse);
      assert m.segs[1..] == st.segs[1..];
      LeftBehindTop(st, m.layout, refuse);
    }
  }

  /** `sys_trim` */
  method SysTrim(m: MState, pad: nat, refuse: set<Addr>) returns (ok: bool, released: nat)
    requires Good(m)
    modifies m`mem, m`top, m`topsize, m`trimCheck, m`dv, m`dvsize, m`segs, m`footprint, m`releaseChecks, m`layout,
             m.small, m.trees
    ensures ok && Good(m) && ClientsKept(old(m.S()), m.S())
    ensures m.footprint + released == old(m.footprint)
    ensures pad < 0xFFFF_FFFF_FFFF_FF80 && old(m.top) != 0 ==>
              var cut := old(m.topsize) - m.topsize;
              && old(m.segs) != [] && 0 <= cut <= old(m.segs[0].size)
              && CutDown(old(m.topsize), m.topsize, old(m.segs[0].base + m.segs[0].size), pad + 80, refuse)
              && m.segs == [Cut(old(m.segs[0]), cut)] + old(Left(m.segs[1..], m.layout, refuse))
    ensures pad < 0xFFFF_FFFF_FFFF_FF80 && old(m.top) != 0 ==> NoneToRelease(m.segs, m.layout, refuse)
    ensures pad >= 0xFFFF_FFFF_FFFF_FF80 || old(m.top) == 0 ==> released == 0 && m.S() == old(m.S())
    ensures pad < 0xFFFF_FFFF_FFFF_FF80 && old(m.top) != 0 && released == 0 && m.topsize > old(m.trimCheck) ==>
              m.trimCheck == 0xFFFF_FFFF_FFFF_FFFF
    ensures pad >= 0xFFFF_FFFF_FFFF_FF80 || old(m.top) == 0 || released > 0 || m.topsize <= old(m.trimCheck) ==>
              m.trimCheck == if m.topsize < old(m.topsize) then 0x20_0000 else old(m.trimCheck)
  {
    hide Inv, SB.BinsOK, TB.BinsOK, SB.SmallBins.Valid, TB.TreeBins.Valid, OthersKept, BlockKept, ClientsKept, Extra,
      Cut, CutDown, Left, NoneToRelease;
    ghost var st := m.S();
    ClientsUnaware(st, st);
    released := 0;
    ok := true;
    if pad < MAX_REQUEST && m.top != 0 {
      released := TrimTop(m, pad + TOP_FOOT_SIZE, refuse);
      ghost var st1 := m.S();
      var more;
      ok, more := ReleaseUnusedSegments(m, refuse);
      ClientsKeptThrough(st, st1, m.S());
      released := released + more;
      if released == 0 && m.topsize > m.trimCheck {
        m.trimCheck := MAX_SIZE_T;
      }
    }
  }
}
