/** `internal_bulk_free` */
module BulkFree {
  import opened Words
  import opened BoundaryTags
  import opened HeapState
  import opened HeapSteps
  import opened HeapOps
  import opened HeapOps2
  import opened MallocState
  import opened HandOut
  import opened SegmentOps
  import opened Consolidate
  import opened Dispose
  import opened Trim
  import opened Freeing
  import opened Realloc
  import opened HeapFacts
  import opened SegmentNew
  import opened SegmentGrow
  import SB = SmallBins
  import TB = TreeBins

  /** `mem2chunk` */
  function Chunk(x: Addr): Addr
  {
    if x >= 16 then x - 16 else 0
  }

  /** The chunks that the pointers in `s` lead to. */
  function Chunks(s: seq<Addr>): set<Addr>
  {
    if s == [] then {} else Chunks(s[1..]) + if s[0] == 0 then {} else {Chunk(s[0])}
  }

  /** All pointers lead to blocks that the client owns, no two to the same. */
  predicate Owned(s: seq<Addr>, live: set<Addr>, maps: map<Addr, Mapping>)
  {
    s == [] ||
    (Owned(s[1..], live, maps)
     && (s[0] == 0 || (s[0] >= 16 && (Chunk(s[0]) in live || Chunk(s[0]) in maps) && Chunk(s[0]) !in Chunks(s[1..]))))
  }

  // ----- Merging two blocks -----

  function Merged(st: State, p: Addr, q: Addr): State
    requires p in st.tags.ch && q in st.tags.ch && p <= q + st.tags.ch[q] && (q + st.tags.ch[q] - p) % 16 == 0
  {
    Grown(st, p, q + st.tags.ch[q], {p, q}, q)
  }

  lemma MergeBlocks(st: State, p: Addr, q: Addr)
    requires p in st.live && q in st.live && p in st.tags.ch && q == p + st.tags.ch[p] && Inv(st, {}, {})
    ensures q in st.tags.ch && p != q && (q + st.tags.ch[q] - p) % 16 == 0 && st.tags.ch[p] % 16 == 0
    ensures st.tags.ch[q] % 16 == 0
    ensures Inv(Merged(st, p, q), {}, {}) && forall r | r != p && r != q :: BlockKept(st, Merged(st, p, q), r)
  {
    hide Inv, BlockKept, Taken, Pin, GrownMem;
    NextChunk(st, p, {}, {});
    NextChunk(st, q, {}, {});
    UsedAvailable(st, {}, {}, p);
    UsedAvailable(st, {}, {}, q);
    var k := TakeOne(st, {}, {}, p);
    TakeNext(st, {}, {}, k, p, q, {p});
    assert {p} + {q} == {p, q};
    GrowWhole(st, k, p, q + st.tags.ch[q], {p, q}, q, {}, {}, Merged(st, p, q));
    assert {} - {p, q} == {};
  }

  /** `set_inuse(m, p, newsize)` over the block behind it */
  method MergeNext(m: MState, p: Addr, psize: nat, next: Addr, newsize: nat)
    requires Good(m) && p in m.layout.live && next in m.layout.live && p in m.layout.ch && m.layout.ch[p] == psize
    requires next == p + psize
    requires next in m.layout.ch && newsize == m.layout.ch[next] + psize
    modifies m`mem, m`layout
    ensures Good(m) && m.layout.live == old(m.layout.live) - {next} && m.layout.maps == old(m.layout.maps)
    ensures p in m.layout.live
    ensures p != next && forall r | r != p && r != next :: BlockKept(old(m.S()), m.S(), r)
  {
    hide Inv, SB.BinsOK, TB.BinsOK, SB.SmallBins.Valid, TB.TreeBins.Valid, BlockKept, SetInuse, GrownMem;
    ghost var st := m.S();
    MergeBlocks(st, p, next);
    ghost var g := Merged(st, p, next);
    GrownMemIs(m.H(), p, newsize);
    DvNotUsed(st, p, next);
    m.mem := SetInuse(m.mem, p, newsize);
    m.layout := LayoutOf(g);
    assert m.S() == g;
  }

  lemma DvNotUsed(st: State, p: Addr, q: Addr)
    requires p in st.live && q in st.live && Inv(st, {}, {})
    ensures st.dv != p && st.dv != q
  {
    hide Inv;
    NextChunk(st, p, {}, {});
    NextChunk(st, q, {}, {});
  }

  // ----- One pointer -----

  /** One block is given back as `dispose_chunk` does. */
  method DisposeChunk(m: MState, p: Addr, psize: nat, refuse: set<Addr>) returns (ok: bool)
    requires Good(m) && (p in m.layout.live || p in m.layout.maps) && psize == SizeOf(m.HeadOf(p))
    modifies m`mem, m`top, m`topsize, m`dv, m`dvsize, m`footprint, m`layout, m.small, m.trees
    ensures ok && Good(m) && FreedBlock(old(m.S()), m.S(), p, refuse)
  {
    hide Inv, SB.BinsOK, TB.BinsOK, SB.SmallBins.Valid, TB.TreeBins.Valid, SizeOf, Pin, Cin, IsMmapped, Inuse, Released,
      BlockKept, OthersKept;
    ghost var st := m.S();
    ok := true;
    if p in m.layout.maps {
      MappedWords(st, p);
    } else {
      BlockWords(st, p);
    }
    FlagsSplit(m.HeadOf(p));
    if !Pin(m.HeadOf(p)) && IsMmapped(m.HeadOf(p)) {
      FreeMapped(m, p, psize, refuse);
    } else {
      var toTop, large;
      ok, toTop, large := GiveBack(m, p, psize, {});
      assert {} - {p} == {};
    }
  }

  /** The pointers in `s` are what is still to be freed of the blocks `D`. */
  ghost predicate Progress(st: State, st': State, s: seq<Addr>, D: set<Addr>, refuse: set<Addr>)
  {
    && Owned(s, st'.live, st'.maps) && Chunks(s) <= D
    && st'.live == st.live - (D - Chunks(s))
    && (forall p | p in st'.maps ::
       p in st.maps && st'.maps[p] == st.maps[p] && StillMapped(st, p, D - Chunks(s), refuse))
    && (forall p | p in st.maps && StillMapped(st, p, D - Chunks(s), refuse) :: p in st'.maps)
    && OthersKept(st, st', D) && st.live !! st.maps.Keys
  }

  /** A mapped chunk that is not to be freed, or cannot be unmapped */
  predicate StillMapped(st: State, p: Addr, gone: set<Addr>, refuse: set<Addr>)
    requires p in st.maps
  {
    p !in gone || st.maps[p].base in refuse
  }

  lemma ProgressStart(st: State, s: seq<Addr>, refuse: set<Addr>)
    requires Owned(s, st.live, st.maps) && Inv(st, {}, {})
    ensures Progress(st, st, s, Chunks(s), refuse)
  {
    hide Inv;
    forall p | p in st.live && p in st.maps ensures false {
      NotBoth(st, p);
    }
    KeptSelf(st, Chunks(s));
  }

  lemma KeptSelf(st: State, D: set<Addr>)
    ensures OthersKept(st, st, D)
  {
  }

  lemma {:induction false} StillOwned(s: seq<Addr>, live: set<Addr>, maps: map<Addr, Mapping>, live': set<Addr>,
      maps': map<Addr, Mapping>, p: Addr)
    requires Owned(s, live, maps) && p !in Chunks(s) && live - {p} <= live' && maps.Keys - {p} <= maps'.Keys
    ensures Owned(s, live', maps')
  {
    if s != [] {
      StillOwned(s[1..], live, maps, live', maps', p);
    }
  }

  lemma FreedSets(st: State, st': State, p: Addr, refuse: set<Addr>)
    requires FreedBlock(st, st', p, refuse) && (p in st.live || p in st.maps) && Inv(st, {}, {})
    ensures OthersKept(st, st', {p}) && st'.live == st.live - {p}
    ensures (forall q | q in st'.maps :: q in st.maps && st'.maps[q] == st.maps[q] && StillMapped(st, q, {p}, refuse))
    ensures (forall q | q in st.maps && StillMapped(st, q, {p}, refuse) :: q in st'.maps)
  {
    hide Inv;
    KeptSelf(st, {p});
    if p in st.maps {
      NotBoth(st, p);
    }
  }

  /** The first pointer's block is freed. */
  lemma ProgressFree(st: State, st1: State, st2: State, s: seq<Addr>, D: set<Addr>, refuse: set<Addr>)
    requires s != [] && s[0] != 0 && Progress(st, st1, s, D, refuse) && FreedBlock(st1, st2, Chunk(s[0]), refuse)
    requires Inv(st1, {}, {})
    ensures Progress(st, st2, s[1..], D, refuse)
  {
    hide Inv, OthersKept, FreedBlock;
    var p := Chunk(s[0]);
    FreedSets(st1, st2, p, refuse);
    KeptThrough(st, st1, st2, D, {p});
    assert D + {p} == D;
    OwnedAfter(st1, st2, s, p, refuse);
    assert D - Chunks(s[1..]) == (D - Chunks(s)) + {p};
  }

  lemma OwnedAfter(st1: State, st2: State, s: seq<Addr>, p: Addr, refuse: set<Addr>)
    requires s != [] && s[0] != 0 && p == Chunk(s[0]) && Owned(s, st1.live, st1.maps) && st2.live == st1.live - {p}
    requires forall q | q in st1.maps && StillMapped(st1, q, {p}, refuse) :: q in st2.maps
    ensures Owned(s[1..], st2.live, st2.maps)
  {
    forall q | q in st1.maps && q != p ensures q in st2.maps {
      assert StillMapped(st1, q, {p}, refuse);
    }
    StillOwned(s[1..], st1.live, st1.maps, st2.live, st2.maps, p);
  }

  /** The first pointer's block takes over the second's, and the pointer moves on. */
  lemma ProgressMerge(st: State, st1: State, st2: State, s: seq<Addr>, D: set<Addr>, refuse: set<Addr>)
    requires |s| >= 2 && s[0] != 0 && s[1] != 0 && Progress(st, st1, s, D, refuse) && Chunk(s[0]) in st1.live
    requires Chunk(s[1]) in st1.live
    requires st2.live == st1.live - {Chunk(s[1])} && st2.maps == st1.maps
    requires forall q | q != Chunk(s[0]) && q != Chunk(s[1]) :: BlockKept(st1, st2, q)
    ensures Progress(st, st2, [s[0]] + s[2..], D, refuse)
  {
    hide BlockKept;
    var p, q, rest := Chunk(s[0]), Chunk(s[1]), [s[0]] + s[2..];
    var t := s[1..];
    assert Owned(t, st1.live, st1.maps) && t[0] == s[1] && t[1..] == s[2..] == rest[1..];
    assert OthersKept(st1, st2, {p, q});
    KeptThrough(st, st1, st2, D, {p, q});
    assert D + {p, q} == D;
    StillOwned(s[2..], st1.live, st1.maps, st2.live, st2.maps, q);
    assert Chunks(s) == Chunks(rest) + {q} && q !in Chunks(rest);
    assert D - Chunks(rest) == (D - Chunks(s)) + {q};
    assert q !in st.maps;
  }

  /** The segments are as they were and top is no larger than the threshold, or else it was trimmed. */
  ghost predicate TrimmedAfter(st: State, st': State, trimCheck: nat, refuse: set<Addr>)
  {
    || (st'.segs == st.segs && st'.topsize <= trimCheck)
    || exists t: nat :: TrimmedFrom(st, st', t, trimCheck, refuse)
  }

  /** Top, grown to `t` bytes, was trimmed, and segments released. */
  ghost predicate TrimmedFrom(st: State, st': State, t: nat, trimCheck: nat, refuse: set<Addr>)
  {
    && t > trimCheck && st.segs != [] && CutDown(t, st'.topsize, st.segs[0].base + st.segs[0].size, 80, refuse)
    && NoneToRelease(st'.segs, LayoutOf(st'), refuse)
  }

  /** `internal_bulk_free`: the array of pointers becomes null throughout. */
  method InternalBulkFree(m: MState, array_: array<Addr>, refuse: set<Addr>) returns (ok: bool)
    requires Good(m) && Owned(array_[..], m.layout.live, m.layout.maps)
    modifies m, m.small, m.trees, array_
    ensures ok && Good(m) && forall i | 0 <= i < array_.Length :: array_[i] == 0
    ensures Progress(old(m.S()), m.S(), [], Chunks(old(array_[..])), refuse)
    ensures TrimmedAfter(old(m.S()), m.S(), old(m.trimCheck), refuse)
  {
    hide Inv, SB.BinsOK, TB.BinsOK, SB.SmallBins.Valid, TB.TreeBins.Valid, Progress, Owned, Chunks, CutDown,
      NoneToRelease, Left, Trim.Cut, SB.SmallBins.Contents, TB.TreeBins.Contents;
    ghost var st := m.S();
    ghost var D := Chunks(array_[..]);
    assert array_[0..] == array_[..];
    ProgressStart(st, array_[..], refuse);
    ok := true;
    var a := 0;
    while a < array_.Length
      invariant 0 <= a <= array_.Length && ok && Good(m)
      invariant forall i | 0 <= i < a :: array_[i] == 0
      invariant Progress(st, m.S(), array_[a..], D, refuse)
      invariant m.segs == st.segs && m.trimCheck == old(m.trimCheck)
    {
      ghost var s := array_[a..];
      if array_[a] != 0 {
        ok := FreeEntry(m, array_, a, refuse, st, D);
      } else {
        ProgressNull(st, m.S(), s, D, refuse);
      }
      assert array_[a + 1..] == array_[a..][1..];
      a := a + 1;
    }
    assert array_[a..] == [];
    if m.topsize > m.trimCheck {
      ghost var st1 := m.S();
      var released;
      TopThere(st1);
      ok, released := SysTrim(m, 0, refuse);
      ProgressTrim(st, st1, m.S(), D, refuse);
      assert m.layout == LayoutOf(m.S());
      assert TrimmedFrom(st, m.S(), st1.topsize, old(m.trimCheck), refuse);
    }
  }

  lemma ProgressNull(st: State, st': State, s: seq<Addr>, D: set<Addr>, refuse: set<Addr>)
    requires s != [] && s[0] == 0 && Progress(st, st', s, D, refuse)
    ensures Progress(st, st', s[1..], D, refuse)
  {
  }

  lemma ProgressTrim(st: State, st1: State, st2: State, D: set<Addr>, refuse: set<Addr>)
    requires Progress(st, st1, [], D, refuse) && ClientsKept(st1, st2)
    ensures Progress(st, st2, [], D, refuse)
  {
    hide BlockKept;
    KeptThrough(st, st1, st2, D, {});
    assert D + {} == D;
  }

  /** One turn of the loop for a pointer that is not null */
  method FreeEntry(m: MState, array_: array<Addr>, a: nat, refuse: set<Addr>, ghost st: State, ghost D: set<Addr>)
    returns (ok: bool)
    requires Good(m) && a < array_.Length && array_[a] != 0 && Progress(st, m.S(), array_[a..], D, refuse)
    modifies m`mem, m`top, m`topsize, m`dv, m`dvsize, m`footprint, m`layout, m.small, m.trees, array_
    ensures ok && Good(m) && array_[a] == 0 && (forall i | 0 <= i < a :: array_[i] == old(array_[i]))
    ensures Progress(st, m.S(), array_[a + 1..], D, refuse)
  {
    hide Inv, SB.BinsOK, TB.BinsOK, SB.SmallBins.Valid, TB.TreeBins.Valid, Progress, Owned, Chunks, FreedBlock, SizeOf,
      Inuse, BlockKept;
    ghost var st1 := m.S();
    ghost var s := array_[a..];
    FirstOwned(st, st1, s, D, refuse);
    var p := array_[a] - 16;
    NextWords(st1, p);
    var psize := SizeOf(m.HeadOf(p));
    array_[a] := 0;
    ok := true;
    if m.leastAddr <= p && Inuse(m.HeadOf(p)) {
      var b := a + 1;
      var next := p + psize;
      if b != array_.Length && array_[b] == next + 16 {
        SecondOwned(st, st1, s, D, refuse);
        NextWords(st1, next);
        MappedAlone(st1, p, next);
        var newsize := SizeOf(m.HeadOf(next)) + psize;
        MergeNext(m, p, psize, next, newsize);
        array_[b] := p + 16;
        ProgressMerge(st, st1, m.S(), s, D, refuse);
        assert array_[b..] == [s[0]] + s[2..];
      } else {
        ok := DisposeChunk(m, p, psize, refuse);
        ProgressFree(st, st1, m.S(), s, D, refuse);
        assert array_[b..] == s[1..];
      }
    } else {
      ok := false;
    }
  }

  lemma FirstOwned(st: State, st1: State, s: seq<Addr>, D: set<Addr>, refuse: set<Addr>)
    requires s != [] && s[0] != 0 && Progress(st, st1, s, D, refuse)
    ensures s[0] >= 16 && Chunk(s[0]) == s[0] - 16 && (Chunk(s[0]) in st1.live || Chunk(s[0]) in st1.maps)
  {
  }

  lemma SecondOwned(st: State, st1: State, s: seq<Addr>, D: set<Addr>, refuse: set<Addr>)
    requires |s| >= 2 && s[1] != 0 && Progress(st, st1, s, D, refuse)
    ensures s[1] >= 16 && Chunk(s[1]) == s[1] - 16 && (Chunk(s[1]) in st1.live || Chunk(s[1]) in st1.maps)
  {
    var t := s[1..];
    assert Owned(t, st1.live, st1.maps) && t[0] == s[1];
  }

  /** No block of the client begins where the fake chunk behind a mapped one does, and no mapped chunk behind
      a block of a segment. */
  lemma MappedAlone(st: State, p: Addr, q: Addr)
    requires (p in st.live || p in st.maps) && q == p + SizeOf(st.tags.HeadOf(p)) && (q in st.live || q in st.maps)
    requires Inv(st, {}, {})
    ensures p in st.live && q in st.live && p in st.tags.ch && q in st.tags.ch
    ensures st.tags.ch[p] == SizeOf(st.tags.HeadOf(p))
  {
    hide OK, DvTopOK, BinsMatch, UsedOK, FootprintOK, LeastOK, MapsOK, SegsOK, SizeOf, Inuse;
    NextWords(st, p);
    if p in st.maps {
      MappedWords(st, p);
      MapWords(st, p);
      if q in st.maps {
        MappedWords(st, q);
        MapWords(st, q);
        MapPair(st, p, q);
      } else {
        NextChunk(st, q, {}, {});
        var k := SegOf(st.tags, st.segs, q);
        MapSeg(st, p, k);
      }
    } else {
      NotMapped(st, {}, {}, q);
    }
  }

  // ----- Against freeing one by one -----

  /** From one moment to the next, the block of one pointer is freed. */
  ghost predicate OneFreed(st: State, st': State, x: Addr, refuse: set<Addr>)
  {
    Inv(st', {}, {}) && if x == 0 then st' == st else FreedBlock(st, st', Chunk(x), refuse)
  }

  /** The pointers are freed in their order; `trace` has the moments between. */
  ghost predicate OneByOne(trace: seq<State>, s: seq<Addr>, refuse: set<Addr>)
  {
    |trace| == |s| + 1 && Inv(trace[0], {}, {})
    && (s != [] ==> OneFreed(trace[0], trace[1], s[0], refuse) && OneByOne(trace[1..], s[1..], refuse))
  }

  /** Freeing one by one comes to what the bulk operation promises, whatever order the pointers are in. */
  lemma FreedOneByOne(trace: seq<State>, s: seq<Addr>, refuse: set<Addr>)
    requires OneByOne(trace, s, refuse) && Owned(s, trace[0].live, trace[0].maps)
    ensures Progress(trace[0], trace[|s|], [], Chunks(s), refuse) && Inv(trace[|s|], {}, {})
  {
    hide Inv, Progress, Owned, Chunks;
    ProgressStart(trace[0], s, refuse);
    FreedFrom(trace[0], trace, s, Chunks(s), refuse);
  }

  lemma {:induction false} FreedFrom(st: State, trace: seq<State>, s: seq<Addr>, D: set<Addr>, refuse: set<Addr>)
    requires OneByOne(trace, s, refuse) && Progress(st, trace[0], s, D, refuse)
    ensures Progress(st, trace[|s|], [], D, refuse) && Inv(trace[|s|], {}, {})
    decreases |s|
  {
    hide Inv, Progress, FreedBlock, Chunk;
    if s != [] {
      if s[0] == 0 {
        ProgressNull(st, trace[0], s, D, refuse);
      } else {
        ProgressFree(st, trace[0], trace[1], s, D, refuse);
      }
      FreedFrom(st, trace[1..], s[1..], D, refuse);
    }
  }

  /** The two heaps have the same chunks with the same sizes, the same of them free, the same blocks of clients,
      mapped ones included, and the same top. */
  predicate SameHeap(st: State, st': State)
  {
    && st'.tags.ch == st.tags.ch && st'.tags.used == st.tags.used && st'.tags.top == st.tags.top
    && st'.live == st.live && st'.maps == st.maps
  }

  /** What is freed and the segments that stay determine the heap. */
  lemma FreedTheSame(st: State, a: State, b: State, D: set<Addr>, refuse: set<Addr>)
    requires Progress(st, a, [], D, refuse) && Progress(st, b, [], D, refuse) && b.segs == a.segs
    requires Inv(st, {}, {}) && Inv(a, {}, {}) && Inv(b, {}, {})
    ensures SameHeap(a, b)
  {
    hide Inv, Progress;
    SameMaps(st, a, b, D, refuse);
    UsedAgain(st, a, b, D, refuse);
    UsedAgain(st, b, a, D, refuse);
    forall p | p in a.tags.ch ensures p in b.tags.ch && b.tags.ch[p] == a.tags.ch[p] {
      FreeRuns(a, b, p);
    }
    forall p | p in b.tags.ch ensures p in a.tags.ch {
      FreeRuns(b, a, p);
    }
    SameTop(a, b);
  }

  lemma SameMaps(st: State, a: State, b: State, D: set<Addr>, refuse: set<Addr>)
    requires Progress(st, a, [], D, refuse) && Progress(st, b, [], D, refuse)
    ensures b.live == a.live == st.live - D && b.maps == a.maps
  {
    hide OthersKept;
    assert D - Chunks([]) == D;
    forall p | p in a.maps ensures p in b.maps && b.maps[p] == a.maps[p] {
    }
    forall p | p in b.maps ensures p in a.maps {
    }
  }

  /** A block that stays is where it was, and segment records are all of one size. */
  lemma UsedAgain(st: State, a: State, b: State, D: set<Addr>, refuse: set<Addr>)
    requires Progress(st, a, [], D, refuse) && Progress(st, b, [], D, refuse) && b.segs == a.segs
    requires Inv(st, {}, {}) && Inv(a, {}, {}) && Inv(b, {}, {})
    ensures SameUsed(a, b)
  {
    hide Inv, Progress, BlockKept, SameUsed, Records;
    SameMaps(st, a, b, D, refuse);
    AllUsed(a);
    AllUsed(b);
    forall p | p in a.tags.used ensures p in a.tags.ch && p in b.tags.ch && b.tags.ch[p] == a.tags.ch[p] {
      if p in a.live {
        LiveStays(st, a, D, refuse, p);
        LiveStays(st, b, D, refuse, p);
      } else {
        RecordSize(a, p);
        RecordSize(b, p);
      }
    }
    assert SameUsed(a, b) by {
      IsSameUsed(a, b);
    }
  }

  lemma IsSameUsed(a: State, b: State)
    requires b.tags.used == a.tags.used
    requires forall p | p in a.tags.used :: p in a.tags.ch && p in b.tags.ch && b.tags.ch[p] == a.tags.ch[p]
    ensures SameUsed(a, b)
  {
  }

  lemma AllUsed(st: State)
    requires Inv(st, {}, {})
    ensures st.tags.used == st.live + Records(st.segs)
  {
    hide OK, DvTopOK, BinsMatch, SegsOK, MapsOK, FootprintOK, LeastOK, Records;
    assert st.live + Records(st.segs) + {} == st.live + Records(st.segs);
  }

  lemma LiveStays(st: State, a: State, D: set<Addr>, refuse: set<Addr>, p: Addr)
    requires Progress(st, a, [], D, refuse) && p in a.live && Inv(st, {}, {})
    ensures p in st.tags.ch && p in a.tags.ch && a.tags.ch[p] == st.tags.ch[p]
  {
    hide Inv;
    assert D - Chunks([]) == D;
    assert BlockKept(st, a, p);
    NextChunk(st, p, {}, {});
  }

  lemma RecordSize(st: State, p: Addr)
    requires p in Records(st.segs) && Inv(st, {}, {})
    ensures p in st.tags.ch && st.tags.ch[p] == SEGMENT_RECORD
  {
    hide OK, DvTopOK, BinsMatch, UsedOK, MapsOK, FootprintOK, LeastOK, SegsOK;
    var k: nat :| 0 < k < |st.segs| && p == st.segs[k].rec;
    SegAt(st.tags, st.segs, k);
  }

  lemma SameTop(a: State, b: State)
    requires b.segs == a.segs && b.tags.ch == a.tags.ch && Inv(a, {}, {}) && Inv(b, {}, {})
    ensures b.tags.top == a.tags.top
  {
    hide OK, BinsMatch, UsedOK, MapsOK, FootprintOK, LeastOK;
    if a.segs != [] {
      Seg0(a, {}, {});
      Seg0(b, {}, {});
      if b.tags.top != a.tags.top {
        TwoApart(a, a.tags.top, b.tags.top);
      }
    }
  }

  /** After a bulk operation the heap is what it is after freeing the same blocks one by one, in any order, if the
      same segments are left: the free chunks are the same. */
  lemma AsOneByOne(st: State, st': State, s: seq<Addr>, trace: seq<State>, t: seq<Addr>, refuse: set<Addr>)
    requires Inv(st, {}, {}) && Inv(st', {}, {}) && Progress(st, st', [], Chunks(s), refuse)
    requires OneByOne(trace, t, refuse) && trace[0] == st && Owned(t, st.live, st.maps) && Chunks(t) == Chunks(s)
    requires st'.segs == trace[|t|].segs
    ensures SameHeap(trace[|t|], st')
  {
    hide Inv, Progress, Owned, Chunks, SameHeap;
    FreedOneByOne(trace, t, refuse);
    FreedTheSame(st, trace[|t|], st', Chunks(s), refuse);
  }
}
