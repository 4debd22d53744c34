/** `dlfree` */
module Freeing {
  import opened Words
  import opened BoundaryTags
  import opened HeapState
  import opened HeapOps2
  import opened MallocState
  import opened HandOut
  import opened SegmentOps
  import opened Dispose
  import opened Trim
  import SB = SmallBins
  import TB = TreeBins

  /** A mapped chunk's words: its head has neither flag, and leads back to its mapping. */
  lemma MappedWords(st: State, p: Addr)
    requires p in st.maps && Inv(st, {}, {})
    ensures var w, m := st.tags.HeadOf(p), st.maps[p];
            && IsMmapped(w) && Inuse(w) && SizeOf(w) == w && w % 16 == 0 && st.tags.W(p) <= p
               && p - st.tags.W(p) == m.base
            && w + st.tags.W(p) + MMAP_FOOT_PAD == m.len && p > 0
    ensures st.least <= p && p !in st.live
  {
    hide OK, DvTopOK, BinsMatch, SegsOK, FootprintOK, SizeOf, Inuse, IsMmapped, Pin, Cin;
    MapWords(st, p);
    PageAligned(st.maps[p].len);
    PageAligned(st.maps[p].base);
    Multiples(st.maps[p].base, p, st.maps[p].len);
    NotBoth(st, p);
    SmallFlags(st.tags.HeadOf(p));
  }

  lemma SmallFlags(w: nat)
    requires w % 16 == 0
    ensures IsMmapped(w) && Inuse(w) && SizeOf(w) == w
  {
  }

  lemma NotBoth(st: State, p: Addr)
    requires p in st.maps && Inv(st, {}, {})
    ensures p !in st.live
  {
    hide OK, DvTopOK, BinsMatch, SegsOK, FootprintOK, MapsOK, LeastOK;
    if p in st.live {
      UsedOnce(st, {}, {}, p);
      NotMapped(st, {}, {}, p);
    }
  }

  /** A block's head has the CINUSE flag. */
  lemma BlockWords(st: State, p: Addr)
    requires p in st.live && Inv(st, {}, {})
    ensures p in st.tags.ch && Cin(st.tags.HeadOf(p)) && Inuse(st.tags.HeadOf(p)) && !IsMmapped(st.tags.HeadOf(p))
    ensures SizeOf(st.tags.HeadOf(p)) == st.tags.ch[p] && st.least <= p && p !in st.maps && p > 0
  {
    hide DvTopOK, BinsMatch, SegsOK, FootprintOK, MapsOK, UsedOK, OK, Cin, Pin, SizeOf;
    UsedOnce(st, {}, {}, p);
    NotMapped(st, {}, {}, p);
    ChunkFactsAt(st, {}, {}, p);
  }

  /** What freeing the block or mapped chunk `p` comes to. A mapping that the system refuses to unmap stays. */
  ghost predicate FreedBlock(st: State, st': State, p: Addr, refuse: set<Addr>)
  {
    if p in st.maps then
      if st.maps[p].base in refuse then st' == st
      else
        && st'.live == st.live && st'.maps == st.maps - {p} && st'.footprint + st.maps[p].len == st.footprint
        && OthersKept(st, st', {p})
    else Released(st, st', p) && st'.footprint <= st.footprint
  }

  /** What becomes of top, dv and the segments. Top is trimmed if it has grown beyond the threshold; after so many
      large chunks, segments are released; both as far as the system does not refuse. */
  ghost predicate FreedThen(st: State, st': State, p: Addr, trimCheck: nat, checks: int, checks': int,
      refuse: set<Addr>)
  {
    p in st.tags.ch &&
    var t := st.topsize + ToppedBy(st, p);
    if NextToTop(st, p) && t > trimCheck then
      && st.segs != [] && CutDown(t, st'.topsize, st.segs[0].base + st.segs[0].size, 80, refuse)
      && NoneToRelease(st'.segs, LayoutOf(st'), refuse)
    else if BinnedLarge(st, p) && checks == 1 then
      st'.topsize == st.topsize && NoneToRelease(st'.segs, LayoutOf(st'), refuse) && checks' >= 4095
    else
      && st'.topsize == t && (st'.dv, st'.dvsize) == DvAfter(st, p) && st'.segs == st.segs
      && checks' == checks - if BinnedLarge(st, p) then 1 else 0
  }

  /** `dlfree`; the system refuses to unmap at the addresses in `refuse`. */
  method Dlfree(m: MState, mem: Addr, refuse: set<Addr>) returns (ok: bool)
    requires Good(m) && (mem == 0 || (mem >= 16 && (mem - 16 in m.layout.live || mem - 16 in m.layout.maps)))
    modifies m, m.small, m.trees
    ensures ok && Good(m)
    ensures if mem == 0 then m.S() == old(m.S()) else FreedBlock(old(m.S()), m.S(), mem - 16, refuse)
    ensures mem != 0 && mem - 16 !in old(m.layout.maps) ==>
              FreedThen(old(m.S()), m.S(), mem - 16, old(m.trimCheck), old(m.releaseChecks), m.releaseChecks, refuse)
    ensures mem == 0 || mem - 16 in old(m.layout.maps) ==>
              m.segs == old(m.segs) && m.topsize == old(m.topsize) && m.dv == old(m.dv)
                && m.releaseChecks == old(m.releaseChecks)
    ensures m.footprintLimit == old(m.footprintLimit)
  {
    hide Inv, SB.BinsOK, TB.BinsOK, SB.SmallBins.Valid, TB.TreeBins.Valid, Pin, Cin, SizeOf, Inuse, IsMmapped,
      OthersKept, BlockKept, Released;
    ok := true;
    if mem != 0 {
      var p := mem - 16;
      ghost var st := m.S();
      if p in m.layout.maps {
        MappedWords(st, p);
      } else {
        BlockWords(st, p);
      }
      if m.leastAddr <= p && Inuse(m.HeadOf(p)) {
        var psize := SizeOf(m.HeadOf(p));
        if !Pin(m.HeadOf(p)) && IsMmapped(m.HeadOf(p)) {
          FreeMapped(m, p, psize, refuse);
        } else {
          FlagsSplit(m.HeadOf(p));
          ok := FreeChunk(m, p, psize, refuse);
        }
      } else {
        ok := false;
      }
    }
  }

  lemma FlagsSplit(w: nat)
    ensures IsMmapped(w) ==> !Pin(w)
  {
  }

  /** A mapped chunk is unmapped with the base and length that it was mapped with. */
  method FreeMapped(m: MState, p: Addr, size: nat, refuse: set<Addr>)
    requires Good(m) && p in m.layout.maps && size == SizeOf(m.HeadOf(p))
    modifies m`footprint, m`layout
    ensures Good(m) && FreedBlock(old(m.S()), m.S(), p, refuse)
  {
    hide Inv, SB.BinsOK, TB.BinsOK, SB.SmallBins.Valid, TB.TreeBins.Valid, Pin, Cin, SizeOf, Inuse, IsMmapped,
      BlockKept;
    ghost var st := m.S();
    MappedWords(st, p);
    var prevsize := m.W(p);
    var psize := size + prevsize + MMAP_FOOT_PAD;
    UnmapOne(st, p, {}, {});
    if p - prevsize !in refuse {
      m.footprint := m.footprint - psize;
      m.layout := m.layout.(maps := m.layout.maps - {p});
      assert m.S() == Unmapped(st, p);
      KeptButOne(st, m.S(), p);
    }
  }

  lemma KeptButOne(st: State, st': State, p: Addr)
    requires forall q | q != p :: BlockKept(st, st', q)
    ensures OthersKept(st, st', {p})
  {
    hide BlockKept;
  }

  lemma Kinds(st: State, p: Addr)
    requires p in st.tags.ch && Inv(st, {}, {})
    ensures NextToTop(st, p) ==> !BinnedLarge(st, p) && st.tags.top != 0
    ensures !NextToTop(st, p) ==> ToppedBy(st, p) == 0
  {
    hide DvTopOK, BinsMatch, SegsOK, UsedOK, MapsOK, FootprintOK, LeastOK;
    ChunkFactsAt(st, {}, {}, p);
  }

  method FreeChunk(m: MState, p: Addr, psize: nat, refuse: set<Addr>) returns (ok: bool)
    requires Good(m) && p in m.layout.live && p in m.layout.ch && m.layout.ch[p] == psize
    modifies m, m.small, m.trees
    ensures ok && Good(m) && Released(old(m.S()), m.S(), p) && m.footprint <= old(m.footprint)
    ensures FreedThen(old(m.S()), m.S(), p, old(m.trimCheck), old(m.releaseChecks), m.releaseChecks, refuse)
    ensures m.footprintLimit == old(m.footprintLimit)
  {
    hide Inv, SB.BinsOK, TB.BinsOK, SB.SmallBins.Valid, TB.TreeBins.Valid, OthersKept, BlockKept, Released, ClientsKept,
      NextToTop, NextToDv, SizeBefore, SizeBehind, ToppedBy, BinnedLarge, DvAfter, CutDown, NoneToRelease, Left,
        Trim.Cut,
      SB.SmallBins.Contents, TB.TreeBins.Contents;
    ghost var st := m.S();
    var toTop, large;
    ok, toTop, large := GiveBack(m, p, psize, {});
    assert {} - {p} == {};
    ghost var st1 := m.S();
    ClientsUnaware(st1, st1);
    Kinds(st, p);
    TopThere(st1);
    var released := 0;
    if toTop {
      if m.topsize > m.trimCheck {
        ok, released := SysTrim(m, 0, refuse);
      }
    } else if large {
      m.releaseChecks := m.releaseChecks - 1;
      if m.releaseChecks == 0 {
        ok, released := ReleaseUnusedSegments(m, refuse);
      }
    }
    ReleasedThen(st, st1, m.S(), p);
    assert m.layout == LayoutOf(m.S());
  }

  lemma TopThere(st: State)
    requires Inv(st, {}, {})
    ensures st.topsize > 0 <==> st.tags.top != 0
  {
    hide OK, BinsMatch, SegsOK, UsedOK, MapsOK, FootprintOK, LeastOK;
  }
}
