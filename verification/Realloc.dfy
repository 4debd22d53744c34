/** `try_realloc_chunk` and `dlrealloc` */
module Realloc {
  import opened Bits
  import opened Words
  import opened BoundaryTags
  import opened Retiling
  import opened HeapState
  import opened HeapSteps
  import opened HeapOps
  import opened HeapOps2
  import opened HeapBins
  import opened MallocState
  import opened HandOut
  import opened Requests
  import opened Promises
  import opened SegmentOps
  import opened SystemAlloc
  import opened Malloc
  import opened Consolidate
  import opened Dispose
  import opened Freeing
  import opened Payload
  import SB = SmallBins
  import TB = TreeBins

  function Min(a: nat, b: nat): nat
  {
    if a <= b then a else b
  }

  /** The block `p` has a new size, with its contents up to the smaller of the two; the others are as before. */
  ghost predicate InPlace(st: State, st': State, p: Addr, nb: nat)
  {
    && st'.live == st.live && st'.maps == st.maps && p in st.live && p in st.tags.ch && p in st'.tags.ch
    && nb <= st'.tags.ch[p] < nb + MIN_CHUNK_SIZE
    && SameBlock(st.tags, st'.tags, p, Min(st.tags.ch[p], st'.tags.ch[p]))
    && OthersKept(st, st', {p})
  }

  // ----- Shrinking -----

  /** A run of chunks that is to become `p`, in use, and another chunk or none. */
  ghost predicate Room(st: State, k: nat, p: Addr, b: Addr, X: set<Addr>, L: set<Addr>, Y: set<Addr>)
  {
    && (p in st.live || p in Y) && p in X && b in st.tags.ch && OnlyUsed(st, X, p) && st.tags.top !in X && L <= X
    && Taken(st, k, p, b, X) && Inv(st, L, Y)
  }

  /** A chunk in use by itself */
  lemma RoomAlone(st: State, p: Addr, Y: set<Addr>) returns (k: nat)
    requires (p in st.live || p in Y) && p in st.tags.ch && Inv(st, {}, Y)
    ensures Room(st, k, p, p + st.tags.ch[p], {p}, {}, Y) && st.dv !in {p}
    ensures p % 16 == 0 && st.tags.ch[p] % 16 == 0
  {
    hide Inv, Taken, Pin;
    NextChunk(st, p, {}, Y);
    UsedAvailable(st, {}, Y, p);
    k := TakeOne(st, {}, Y, p);
  }

  /** A block with the free chunk behind it, dv or out of its bin */
  lemma RoomNext(st: State, p: Addr, n: Addr, L: set<Addr>) returns (k: nat)
    requires p in st.live && p in st.tags.ch && n == p + st.tags.ch[p] && n in st.tags.ch && n !in st.tags.used
    requires n != st.tags.top
    requires (if n == st.dv then L == {} else L == {n}) && Inv(st, L, {})
    ensures Room(st, k, p, n + st.tags.ch[n], {p, n}, L, {}) && st.tags.ch[n] % 16 == 0
    ensures st.tags.ch[n] >= MIN_CHUNK_SIZE && p != st.dv
    ensures n + st.tags.ch[n] in st.tags.used && p % 16 == 0 && st.tags.ch[p] % 16 == 0
  {
    hide Inv, Taken, Pin, Cin, SizeOf;
    NextChunk(st, p, L, {});
    UsedAvailable(st, L, {}, p);
    FreeAvailable(st, L, {}, n);
    AfterFree(st, L, {}, n);
    ChunkFactsAt(st, L, {}, n);
    k := TakeOne(st, L, {}, p);
    TakeNext(st, L, {}, k, p, n, {p});
    assert {p} + {n} == {p, n};
  }

  lemma RoomInv(st: State, k: nat, p: Addr, b: Addr, X: set<Addr>, L: set<Addr>, Y: set<Addr>)
    requires Room(st, k, p, b, X, L, Y)
    ensures Inv(st, L, Y) && p in st.tags.ch && p < b && p % 16 == 0 && b % 16 == 0 && X <= st.tags.ch.Keys
  {
    hide Inv, InSeg, Records;
    RegionOf(st.tags, p, b, X);
  }

  lemma RegionOf(h: Tags, p: Addr, b: Addr, X: set<Addr>)
    requires Region(h, p, b, X)
    ensures p in h.ch && p < b && p % 16 == 0 && b % 16 == 0 && X <= h.ch.Keys
  {
  }

  /** The run becomes `p` with `nb` bytes and a remainder in use for the allocator. */
  method CutAt(m: MState, p: Addr, nb: nat, rsize: nat, ghost k: nat, ghost X: set<Addr>, ghost L: set<Addr>,
      ghost Y: set<Addr>)
    requires m.Valid() && Room(m.S(), k, p, p + nb + rsize, X, L, Y) && m.dv !in X
    requires nb % 16 == 0 && nb >= MIN_CHUNK_SIZE && rsize % 16 == 0 && rsize >= MIN_CHUNK_SIZE
    modifies m`mem, m`layout
    ensures m.Valid() && Inv(m.S(), {}, Y + {p + nb}) && p in m.layout.ch && m.layout.ch[p] == nb
    ensures p + nb in m.layout.ch && m.layout.ch[p + nb] == rsize
    ensures m.layout.live == old(m.layout.live) && m.layout.maps == old(m.layout.maps) && p + nb !in m.layout.maps
    ensures forall n: nat | n <= nb :: SameBlock(old(m.H()), m.H(), p, n)
    ensures (p + nb in old(m.layout.ch) ==> p + nb in X)
    ensures forall q | q != p :: BlockKept(old(m.S()), m.S(), q)
  {
    hide Inv, SB.BinsOK, TB.BinsOK, SB.SmallBins.Valid, TB.TreeBins.Valid, Taken, BlockKept, Pin, SizeOf, Cin, SetInuse,
      SameBlock;
    ghost var st := m.S();
    RoomInv(st, k, p, p + nb + rsize, X, L, Y);
    NewPlace(st, k, p, p + nb, p + nb + rsize, X, L, Y);
    CutUsed(st, k, p, p + nb, p + nb + rsize, X, L, Y, Cut(st, p, p + nb, p + nb + rsize, X));
    assert L - X == {};
    WriteCut(m, p, nb, rsize, X);
    NotMapped(m.S(), {}, Y + {p + nb}, p + nb);
  }

  /** `set_inuse(m, p, nb); set_inuse(m, r, rsize)` */
  method WriteCut(m: MState, p: Addr, nb: nat, rsize: nat, ghost X: set<Addr>)
    requires nb % 16 == 0 && rsize % 16 == 0 && nb >= MIN_CHUNK_SIZE && rsize >= MIN_CHUNK_SIZE
    modifies m`mem, m`layout
    ensures m.S() == Cut(old(m.S()), p, p + nb, p + nb + rsize, X)
  {
    hide SB.SmallBins.Contents, TB.TreeBins.Contents, SetInuse, CutMem;
    ghost var g := Cut(m.S(), p, p + nb, p + nb + rsize, X);
    CutMemIs(m.H(), p, nb, rsize);
    m.mem := SetInuse(SetInuse(m.mem, p, nb), p + nb, rsize);
    m.layout := LayoutOf(g);
  }

  lemma CutMemIs(h: Tags, p: Addr, nb: nat, rsize: nat)
    requires nb % 16 == 0 && rsize % 16 == 0 && nb >= MIN_CHUNK_SIZE && rsize >= MIN_CHUNK_SIZE
    ensures CutMem(h, p, p + nb, p + nb + rsize) == SetInuse(SetInuse(h.mem, p, nb), p + nb, rsize)
  {
    hide SizeOf, Cin;
    var r: Addr := p + nb;
    var m1: Mem := SetInuse(h.mem, p, nb);
    assert Pin(WordAt(m1, r + 8)) && WordAt(m1, r + rsize + 8) == h.HeadOf(r + rsize);
    assert r - p == nb && r + rsize - r == rsize;
    assert SetInuse(m1, r, rsize) == m1[r + 8 := Head(rsize, true, true)][r + rsize + 8 := SetPin(h.HeadOf(r + rsize))];
  }

  /** Already big enough: what is left over, if worth it, is given back. */
  method Shrink(m: MState, p: Addr, oldsize: nat, nb: nat) returns (ok: bool)
    requires Good(m) && p in m.layout.live && p in m.layout.ch && m.layout.ch[p] == oldsize
    requires nb % 16 == 0 && nb >= MIN_CHUNK_SIZE && nb <= oldsize
    modifies m`mem, m`top, m`topsize, m`dv, m`dvsize, m`layout, m.small, m.trees
    ensures ok && Good(m) && InPlace(old(m.S()), m.S(), p, nb)
  {
    hide Inv, SB.BinsOK, TB.BinsOK, SB.SmallBins.Valid, TB.TreeBins.Valid, BlockKept, SameBlock, OthersKept;
    ghost var st := m.S();
    ok := true;
    var rsize := oldsize - nb;
    if rsize >= MIN_CHUNK_SIZE {
      ghost var k := RoomAlone(st, p, {});
      ok := CutAndReturn(m, p, nb, rsize, k, {p}, {});
    } else {
      Untouched(st, p);
    }
  }

  lemma Untouched(st: State, p: Addr)
    requires p in st.tags.ch
    ensures SameBlock(st.tags, st.tags, p, st.tags.ch[p]) && OthersKept(st, st, {p})
  {
  }

  /** The run becomes the block `p` of `nb` bytes, and a remainder that is given back. */
  method CutAndReturn(m: MState, p: Addr, nb: nat, rsize: nat, ghost k: nat, ghost X: set<Addr>, ghost L: set<Addr>)
    returns (ok: bool)
    requires m.Valid() && Room(m.S(), k, p, p + nb + rsize, X, L, {}) && m.dv !in X && p in m.layout.live
    requires nb % 16 == 0 && nb >= MIN_CHUNK_SIZE && rsize % 16 == 0 && rsize >= MIN_CHUNK_SIZE
    modifies m`mem, m`top, m`topsize, m`dv, m`dvsize, m`layout, m.small, m.trees
    ensures ok && Good(m) && InPlace(old(m.S()), m.S(), p, nb)
  {
    hide Inv, SB.BinsOK, TB.BinsOK, SB.SmallBins.Valid, TB.TreeBins.Valid, BlockKept, SameBlock, OthersKept, Taken,
      Released;
    ghost var st := m.S();
    RoomInv(st, k, p, p + nb + rsize, X, L, {});
    var r := p + nb;
    CutAt(m, p, nb, rsize, k, X, L, {});
    ghost var st1 := m.S();
    assert {} + {r} == {r};
    RestDead(st, st1, k, p, r, p + nb + rsize, X, L);
    var toTop, large;
    ok, toTop, large := GiveBack(m, r, rsize, {r});
    assert {r} - {r} == {};
    CutThenBack(st, st1, m.S(), p, r, nb);
  }

  /** The remainder is no client's. */
  lemma RestDead(st: State, st1: State, k: nat, p: Addr, r: Addr, b: Addr, X: set<Addr>, L: set<Addr>)
    requires Room(st, k, p, b, X, L, {}) && p < r && (r in st.tags.ch ==> r in X) && st1.live == st.live
    ensures r !in st1.live
  {
    hide OK, DvTopOK, BinsMatch, SegsOK, MapsOK, FootprintOK, LeastOK, Taken, Records;
    if r in st.live {
      UsedOnce(st, L, {}, r);
    }
  }

  lemma CutThenBack(st: State, st1: State, st2: State, p: Addr, r: Addr, nb: nat)
    requires p in st.live && p in st.tags.ch && st1.live == st.live && st1.maps == st.maps && p in st1.tags.ch
    requires st1.tags.ch[p] == nb
    requires SameBlock(st.tags, st1.tags, p, Min(st.tags.ch[p], nb)) && (forall q | q != p :: BlockKept(st, st1, q))
    requires r != p
    requires Released(st1, st2, r) && r !in st1.live && r !in st1.maps
    ensures InPlace(st, st2, p, nb)
  {
    hide BlockKept;
    KeptTrans(st, st1, st2, p, r);
    assert BlockKept(st1, st2, p);
    SameThrough(st, st1, st2, p, nb);
  }

  lemma SameThrough(st: State, st1: State, st2: State, p: Addr, nb: nat)
    requires p in st1.live && p in st1.tags.ch && st1.tags.ch[p] == nb && p in st.tags.ch
    requires SameBlock(st.tags, st1.tags, p, Min(st.tags.ch[p], nb))
    requires BlockKept(st1, st2, p)
    ensures p in st2.tags.ch && st2.tags.ch[p] == nb && SameBlock(st.tags, st2.tags, p, Min(st.tags.ch[p], nb))
  {
  }

  lemma KeptTrans(st: State, st1: State, st2: State, p: Addr, r: Addr)
    requires (forall q | q != p :: BlockKept(st, st1, q)) && OthersKept(st1, st2, {r}) && r !in st1.live
    requires r !in st1.maps
    requires st1.live == st.live && st1.maps == st.maps && st2.live == st1.live - {r} && st2.maps == st1.maps
    ensures st2.live == st.live && st2.maps == st.maps && OthersKept(st, st2, {p})
  {
    hide BlockKept;
    forall q | q != p ensures BlockKept(st, st2, q) {
      if q == r {
        NotABlock(st, st2, {}, {}, q);
      } else {
        assert BlockKept(st1, st2, q);
        KeptOne(st, st1, st2, q);
      }
    }
  }

  // ----- Growing -----

  /** From a step that keeps the block's old contents and all other blocks */
  lemma Enlarged(st: State, st': State, p: Addr, nb: nat)
    requires p in st.live && p in st.tags.ch && st'.live == st.live && st'.maps == st.maps && p in st'.tags.ch
    requires st.tags.ch[p] <= nb <= st'.tags.ch[p] < nb + MIN_CHUNK_SIZE
    requires SameBlock(st.tags, st'.tags, p, st.tags.ch[p])
    requires forall q | q != p :: BlockKept(st, st', q)
    ensures InPlace(st, st', p, nb)
  {
    hide BlockKept, SameBlock;
  }

  function TopTaken(st: State, p: Addr, nb: nat): State
    requires st.tags.top in st.tags.ch && p + nb <= st.tags.top + st.topsize && nb % 16 == 0
    requires (st.tags.top + st.topsize - (p + nb)) % 16 == 0
  {
    GrownTop(st, p, p + nb, st.tags.top + st.topsize, {p, st.tags.top})
  }

  lemma GrowsIntoTop(st: State, p: Addr, nb: nat)
    requires p in st.live && p in st.tags.ch && p + st.tags.ch[p] == st.tags.top && st.topsize > 0
    requires nb % 16 == 0 && st.tags.ch[p] < nb < st.tags.ch[p] + st.topsize && Inv(st, {}, {})
    ensures st.tags.top in st.tags.ch && (st.tags.top + st.topsize - (p + nb)) % 16 == 0
    ensures Inv(TopTaken(st, p, nb), {}, {}) && InPlace(st, TopTaken(st, p, nb), p, nb)
  {
    hide Inv, BlockKept, OthersKept, Taken, InPlace;
    NextChunk(st, p, {}, {});
    TopWord(st);
    DvNeverTop(st, {}, {});
    UsedAvailable(st, {}, {}, p);
    FreeAvailable(st, {}, {}, st.tags.top);
    var k := TakeOne(st, {}, {}, p);
    TakeNext(st, {}, {}, k, p, st.tags.top, {p});
    var X := {p, st.tags.top};
    assert {p} + {st.tags.top} == X;
    GrowIntoTop(st, k, p, p + nb, st.tags.top + st.topsize, X, {}, {}, TopTaken(st, p, nb));
    assert {} - X == {};
    hide SameBlock;
    Enlarged(st, TopTaken(st, p, nb), p, nb);
  }

  /** `extend into top` */
  method ExtendIntoTop(m: MState, p: Addr, oldsize: nat, nb: nat)
    requires Good(m) && p in m.layout.live && p in m.layout.ch && m.layout.ch[p] == oldsize && p + oldsize == m.top
    requires nb % 16 == 0 && nb >= MIN_CHUNK_SIZE && oldsize < nb < oldsize + m.topsize
    modifies m`mem, m`top, m`topsize, m`layout
    ensures Good(m) && InPlace(old(m.S()), m.S(), p, nb)
  {
    hide Inv, SB.BinsOK, TB.BinsOK, SB.SmallBins.Valid, TB.TreeBins.Valid, InPlace, TopTaken, SB.SmallBins.Contents,
      TB.TreeBins.Contents;
    ghost var st := m.S();
    GrowsIntoTop(st, p, nb);
    assert (oldsize + m.topsize) % 16 == 0 by {
      NextChunk(st, p, {}, {});
      TopWord(st);
    }
    WriteTop(m, p, oldsize, nb);
  }

  method WriteTop(m: MState, p: Addr, oldsize: nat, nb: nat)
    requires p + oldsize == m.top && nb % 16 == 0 && 0 < nb <= oldsize + m.topsize && (oldsize + m.topsize) % 16 == 0
    requires m.top in m.layout.ch
    modifies m`mem, m`top, m`topsize, m`layout
    ensures (old(m.top + m.topsize) - (p + nb)) % 16 == 0 && m.S() == TopTaken(old(m.S()), p, nb)
  {
    hide SB.SmallBins.Contents, TB.TreeBins.Contents, SetInuse;
    ghost var g := GrownTop(m.S(), p, p + nb, m.top + m.topsize, {p, m.top});
    GrownTopMem(m.H(), p, nb, oldsize + m.topsize - nb);
    var newsize := oldsize + m.topsize;
    var newtopsize := newsize - nb;
    var newtop := p + nb;
    m.mem := SetInuse(m.mem, p, nb)[newtop + 8 := Head(newtopsize, false, true)];
    m.top := newtop;
    m.topsize := newtopsize;
    m.layout := LayoutOf(g);
  }

  lemma GrownTopMem(h: Tags, p: Addr, nb: nat, s: nat)
    requires nb % 16 == 0 && s % 16 == 0 && nb > 0
    ensures SetInuse(h.mem, p, nb)[p + nb + 8 := Head(s, false, true)]
            == h.mem[p + 8 := Head(nb, true, Pin(h.HeadOf(p)))][p + nb + 8 := Head(s, false, true)]
  {
    hide Pin, SizeOf, Cin;
  }

  /** The block takes over the chunk behind it, dv or out of its bin, as a whole. */
  lemma TakeOver(st0: State, st: State, p: Addr, n: Addr, s: nat, nb: nat, k: nat, L: set<Addr>)
    requires p in st.live && p in st.tags.ch && n == p + st.tags.ch[p] && s % 16 == 0 && n + MIN_CHUNK_SIZE <= p + s
    requires st.tags.ch[p] >= MIN_CHUNK_SIZE
    requires st.tags.ch[p] < nb <= s < nb + MIN_CHUNK_SIZE && Room(st, k, p, p + s, {p, n}, L, {})
    requires st0.tags == st.tags && st0.live == st.live && st0.maps == st.maps
    ensures Inv(Grown(st, p, p + s, {p, n}, p), {}, {}) && InPlace(st0, Grown(st, p, p + s, {p, n}, p), p, nb)
  {
    hide Inv, BlockKept, OthersKept, Taken, GrownMem, InPlace;
    var X, g := {p, n}, Grown(st, p, p + s, {p, n}, p);
    GrowWhole(st, k, p, p + s, X, p, L, {}, g);
    assert L - X == {};
    KeptUnbinned(st0, st, g, p);
    hide SameBlock;
    Enlarged(st0, g, p, nb);
  }

  method ExtendWhole(m: MState, p: Addr, oldsize: nat, n: Addr, nsize: nat, nb: nat, ghost k: nat, ghost L: set<Addr>,
      ghost st0: State)
    requires m.Valid() && Room(m.S(), k, p, n + nsize, {p, n}, L, {}) && p in m.layout.live && p in m.layout.ch
    requires m.layout.ch[p] == oldsize
    requires n == p + oldsize && nsize % 16 == 0 && oldsize % 16 == 0 && oldsize >= MIN_CHUNK_SIZE
    requires nsize >= MIN_CHUNK_SIZE
    requires oldsize < nb <= oldsize + nsize < nb + MIN_CHUNK_SIZE && p != m.dv
    requires st0.tags == m.S().tags && st0.live == m.S().live && st0.maps == m.S().maps
    modifies m`mem, m`dv, m`dvsize, m`layout
    ensures Good(m) && InPlace(st0, m.S(), p, nb)
  {
    hide Inv, SB.BinsOK, TB.BinsOK, SB.SmallBins.Valid, TB.TreeBins.Valid, Room, InPlace, Grown;
    TakeOver(st0, m.S(), p, n, oldsize + nsize, nb, k, L);
    WriteWhole(m, p, oldsize + nsize, n);
  }

  method WriteWhole(m: MState, p: Addr, newsize: nat, n: Addr)
    requires newsize % 16 == 0 && newsize > 0 && p != m.dv
    modifies m`mem, m`dv, m`dvsize, m`layout
    ensures m.S() == Grown(old(m.S()), p, p + newsize, {p, n}, p)
  {
    hide SB.SmallBins.Contents, TB.TreeBins.Contents, SetInuse, GrownMem;
    ghost var g := Grown(m.S(), p, p + newsize, {p, n}, p);
    GrownMemIs(m.H(), p, newsize);
    m.mem := SetInuse(m.mem, p, newsize);
    if n == m.dv {
      m.dvsize := 0;
      m.dv := 0;
    }
    m.layout := LayoutOf(g);
  }

  lemma GrownMemIs(h: Tags, p: Addr, s: nat)
    requires s % 16 == 0 && s > 0
    ensures GrownMem(h, p, p + s) == SetInuse(h.mem, p, s)
  {
    hide Pin, SizeOf, Cin;
    assert p + s - p == s;
  }

  /** `extend into dv` */
  method ExtendIntoDv(m: MState, p: Addr, oldsize: nat, nb: nat)
    requires Good(m) && p in m.layout.live && p in m.layout.ch && m.layout.ch[p] == oldsize && p + oldsize == m.dv
    requires m.dv != m.top
    requires nb % 16 == 0 && nb >= MIN_CHUNK_SIZE && oldsize < nb <= oldsize + m.dvsize
    modifies m`mem, m`dv, m`dvsize, m`layout
    ensures Good(m) && InPlace(old(m.S()), m.S(), p, nb)
  {
    hide Inv, SB.BinsOK, TB.BinsOK, SB.SmallBins.Valid, TB.TreeBins.Valid, BlockKept, SameBlock, OthersKept, Taken,
      InPlace;
    ghost var st := m.S();
    NextChunk(st, p, {}, {});
    DvWord(st, {}, {});
    DvNeverTop(st, {}, {});
    ghost var k := RoomNext(st, p, m.dv, {});
    var dvs := m.dvsize;
    var dsize := oldsize + dvs - nb;
    if dsize >= MIN_CHUNK_SIZE {
      MoveDv(m, p, oldsize, nb, k);
    } else {
      ExtendWhole(m, p, oldsize, m.dv, dvs, nb, k, {}, st);
    }
  }

  method MoveDv(m: MState, p: Addr, oldsize: nat, nb: nat, ghost k: nat)
    requires m.Valid() && p in m.layout.live && p in m.layout.ch && m.layout.ch[p] == oldsize && p + oldsize == m.dv
    requires m.dv in m.layout.ch
    requires m.layout.ch[m.dv] == m.dvsize && m.dv + m.dvsize in m.layout.used && oldsize % 16 == 0
    requires m.dvsize % 16 == 0
    requires nb % 16 == 0 && nb >= MIN_CHUNK_SIZE && oldsize < nb && nb + MIN_CHUNK_SIZE <= oldsize + m.dvsize
    requires Room(m.S(), k, p, m.dv + m.dvsize, {p, m.dv}, {}, {})
    modifies m`mem, m`dv, m`dvsize, m`layout
    ensures Good(m) && InPlace(old(m.S()), m.S(), p, nb)
  {
    hide Inv, SB.BinsOK, TB.BinsOK, SB.SmallBins.Valid, TB.TreeBins.Valid, BlockKept, SameBlock, OthersKept, Taken,
      SetInuse, ClearPin, SetSizeAndPinuseOfFree;
    ghost var st := m.S();
    ghost var X, b := {p, m.dv}, m.dv + m.dvsize;
    RoomInv(st, k, p, b, X, {}, {});
    ghost var g := GrownDv(st, p, p + nb, b, X);
    GrowIntoDv(st, k, p, p + nb, b, X, {}, {}, g);
    assert {} - X == {};
    var dsize := oldsize + m.dvsize - nb;
    WriteDv(m, p, nb, dsize, X);
    Enlarged(st, m.S(), p, nb);
  }

  method WriteDv(m: MState, p: Addr, nb: nat, dsize: nat, ghost X: set<Addr>)
    requires nb % 16 == 0 && dsize % 16 == 0 && nb >= MIN_CHUNK_SIZE && dsize >= MIN_CHUNK_SIZE
    modifies m`mem, m`dv, m`dvsize, m`layout
    ensures m.S() == GrownDv(old(m.S()), p, p + nb, p + nb + dsize, X)
  {
    hide SB.SmallBins.Contents, TB.TreeBins.Contents, SetInuse, ClearPin, SetSizeAndPinuseOfFree;
    ghost var g := GrownDv(m.S(), p, p + nb, p + nb + dsize, X);
    GrownDvMem(m.H(), p, nb, dsize);
    var r := p + nb;
    var n := r + dsize;
    var mem1 := SetSizeAndPinuseOfFree(SetInuse(m.mem, p, nb), r, dsize);
    m.mem := mem1[n + 8 := ClearPin(WordAt(mem1, n + 8))];
    m.dvsize := dsize;
    m.dv := r;
    m.layout := LayoutOf(g);
  }

  lemma GrownDvMem(h: Tags, p: Addr, nb: nat, s: nat)
    requires nb % 16 == 0 && s % 16 == 0 && nb >= MIN_CHUNK_SIZE && s >= MIN_CHUNK_SIZE
    ensures var r, b := p + nb, p + nb + s;
            var mem1 := SetSizeAndPinuseOfFree(SetInuse(h.mem, p, nb), r, s);
            mem1[b + 8 := ClearPin(WordAt(mem1, b + 8))]
            == h.mem[p + 8 := Head(nb, true, Pin(h.HeadOf(p)))][r + 8 := Head(s, false, true)][b := s]
              [b + 8 := ClearPin(h.HeadOf(b))]
  {
    hide Pin, SizeOf, Cin, ClearPin, SetPin;
    var r, b := p + nb, p + nb + s;
    var mem1 := SetSizeAndPinuseOfFree(SetInuse(h.mem, p, nb), r, s);
    assert WordAt(mem1, b + 8) == h.HeadOf(b);
  }

  /** `extend into next free chunk` */
  method ExtendIntoFree(m: MState, p: Addr, oldsize: nat, nb: nat, n: Addr) returns (ok: bool)
    requires Good(m) && p in m.layout.live && p in m.layout.ch && m.layout.ch[p] == oldsize && n == p + oldsize
    requires n in m.layout.ch
    requires n !in m.layout.used && n != m.dv && n != m.top
    requires nb % 16 == 0 && nb >= MIN_CHUNK_SIZE && oldsize < nb <= oldsize + m.layout.ch[n]
    modifies m`mem, m`top, m`topsize, m`dv, m`dvsize, m`layout, m.small, m.trees
    ensures ok && Good(m) && InPlace(old(m.S()), m.S(), p, nb)
  {
    hide Inv, SB.BinsOK, TB.BinsOK, SB.SmallBins.Valid, TB.TreeBins.Valid, BlockKept, SameBlock, OthersKept, Taken,
      InPlace, SizeOf, Cin, Pin, Room, InBins;
    ghost var st := m.S();
    NextBinned(st, n);
    var nextsize := SizeOf(m.HeadOf(n));
    var rsize := oldsize + nextsize - nb;
    ok := UnlinkChunk(m, n, nextsize, {}, {});
    ghost var st1 := m.S();
    assert {} + {n} == {n};
    ghost var k := RoomNext(st1, p, n, {n});
    DvWord(st1, {n}, {});
    NextChunk(st1, p, {n}, {});
    if rsize < MIN_CHUNK_SIZE {
      ExtendWhole(m, p, oldsize, n, nextsize, nb, k, {n}, st);
    } else {
      ok := CutAndReturn(m, p, nb, rsize, k, {p, n}, {n});
      InPlaceFrom(st, st1, m.S(), p, nb);
    }
  }

  lemma NextBinned(st: State, n: Addr)
    requires n in st.tags.ch && n !in st.tags.used && n != st.dv && n != st.tags.top && Inv(st, {}, {})
    ensures InBins(st, n) && SizeOf(st.tags.HeadOf(n)) == st.tags.ch[n] && st.tags.ch[n] % 16 == 0
  {
    hide SegsOK, MapsOK, FootprintOK, LeastOK, UsedOK, DvTopOK, SizeOf, Pin, Cin, OK, NextOK, PrevOK;
    ChunkFactsAt(st, {}, {}, n);
    assert IsFree(st.tags, st.dv, n);
  }

  lemma InPlaceFrom(st: State, st1: State, st2: State, p: Addr, nb: nat)
    requires st1.tags == st.tags && st1.live == st.live && st1.maps == st.maps && InPlace(st1, st2, p, nb)
    ensures InPlace(st, st2, p, nb)
  {
    hide BlockKept, SameBlock;
    forall q | q != p ensures BlockKept(st1, st2, q) {
    }
    KeptUnbinned(st, st1, st2, p);
  }

  // ----- try_realloc_chunk -----

  /** Where a mapped chunk stays as it is: it is large enough, and not too large. */
  predicate Stays(st: State, p: Addr, nb: nat)
  {
    nb >= TreeIndex.MIN_LARGE_SIZE && nb + 8 <= st.tags.HeadOf(p) <= nb + 2 * GRANULARITY
  }

  /** Where a block can be resized without moving: it is large enough, or it is with the free memory right behind
      it, of which top has to keep some. */
  ghost predicate FitsInPlace(st: State, p: Addr, nb: nat)
  {
    if p in st.maps then Stays(st, p, nb) else
    p in st.tags.ch &&
    var n := p + st.tags.ch[p];
    || nb <= st.tags.ch[p]
    || (n in st.tags.ch && n !in st.tags.used && if n == st.tags.top then nb < st.tags.ch[p] + st.tags.ch[n]
       else nb <= st.tags.ch[p] + st.tags.ch[n])
  }

  /** The words that tell whether there is room behind a block */
  lemma RoomWords(st: State, p: Addr, nb: nat)
    requires p in st.live && p !in st.maps && p in st.tags.ch && st.tags.ch[p] < nb && p + st.tags.ch[p] in st.tags.ch
    requires Inv(st, {}, {})
    ensures var s, n := st.tags.ch[p], p + st.tags.ch[p];
            FitsInPlace(st, p, nb) <==>
                if n == st.tags.top then s + st.topsize > nb else if n == st.dv then s + st.dvsize >= nb
                                        else n !in st.tags.used && s + st.tags.ch[n] >= nb
  {
    hide OK, BinsMatch, SegsOK, UsedOK, MapsOK, FootprintOK, LeastOK;
    NoNullChunk(st.tags);
    TopFree(st, {}, {});
  }

  /** `mmap_resize`: a mapped chunk stays if it is big enough but not too big; there is no mremap. */
  method MmapResize(m: MState, oldp: Addr, nb: nat) returns (newp: Addr)
    requires Good(m) && oldp in m.layout.maps
    ensures newp == 0 || newp == oldp
    ensures newp != 0 <==> Stays(m.S(), oldp, nb)
    ensures newp != 0 ==> nb + 8 <= m.HeadOf(oldp)
  {
    hide Inv, SB.BinsOK, TB.BinsOK, SB.SmallBins.Valid, TB.TreeBins.Valid, SizeOf, Pin, Cin;
    MappedWords(m.S(), oldp);
    var oldsize := SizeOf(m.HeadOf(oldp));
    if nb < TreeIndex.MIN_LARGE_SIZE {
      newp := 0;
    } else if oldsize >= nb + 8 && oldsize - nb <= 2 * GRANULARITY {
      newp := oldp;
    } else {
      newp := 0;
    }
  }

  /** `try_realloc_chunk`: the chunk `p` again, or 0 */
  method TryRealloc(m: MState, p: Addr, nb: nat) returns (ok: bool, newp: Addr)
    requires Good(m) && (p in m.layout.live || p in m.layout.maps) && nb % 16 == 0 && nb >= MIN_CHUNK_SIZE
    modifies m`mem, m`top, m`topsize, m`dv, m`dvsize, m`layout, m.small, m.trees
    ensures ok && Good(m) && newp == (if FitsInPlace(old(m.S()), p, nb) then p else 0)
    ensures newp == 0 || p in old(m.layout.maps) ==> m.S() == old(m.S())
    ensures newp != 0 ==> if p in old(m.layout.maps) then nb + 8 <= m.HeadOf(p) else InPlace(old(m.S()), m.S(), p, nb)
  {
    hide Inv, SB.BinsOK, TB.BinsOK, SB.SmallBins.Valid, TB.TreeBins.Valid, SizeOf, Pin, Cin, Inuse, IsMmapped, InPlace,
      Stays;
    ghost var st := m.S();
    ok, newp := true, 0;
    NextWords(st, p);
    if p !in st.maps && st.tags.ch[p] < nb {
      RoomWords(st, p, nb);
    }
    var oldsize := SizeOf(m.HeadOf(p));
    var next := p + oldsize;
    if m.leastAddr <= p && Inuse(m.HeadOf(p)) && p < next && Pin(m.HeadOf(next)) {
      if IsMmapped(m.HeadOf(p)) {
        newp := MmapResize(m, p, nb);
      } else if oldsize >= nb {
        ok := Shrink(m, p, oldsize, nb);
        newp := p;
      } else if next == m.top {
        if oldsize + m.topsize > nb {
          ExtendIntoTop(m, p, oldsize, nb);
          newp := p;
        }
      } else if next == m.dv {
        if oldsize + m.dvsize >= nb {
          ExtendIntoDv(m, p, oldsize, nb);
          newp := p;
        }
      } else if !Cin(m.HeadOf(next)) {
        var nextsize := SizeOf(m.HeadOf(next));
        if oldsize + nextsize >= nb {
          ok := ExtendIntoFree(m, p, oldsize, nb, next);
          newp := p;
        }
      }
    } else {
      ok := false;
    }
  }

  /** What the checks see of a block that its client owns. */
  lemma NextWords(st: State, p: Addr)
    requires (p in st.live || p in st.maps) && Inv(st, {}, {})
    ensures st.least <= p && p > 0 && Inuse(st.tags.HeadOf(p)) && SizeOf(st.tags.HeadOf(p)) > 0
    ensures var n := p + SizeOf(st.tags.HeadOf(p));
            Pin(st.tags.HeadOf(n)) && (IsMmapped(st.tags.HeadOf(p)) <==> p in st.maps)
    ensures p !in st.maps ==>
              var n := p + SizeOf(st.tags.HeadOf(p));
              && p in st.tags.ch && st.tags.ch[p] == SizeOf(st.tags.HeadOf(p)) && n in st.tags.ch
                 && (Cin(st.tags.HeadOf(n)) <==> n in st.tags.used)
              && SizeOf(st.tags.HeadOf(n)) == st.tags.ch[n] && p !in st.maps && p in st.live
  {
    hide DvTopOK, BinsMatch, SegsOK, FootprintOK, MapsOK, UsedOK, OK, Cin, Pin, SizeOf, Inuse, IsMmapped, NextOK,
      PrevOK;
    if p in st.maps {
      MappedWords(st, p);
      MapWords(st, p);
      FencePinned();
    } else {
      BlockWords(st, p);
      NextChunk(st, p, {}, {});
      ChunkFactsAt(st, {}, {}, p + st.tags.ch[p]);
    }
  }

  lemma FencePinned()
    ensures Pin(FENCEPOST_HEAD)
  {
  }

  // ----- dlrealloc -----

  /** Bytes that the client may use: `chunksize(p) - overhead_for(p)` */
  function Usable(st: State, p: Addr): nat
  {
    if UsableEnd(st, p) >= 16 then UsableEnd(st, p) - 16 else 0
  }

  /** The first `k` bytes of a word; the byte at the word's own address is the lowest. */
  function FirstBytes(v: nat, k: nat): nat
  {
    v % Pow2(8 * k)
  }

  function OtherBytes(v: nat, k: nat): nat
  {
    Shr(v, 8 * k)
  }

  /** The word `v` with its first `k` bytes taken from `w` */
  function Spliced(v: nat, w: nat, k: nat): (r: nat)
    ensures FirstBytes(r, k) == FirstBytes(w, k) && OtherBytes(r, k) == OtherBytes(v, k)
  {
    var d := Pow2(8 * k);
    MulMono(0, OtherBytes(v, k), d);
    Euclid(w, d);
    DivUnique(OtherBytes(v, k) * d + FirstBytes(w, k), d, OtherBytes(v, k), FirstBytes(w, k));
    OtherBytes(v, k) * d + FirstBytes(w, k)
  }

  /** The first `n` bytes of block `q` are what those of block `p` were. */
  ghost predicate SameContents(st: State, p: Addr, st': State, q: Addr, n: nat)
  {
    forall j: nat | j < n && j % 8 == 0 :: SameBytesAt(st.tags.W(p + 16 + j), st'.tags.W(q + 16 + j), n - j)
  }

  /** The first eight bytes of both are the same, or the first `k` if that is less. */
  predicate SameBytesAt(v: nat, v': nat, k: nat)
  {
    if k >= 8 then v' == v else FirstBytes(v', k) == FirstBytes(v, k)
  }

  /** Besides the first `n` bytes of block `q`, nothing in memory is different. */
  ghost predicate RestKept(st: State, st': State, q: Addr, n: nat)
  {
    && (forall w: Addr {:trigger st'.tags.W(w)} | w < q + 16 || q + 16 + n <= w :: st'.tags.W(w) == st.tags.W(w))
    && var last := q + 16 + (n - n % 8); OtherBytes(st'.tags.W(last), n % 8) == OtherBytes(st.tags.W(last), n % 8)
  }

  /** `memcpy`, word by word, a last partial one by its bytes */
  method CopyBytes(m: MState, q: Addr, p: Addr, n: nat)
    requires Good(m) && p != q && (p in m.layout.live || p in m.layout.maps)
    requires (q in m.layout.live || q in m.layout.maps)
    requires n <= Usable(m.S(), p) && n <= Usable(m.S(), q)
    modifies m`mem
    ensures Good(m) && (forall r | r != q :: BlockKept(old(m.S()), m.S(), r))
    ensures SameContents(old(m.S()), p, m.S(), q, n)
    ensures RestKept(old(m.S()), m.S(), q, n) && UsableEnd(m.S(), q) == UsableEnd(old(m.S()), q)
  {
    hide Inv, SB.BinsOK, TB.BinsOK, SB.SmallBins.Valid, TB.TreeBins.Valid, BlockKept, UsableEnd, Spliced, SameContents,
      RestKept;
    ghost var st := m.S();
    CopyStart(st, p, q, n);
    var i := 0;
    while i < n
      invariant i % 8 == 0 && Good(m) && (forall r | r != q :: BlockKept(st, m.S(), r))
      invariant UsableEnd(m.S(), q) == UsableEnd(st, q)
      invariant SameContents(st, p, m.S(), q, Min(i, n)) && RestKept(st, m.S(), q, Min(i, n))
      decreases n - i
    {
      ghost var st1 := m.S();
      SourceKept(st, st1, p, i);
      assert InPayload(st1, q, q + 16 + i);
      var v := m.W(p + 16 + i);
      if n - i < 8 {
        v := Spliced(m.W(q + 16 + i), v, n - i);
      }
      Store(m, q + 16 + i, v, q);
      KeptBoth(st, st1, m.S(), q);
      CopyStep(st, st1, m.S(), p, q, i, n);
      i := i + 8;
    }
  }

  lemma CopyStart(st: State, p: Addr, q: Addr, n: nat)
    ensures SameContents(st, p, st, q, 0) && RestKept(st, st, q, 0) && forall r | r != q :: BlockKept(st, st, r)
  {
    BinsUnseen(st, st);
  }

  lemma KeptBoth(st0: State, st1: State, st2: State, p: Addr)
    requires (forall q | q != p :: BlockKept(st0, st1, q)) && (forall q | q != p :: BlockKept(st1, st2, q))
    ensures forall q | q != p :: BlockKept(st0, st2, q)
  {
    hide BlockKept;
    forall q | q != p ensures BlockKept(st0, st2, q) {
      KeptOne(st0, st1, st2, q);
    }
  }

  lemma SourceKept(st: State, st': State, p: Addr, j: nat)
    requires BlockKept(st, st', p) && (p in st.live || p in st.maps) && j < Usable(st, p) && Inv(st, {}, {})
    ensures st'.tags.W(p + 16 + j) == st.tags.W(p + 16 + j)
  {
    hide DvTopOK, BinsMatch, SegsOK, FootprintOK, MapsOK, UsedOK, OK, LeastOK;
    if p in st.maps {
      MappedWords(st, p);
      MapWords(st, p);
    } else {
      NextChunk(st, p, {}, {});
    }
  }

  lemma CopyStep(st: State, st1: State, st2: State, p: Addr, q: Addr, i: nat, n: nat)
    requires i % 8 == 0 && i < n && SameContents(st, p, st1, q, i) && RestKept(st, st1, q, i)
    requires st2 == Stored(st1, q + 16 + i, var v := st.tags.W(p + 16 + i);
                           if n - i < 8 then Spliced(st1.tags.W(q + 16 + i), v, n - i) else v)
    ensures SameContents(st, p, st2, q, Min(i + 8, n)) && RestKept(st, st2, q, Min(i + 8, n))
    ensures UsableEnd(st2, q) == UsableEnd(st1, q)
  {
    hide Spliced, FirstBytes, OtherBytes;
    var c, w := Min(i + 8, n), q + 16 + i;
    assert st1.tags.W(w) == st.tags.W(w);
    assert if n - i < 8 then c - c % 8 == i else c % 8 == 0;
    assert RestKept(st, st2, q, c) by {
      forall a: Addr | a < q + 16 || q + 16 + c <= a ensures st2.tags.W(a) == st.tags.W(a) {
        assert st2.tags.W(a) == st1.tags.W(a);
      }
    }
    forall j: nat | j < c && j % 8 == 0 ensures SameBytesAt(st.tags.W(p + 16 + j), st2.tags.W(q + 16 + j), c - j) {
      assert j < i || j == i;
      if j < i {
        assert SameBytesAt(st.tags.W(p + 16 + j), st1.tags.W(q + 16 + j), i - j);
      }
    }
  }

  /** The contents of the old block are in a new one, and the old one is freed. */
  ghost predicate MovedTo(st: State, st': State, p: Addr, q: Addr, bytes: nat, refuse: set<Addr>)
  {
    && q !in st.live && q !in st.maps && (q in st'.live || q in st'.maps) && bytes <= Usable(st', q)
    && st'.live + st'.maps.Keys == (st.live + st.maps.Keys + {q})
       - (if p in st.maps && st.maps[p].base in refuse then {} else {p})
    && SameContents(st, p, st', q, Min(Usable(st, p), bytes))
    && OthersKept(st, st', {p, q})
  }

  lemma GrantedFacts(st: State, st': State, q: Addr, nb: nat)
    requires Granted(st, st', q, nb) && Inv(st', {}, {})
    ensures q !in st.live && q !in st.maps && (q in st'.live || q in st'.maps) && OthersKept(st, st', {q})
    ensures nb <= Usable(st', q) + 8 && st'.live + st'.maps.Keys == st.live + st.maps.Keys + {q}
    ensures st.live <= st'.live && st'.maps.Keys <= st.maps.Keys + {q}
    ensures forall p | p in st.maps :: p in st'.maps && st'.maps[p] == st.maps[p]
  {
    hide DvTopOK, BinsMatch, SegsOK, FootprintOK, MapsOK, UsedOK, OK, LeastOK, OthersKept;
    if HandedOut(st, st', q, nb) {
      NotMapped(st', {}, {}, q);
    } else {
      MappedWords(st', q);
    }
  }

  /** The usable size of a block that was kept is what it was. */
  lemma UsableKept(st: State, st': State, p: Addr)
    requires BlockKept(st, st', p) && (p in st.live || p in st.maps) && Inv(st, {}, {}) && Inv(st', {}, {})
    ensures UsableEnd(st', p) == UsableEnd(st, p)
  {
    hide DvTopOK, BinsMatch, SegsOK, FootprintOK, MapsOK, UsedOK, OK, LeastOK;
    if p in st.maps {
      MappedWords(st, p);
      MapWords(st, p);
    } else {
      NextChunk(st, p, {}, {});
      NotMapped(st', {}, {}, p);
    }
  }

  lemma ContentsKept(st: State, p: Addr, st1: State, st2: State, q: Addr, n: nat)
    requires SameContents(st, p, st1, q, n) && BlockKept(st1, st2, q) && (q in st1.live || q in st1.maps)
    requires n <= Usable(st1, q)
    requires Inv(st1, {}, {})
    ensures SameContents(st, p, st2, q, n)
  {
    hide Inv;
    forall j: nat | j < n && j % 8 == 0 ensures SameBytesAt(st.tags.W(p + 16 + j), st2.tags.W(q + 16 + j), n - j) {
      assert SameBytesAt(st.tags.W(p + 16 + j), st1.tags.W(q + 16 + j), n - j);
      SourceKept(st1, st2, q, j);
    }
  }

  lemma ContentsOf(st: State, st1: State, p: Addr, st2: State, q: Addr, n: nat)
    requires BlockKept(st, st1, p) && (p in st.live || p in st.maps) && n <= Usable(st, p)
    requires SameContents(st1, p, st2, q, n) && Inv(st, {}, {})
    ensures SameContents(st, p, st2, q, n)
  {
    hide Inv;
    forall j: nat | j < n && j % 8 == 0 ensures SameBytesAt(st.tags.W(p + 16 + j), st2.tags.W(q + 16 + j), n - j) {
      assert SameBytesAt(st1.tags.W(p + 16 + j), st2.tags.W(q + 16 + j), n - j);
      SourceKept(st, st1, p, j);
    }
  }

  /** Allocate, copy and free */
  lemma MoveSteps(st: State, st1: State, st2: State, st3: State, p: Addr, q: Addr, bytes: nat, refuse: set<Addr>)
    requires (p in st.live || p in st.maps) && Granted(st, st1, q, RequestSize(bytes)) && bytes < MAX_REQUEST
    requires st2.live == st1.live && st2.maps == st1.maps
    requires (forall r | r != q :: BlockKept(st1, st2, r)) && UsableEnd(st2, q) == UsableEnd(st1, q)
    requires SameContents(st1, p, st2, q, Min(Usable(st1, p), bytes)) && FreedBlock(st2, st3, p, refuse)
    requires Inv(st, {}, {}) && Inv(st1, {}, {}) && Inv(st2, {}, {}) && Inv(st3, {}, {})
    ensures MovedTo(st, st3, p, q, bytes, refuse)
  {
    hide Inv, BlockKept, Granted, UsableEnd, SameContents, FreedBlock;
    RequestFits(bytes);
    GrantedFacts(st, st1, q, RequestSize(bytes));
    assert BlockKept(st, st1, p);
    UsableKept(st, st1, p);
    FreedOthers(st2, st3, p, refuse);
    assert BlockKept(st2, st3, q);
    UsableKept(st2, st3, q);
    var n := Min(Usable(st, p), bytes);
    ContentsOf(st, st1, p, st2, q, n);
    ContentsKept(st, p, st2, st3, q, n);
    forall r | r !in {p, q} ensures BlockKept(st, st3, r) {
      KeptOne(st, st1, st2, r);
      KeptOne(st, st2, st3, r);
    }
    KeptMember(st2, st3, q, p);
  }

  lemma KeptMember(st: State, st': State, q: Addr, p: Addr)
    requires BlockKept(st, st', q) && (q in st.live || q in st.maps) && Inv(st, {}, {})
    ensures q in st'.live || q in st'.maps
  {
    hide DvTopOK, BinsMatch, SegsOK, FootprintOK, MapsOK, UsedOK, OK, LeastOK;
    if q in st.live {
      NextChunk(st, q, {}, {});
    }
  }

  lemma FreedOthers(st: State, st': State, p: Addr, refuse: set<Addr>)
    requires FreedBlock(st, st', p, refuse) && (p in st.live || p in st.maps) && Inv(st, {}, {})
    ensures forall q | q != p :: BlockKept(st, st', q)
    ensures st'.live + st'.maps.Keys == (st.live + st.maps.Keys)
            - (if p in st.maps && st.maps[p].base in refuse then {} else {p})
  {
    hide Inv;
    BinsUnseen(st, st);
    hide BlockKept;
    if p in st.maps {
      NotBoth(st, p);
    }
  }

  /** `dlrealloc`: the address of the block's memory, or 0 */
  method Dlrealloc(m: MState, oldmem: Addr, bytes: nat, direct: Addr, mp: Addr, refuse: set<Addr>)
    returns (ok: bool, mem: Addr)
    requires Good(m) && bytes < WORD_MODULUS
    requires (oldmem == 0 || (oldmem >= 16 && (oldmem - 16 in m.layout.live || oldmem - 16 in m.layout.maps)))
    requires Answer(m.S(), direct, MmapSize(ChunkSizeFor(bytes))) && Answer(m.S(), mp, SegmentSize(ChunkSizeFor(bytes)))
    modifies m, m.small, m.trees
    ensures ok && Good(m)
    ensures Reallocated(old(m.S()), m.S(), old(m.footprintLimit), bytes, direct, mp, oldmem, mem)
    ensures mem != 0 ==> mem >= 16 && bytes < MAX_REQUEST
    ensures oldmem != 0 && bytes < MAX_REQUEST ==>
              (mem == oldmem <==> FitsInPlace(old(m.S()), oldmem - 16, RequestSize(bytes)))
    ensures mem != 0 && oldmem == 0 ==> Granted(old(m.S()), m.S(), mem - 16, RequestSize(bytes))
    ensures mem != 0 && mem == oldmem ==>
              if oldmem - 16 in old(m.layout.maps) then m.S() == old(m.S()) && bytes + 16 <= m.HeadOf(oldmem - 16)
                                          else InPlace(old(m.S()), m.S(), oldmem - 16, RequestSize(bytes))
    ensures mem != 0 && oldmem != 0 && mem != oldmem ==>
              MovedTo(old(m.S()), m.S(), oldmem - 16, mem - 16, bytes, refuse)
  {
    hide Inv, SB.BinsOK, TB.BinsOK, SB.SmallBins.Valid, TB.TreeBins.Valid, Answer, AlignUp, InPlace, FitsInPlace,
      Allocated, Reallocated, RoomInPlace, Granted, MovedTo, FreedBlock, BlockKept, SameContents, UsableEnd,
      MmapSize, SegmentSize, ChunkSizeFor, SB.SmallBins.Contents, TB.TreeBins.Contents;
    ghost var st, limit := m.S(), m.footprintLimit;
    ok, mem := true, 0;
    if oldmem == 0 {
      ok, mem := Dlmalloc(m, bytes, direct, mp);
      AsMalloc(st, m.S(), limit, bytes, direct, mp, mem);
    } else if bytes < MAX_REQUEST {
      RequestFits(bytes);
      var nb := RequestSize(bytes);
      var oldp := oldmem - 16;
      OwnedAligned(st, oldp);
      PaddedRoom(st, oldp, bytes);
      var newp;
      ok, newp := TryRealloc(m, oldp, nb);
      if newp != 0 {
        mem := newp + 16;
        Stayed(st, m.S(), limit, bytes, direct, mp, oldp);
      } else {
        ok, mem := Dlmalloc(m, bytes, direct, mp);
        if mem != 0 {
          ok := MoveBlock(m, oldp, mem - 16, bytes, refuse, st);
          Moved(st, m.S(), limit, bytes, direct, mp, oldp, mem - 16, refuse);
        } else {
          Kept(st, limit, bytes, direct, mp, oldp);
        }
      }
    } else {
      NeverMoved(st, limit, bytes, direct, mp, oldmem);
    }
  }

  /** Room in place, in padded sizes and in bytes */
  lemma PaddedRoom(st: State, p: Addr, bytes: nat)
    requires bytes < MAX_REQUEST && (p in st.live || p in st.maps) && Inv(st, {}, {})
    ensures FitsInPlace(st, p, RequestSize(bytes)) <==> RoomInPlace(st, p, bytes)
  {
    hide Inv, RequestSize;
    RequestFits(bytes);
    if p in st.maps {
      PaddedStays(st, p, bytes);
    } else {
      NextChunk(st, p, {}, {});
      FreeSizes(st);
      var s, n := st.tags.ch[p], p + st.tags.ch[p];
      PaddedFits(bytes, s);
      if n in st.tags.ch && n !in st.tags.used {
        if n == st.tags.top {
          TopSize(st);
          PaddedFits(bytes, s + st.topsize);
        } else {
          PaddedFits(bytes, s + st.tags.ch[n]);
        }
      }
    }
  }

  lemma TopSize(st: State)
    requires st.tags.top in st.tags.ch && Inv(st, {}, {})
    ensures st.tags.ch[st.tags.top] == st.topsize
  {
    hide OK, BinsMatch, SegsOK, UsedOK, MapsOK, FootprintOK, LeastOK;
    NoNullChunk(st.tags);
  }

  lemma PaddedStays(st: State, p: Addr, bytes: nat)
    requires bytes < MAX_REQUEST && p in st.maps && Inv(st, {}, {})
    ensures Stays(st, p, RequestSize(bytes)) <==> RoomInPlace(st, p, bytes)
  {
    hide Inv, RequestSize;
    RequestFits(bytes);
    MappedWords(st, p);
    PaddedMap(st, p);
    var h := st.tags.HeadOf(p);
    PaddedFits(bytes, h - 16);
    if h >= 131072 + 32 {
      PaddedFits(bytes, h - 131072);
    }
    PaddedFits(bytes, 240);
  }

  /** A mapped chunk is a large one, and its size a multiple of 16. */
  lemma PaddedMap(st: State, p: Addr)
    requires p in st.maps && Inv(st, {}, {})
    ensures st.tags.HeadOf(p) % 16 == 0 && st.tags.HeadOf(p) >= TreeIndex.MIN_LARGE_SIZE
  {
    hide OK, DvTopOK, BinsMatch, SegsOK, UsedOK, FootprintOK, LeastOK;
    MapWords(st, p);
    PageAligned(st.maps[p].base);
    PageAligned(st.maps[p].len);
    Multiples(st.maps[p].base, p, st.maps[p].len);
  }

  lemma AsMalloc(st: State, st': State, limit: nat, bytes: nat, direct: Addr, mp: Addr, mem: Addr)
    requires Allocated(st, st', limit, bytes, direct, mp, mem)
    ensures Reallocated(st, st', limit, bytes, direct, mp, 0, mem)
  {
    hide Choice, HeapServes, GrownBy, OwnMapping, Given;
  }

  /** Words with the same first bytes */
  lemma {:induction false} BytesOf(v: nat, v': nat, k: nat, i: nat)
    requires FirstBytes(v, k) == FirstBytes(v', k) && i < k
    ensures ByteOf(v, i) == ByteOf(v', i)
    decreases k
  {
    LowByte(v, k);
    LowByte(v', k);
    if i > 0 {
      BytesOf(v / 256, v' / 256, k - 1, i - 1);
    }
  }

  lemma LowByte(v: nat, k: nat)
    requires k > 0
    ensures FirstBytes(v, k) % 256 == v % 256 && FirstBytes(v, k) / 256 == FirstBytes(v / 256, k - 1)
  {
    var d, q := Pow2(8 * (k - 1)), v / 256;
    EightMore(8 * (k - 1));
    Euclid(q, d);
    var r := q % d * 256 + v % 256;
    assert v == q / d * (256 * d) + r by {
      assert q == q / d * d + q % d;
      Regroup(q / d, d);
    }
    DivUnique(v, 256 * d, q / d, r);
  }

  lemma Regroup(a: int, d: nat)
    ensures a * d * 256 == a * (256 * d)
  {
  }

  lemma EightMore(n: nat)
    ensures Pow2(n + 8) == 256 * Pow2(n)
  {
    Pow2Add(n, 8);
    assert Pow2(4) == 16 && Pow2(8) == 256;
  }

  /** What was copied, byte by byte */
  lemma BytesMoved(st: State, st': State, p: Addr, q: Addr, bytes: nat)
    requires SameContents(st, p, st', q, Min(Usable(st, p), bytes)) && p % 16 == 0 && q % 16 == 0
    ensures KeepsBytes(st, st', p + 16, q + 16, bytes)
  {
    hide SameContents, FirstBytes, ByteOf;
    var from, to := p + 16, q + 16;
    forall j: nat | j < bytes && Within(st, p, j) ensures SameByte(st, st', from, to, j) {
      var n, w := Min(Usable(st, p), bytes), j - j % 8;
      assert j < n;
      WordOf(p + 16, j);
      WordOf(q + 16, j);
      AtWord(st, p, st', q, n, w);
      if n - w < 8 {
        BytesOf(st.tags.W(p + 16 + w), st'.tags.W(q + 16 + w), n - w, j % 8);
      }
    }
  }

  lemma AtWord(st: State, p: Addr, st': State, q: Addr, n: nat, w: nat)
    requires SameContents(st, p, st', q, n) && w < n && w % 8 == 0
    ensures SameBytesAt(st.tags.W(p + 16 + w), st'.tags.W(q + 16 + w), n - w)
  {
  }

  lemma WordOf(mem: Addr, j: nat)
    requires mem % 16 == 0
    ensures var a, w := mem + j, j - j % 8; a % 8 == j % 8 && a - a % 8 == mem + w && w % 8 == 0 && w >= 0
  {
  }

  /** What stayed where it was */
  lemma BytesStayed(st: State, st': State, p: Addr, bytes: nat)
    requires p % 16 == 0 && bytes < MAX_REQUEST
    requires if p in st.maps then st' == st else InPlace(st, st', p, RequestSize(bytes))
    ensures KeepsBytes(st, st', p + 16, p + 16, bytes)
  {
    hide OthersKept, ByteOf, RequestSize;
    RequestFits(bytes);
    var mem := p + 16;
    forall j: nat | j < bytes && Within(st, p, j) ensures SameByte(st, st', mem, mem, j) {
      WordOf(p + 16, j);
      var w := p + 16 + (j - j % 8);
      assert p !in st.maps ==> st'.tags.W(w) == st.tags.W(w);
    }
  }

  lemma Stayed(st: State, st': State, limit: nat, bytes: nat, direct: Addr, mp: Addr, p: Addr)
    requires bytes < MAX_REQUEST && RoomInPlace(st, p, bytes) && Inv(st', {}, {})
    requires if p in st.maps then st' == st && RequestSize(bytes) + 8 <= st.tags.HeadOf(p)
             else InPlace(st, st', p, RequestSize(bytes))
    requires p % 16 == 0
    ensures Reallocated(st, st', limit, bytes, direct, mp, p + 16, p + 16)
  {
    hide Inv, HeapServes, OwnMapping, Given, RequestSize, OthersKept, KeepsBytes;
    RequestFits(bytes);
    BytesStayed(st, st', p, bytes);
  }

  lemma Moved(st: State, st': State, limit: nat, bytes: nat, direct: Addr, mp: Addr, p: Addr, q: Addr,
      refuse: set<Addr>)
    requires bytes < MAX_REQUEST && !RoomInPlace(st, p, bytes) && MovedTo(st, st', p, q, bytes, refuse) && p != q
    requires Inv(st', {}, {}) && p % 16 == 0
    ensures Reallocated(st, st', limit, bytes, direct, mp, p + 16, q + 16)
  {
    hide Inv, HeapServes, OwnMapping, Given, RoomInPlace, OthersKept, SameContents, KeepsBytes;
    OwnedAligned(st', q);
    BytesMoved(st, st', p, q, bytes);
    if q in st'.maps {
      PaddedMap(st', q);
    } else {
      NextChunk(st', q, {}, {});
    }
  }

  lemma Kept(st: State, limit: nat, bytes: nat, direct: Addr, mp: Addr, p: Addr)
    requires bytes < MAX_REQUEST && !RoomInPlace(st, p, bytes) && Allocated(st, st, limit, bytes, direct, mp, 0)
    ensures Reallocated(st, st, limit, bytes, direct, mp, p + 16, 0)
  {
    hide HeapServes, OwnMapping, Given, RoomInPlace, Choice;
  }

  lemma NeverMoved(st: State, limit: nat, bytes: nat, direct: Addr, mp: Addr, oldmem: Addr)
    requires bytes >= MAX_REQUEST && oldmem >= 16
    ensures Reallocated(st, st, limit, bytes, direct, mp, oldmem, 0)
  {
    hide HeapServes, OwnMapping, Given, RoomInPlace, Choice;
  }

  lemma OwnedAligned(st: State, p: Addr)
    requires (p in st.live || p in st.maps) && Inv(st, {}, {})
    ensures p > 0 && p % 16 == 0
  {
    hide DvTopOK, BinsMatch, SegsOK, FootprintOK, MapsOK, UsedOK, OK, LeastOK;
    NextWords(st, p);
    if p in st.maps {
      MapWords(st, p);
    } else {
      NextChunk(st, p, {}, {});
    }
  }

  /** The contents go to the new block, and the old one is freed. */
  method MoveBlock(m: MState, p: Addr, q: Addr, bytes: nat, refuse: set<Addr>, ghost st: State) returns (ok: bool)
    requires Good(m) && (p in st.live || p in st.maps) && bytes < MAX_REQUEST
    requires Granted(st, m.S(), q, RequestSize(bytes)) && Inv(st, {}, {})
    modifies m, m.small, m.trees
    ensures ok && Good(m) && MovedTo(st, m.S(), p, q, bytes, refuse) && p != q
  {
    hide Inv, SB.BinsOK, TB.BinsOK, SB.SmallBins.Valid, TB.TreeBins.Valid, InPlace, Granted, MovedTo, FreedBlock,
      BlockKept, SameContents, UsableEnd, SizeOf, IsMmapped;
    ghost var st1 := m.S();
    RequestFits(bytes);
    GrantedFacts(st, st1, q, RequestSize(bytes));
    OldSize(st1, p);
    var oc := SizeOf(m.HeadOf(p)) - (if IsMmapped(m.HeadOf(p)) then 16 else 8);
    CopyBytes(m, q, p, if oc < bytes then oc else bytes);
    ghost var st2 := m.S();
    OwnedAligned(st2, p);
    ok := Dlfree(m, p + 16, refuse);
    MoveSteps(st, st1, st2, m.S(), p, q, bytes, refuse);
  }

  lemma OldSize(st: State, p: Addr)
    requires (p in st.live || p in st.maps) && Inv(st, {}, {})
    ensures SizeOf(st.tags.HeadOf(p)) >= 16
    ensures SizeOf(st.tags.HeadOf(p)) - (if IsMmapped(st.tags.HeadOf(p)) then 16 else 8) == Usable(st, p)
  {
    hide DvTopOK, BinsMatch, SegsOK, FootprintOK, MapsOK, UsedOK, OK, LeastOK, SizeOf, IsMmapped;
    NextWords(st, p);
    if p in st.maps {
      MappedWords(st, p);
      MapWords(st, p);
    } else {
      NextChunk(st, p, {}, {});
    }
  }
}
