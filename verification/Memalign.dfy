/** `internal_memalign` */
module Memalign {
  import opened Words
  import opened BoundaryTags
  import opened HeapState
  import opened HeapSteps
  import opened HeapOps
  import opened HeapOps2
  import opened MallocState
  import opened HandOut
  import opened Requests
  import opened Promises
  import opened SegmentOps
  import opened SystemAlloc
  import opened Malloc
  import opened Consolidate
  import opened Dispose
  import opened Freeing
  import opened Realloc
  import Bits
  import A = Alignment
  import TreeIndex
  import SB = SmallBins
  import TB = TreeBins

  // ----- The leader goes back -----

  /** The client's block is now at `r`, and the chunk `p` before it is in use for the allocator. */
  function Relabelled(st: State, p: Addr, r: Addr): State
  {
    st.(live := st.live - {p} + {r})
  }

  lemma Relabel(st: State, p: Addr, r: Addr)
    requires p in st.live && r != p && Inv(st, {}, {r})
    ensures Inv(Relabelled(st, p, r), {}, {p}) && forall q | q != p && q != r :: BlockKept(st, Relabelled(st, p, r), q)
  {
    hide OK, DvTopOK, BinsMatch, SegsOK, FootprintOK, MapOK, MapApart, LeastOK, Records;
    var st' := Relabelled(st, p, r);
    assert BinsMatch(st', {}) by {
      SameBins(st, st', {});
    }
    MapsLike(st, st');
    assert DvTopOK(st') && FootprintOK(st') && LeastOK(st') by {
      SameNumbers(st, st');
    }
  }

  lemma MapsLike(st: State, st': State)
    requires MapsOK(st) && st'.tags == st.tags && st'.segs == st.segs && st'.maps == st.maps
    ensures MapsOK(st')
  {
    hide MapsOK, MapOK, MapApart;
    forall q | q in st'.maps ensures MapOK(st'.tags, q, st'.maps[q]) {
      MapWords(st, q);
    }
    forall q, r | q in st'.maps && r in st'.maps && q != r
      ensures MapApart(st'.maps[q], st'.maps[r].base, st'.maps[r].len) {
      MapPair(st, q, r);
    }
    forall q, k: nat | q in st'.maps && k < |st'.segs|
      ensures MapApart(st'.maps[q], st'.segs[k].base, st'.segs[k].size) {
      MapSeg(st, q, k);
    }
    AssembleMaps(st');
  }

  lemma SameNumbers(st: State, st': State)
    requires st' == st.(live := st'.live) && DvTopOK(st) && FootprintOK(st) && LeastOK(st)
    ensures DvTopOK(st') && FootprintOK(st') && LeastOK(st')
  {
  }

  lemma LeaderMem(h: Tags, p: Addr, lead: nat, s: nat)
    requires lead % 16 == 0 && s % 16 == 0 && lead >= MIN_CHUNK_SIZE && s >= MIN_CHUNK_SIZE
    ensures CutMem(h, p, p + lead, p + lead + s) == SetInuse(SetInuse(h.mem, p + lead, s), p, lead)
  {
    hide SizeOf, Cin;
    var r: Addr := p + lead;
    var m1: Mem := SetInuse(h.mem, r, s);
    assert WordAt(m1, p + 8) == h.HeadOf(p) && WordAt(m1, r + 8) == Head(s, true, Pin(h.HeadOf(r)));
    PinTwice(s, Pin(h.HeadOf(r)));
    assert r - p == lead && r + s - r == s;
    assert SetInuse(m1, p, lead) == m1[p + 8 := Head(lead, true, Pin(h.HeadOf(p)))][r + 8 := Head(s, true, true)];
  }

  lemma PinTwice(s: nat, b: bool)
    requires s % 16 == 0
    ensures SetPin(Head(s, true, b)) == Head(s, true, true)
  {
  }

  /** `set_inuse(m, newp, newsize); set_inuse(m, p, leadsize)` */
  method WriteLeader(m: MState, p: Addr, lead: nat, newsize: nat)
    requires lead % 16 == 0 && newsize % 16 == 0 && lead >= MIN_CHUNK_SIZE && newsize >= MIN_CHUNK_SIZE
    modifies m`mem, m`layout
    ensures m.S() == Led(old(m.S()), p, lead, newsize)
  {
    hide SB.SmallBins.Contents, TB.TreeBins.Contents, SetInuse, CutMem;
    ghost var g := Led(m.S(), p, lead, newsize);
    LeaderMem(m.H(), p, lead, newsize);
    m.mem := SetInuse(SetInuse(m.mem, p + lead, newsize), p, lead);
    m.layout := LayoutOf(g);
  }

  /** The state once `p` has been cut, and the second part is the client's. */
  function Led(st: State, p: Addr, lead: nat, newsize: nat): State
    requires lead % 16 == 0 && newsize % 16 == 0
  {
    Relabelled(Cut(st, p, p + lead, p + lead + newsize, {p}), p, p + lead)
  }

  lemma LeaderStep(st: State, p: Addr, lead: nat, newsize: nat)
    requires p in st.live && p in st.tags.ch && st.tags.ch[p] == lead + newsize
    requires lead % 16 == 0 && newsize % 16 == 0 && lead >= MIN_CHUNK_SIZE && newsize >= MIN_CHUNK_SIZE
    requires Inv(st, {}, {})
    ensures Inv(Led(st, p, lead, newsize), {}, {p})
    ensures forall q | q != p && q != p + lead :: BlockKept(st, Led(st, p, lead, newsize), q)
    ensures var st' := Led(st, p, lead, newsize);
            && p !in st'.live && p !in st'.maps && p in st'.tags.ch && st'.tags.ch[p] == lead
            && p + lead in st'.tags.ch && st'.tags.ch[p + lead] == newsize && p + lead in st'.live
    ensures p + lead !in st.live && p + lead !in st.maps
  {
    hide Inv, BlockKept, Taken, CutMem;
    var r := p + lead;
    var k := RoomAlone(st, p, {});
    RoomInv(st, k, p, r + newsize, {p}, {}, {});
    NewPlace(st, k, p, r, r + newsize, {p}, {}, {});
    var st1 := Cut(st, p, r, r + newsize, {p});
    CutUsed(st, k, p, r, r + newsize, {p}, {}, {}, st1);
    assert {} - {p} == {} && {} + {r} == {r};
    Relabel(st1, p, r);
    NotMapped(st1, {}, {r}, r);
    NotMapped(st1, {}, {r}, p);
    forall q | q != p && q != r ensures BlockKept(st, Relabelled(st1, p, r), q) {
      KeptOne(st, st1, Relabelled(st1, p, r), q);
    }
  }

  /** `Otherwise, give back leader, use the rest` */
  method GiveLeader(m: MState, p: Addr, lead: nat, newsize: nat) returns (ok: bool)
    requires Good(m) && p in m.layout.live && p in m.layout.ch && m.layout.ch[p] == lead + newsize
    requires lead % 16 == 0 && newsize % 16 == 0 && lead >= MIN_CHUNK_SIZE && newsize >= MIN_CHUNK_SIZE
    modifies m`mem, m`top, m`topsize, m`dv, m`dvsize, m`layout, m.small, m.trees
    ensures ok && Good(m) && m.layout.live == old(m.layout.live) - {p} + {p + lead}
    ensures m.layout.maps == old(m.layout.maps)
    ensures p + lead !in old(m.layout.live) && p + lead !in old(m.layout.maps)
    ensures p + lead in m.layout.ch && m.layout.ch[p + lead] == newsize
    ensures forall q | q != p && q != p + lead :: BlockKept(old(m.S()), m.S(), q)
  {
    hide Inv, SB.BinsOK, TB.BinsOK, SB.SmallBins.Valid, TB.TreeBins.Valid, BlockKept, CutMem, Released, OthersKept;
    ghost var st := m.S();
    LeaderStep(st, p, lead, newsize);
    WriteLeader(m, p, lead, newsize);
    ghost var st1 := m.S();
    var toTop, large;
    ok, toTop, large := GiveBack(m, p, lead, {p});
    assert {p} - {p} == {};
    LeaderGone(st, st1, m.S(), p, p + lead, newsize);
  }

  lemma LeaderGone(st: State, st1: State, st2: State, p: Addr, r: Addr, newsize: nat)
    requires Released(st1, st2, p) && r != p && r in st1.live && r in st1.tags.ch && st1.tags.ch[r] == newsize
    requires p !in st1.live
    requires forall q | q != p && q != r :: BlockKept(st, st1, q)
    ensures r in st2.tags.ch && st2.tags.ch[r] == newsize && st2.live == st1.live && st2.maps == st1.maps
    ensures forall q | q != p && q != r :: BlockKept(st, st2, q)
  {
    assert BlockKept(st1, st2, r);
    hide BlockKept;
    forall q | q != p && q != r ensures BlockKept(st, st2, q) {
      assert BlockKept(st1, st2, q);
      KeptOne(st, st1, st2, q);
    }
  }

  // ----- internal_memalign -----

  /** What memalign gives: a block with no more than a minimal chunk to spare, or a mapped one. */
  ghost predicate AlignedOut(st: State, st': State, p: Addr, nb: nat)
  {
    && p > 0 && p !in st.live && p !in st.maps && OthersKept(st, st', {p})
    && ((st'.live == st.live + {p} && st'.maps == st.maps && p in st'.tags.ch
       && nb <= st'.tags.ch[p] <= nb + MIN_CHUNK_SIZE)
        || (st'.live == st.live && p in st'.maps && st'.maps == st.maps[p := st'.maps[p]]
           && nb + 16 <= st'.tags.HeadOf(p)))
  }

  /** What is asked of malloc: enough for the worst leader */
  function AskFor(a: nat, bytes: nat): nat
  {
    RequestSize(bytes) + a + MIN_CHUNK_SIZE - 8
  }

  lemma AskFits(a: nat, bytes: nat)
    requires 32 <= a <= 0x8000_0000_0000_0000 && a % 16 == 0 && bytes < MAX_REQUEST - a
    ensures AskFor(a, bytes) == RequestSize(bytes) + a + MIN_CHUNK_SIZE - 8 < WORD_MODULUS
    ensures (AskFor(a, bytes) < MAX_REQUEST ==>
              RequestSize(AskFor(a, bytes)) >= RequestSize(bytes) + a + MIN_CHUNK_SIZE)
    ensures RequestSize(bytes) % 16 == 0 && RequestSize(bytes) >= MIN_CHUNK_SIZE
  {
    RequestFits(bytes);
    if AskFor(a, bytes) < MAX_REQUEST {
      RequestFits(AskFor(a, bytes));
    }
  }

  /** The chunk of memory lies below the end of the address space. */
  lemma BelowEnd(st: State, p: Addr)
    requires p in st.live && p in st.tags.ch && Inv(st, {}, {})
    ensures p + st.tags.ch[p] + 32 <= WORD_MODULUS && p % 16 == 0 && st.tags.ch[p] % 16 == 0 && p > 0
  {
    hide OK, DvTopOK, BinsMatch, FootprintOK, MapsOK, UsedOK, LeastOK, InSomeSeg, SegsOK;
    NextChunk(st, p, {}, {});
    var k := SegOf(st.tags, st.segs, p);
    SegBelow(st.tags, st.segs, k);
  }

  lemma SegBelow(h: Tags, segs: seq<Segment>, k: nat)
    requires SegsOK(h, segs) && k < |segs|
    ensures segs[k].base + segs[k].size <= WORD_MODULUS
  {
    hide InSomeSeg;
    assert SegOK(h, segs, k);
  }

  /** The aligned spot leaves a chunk before it and enough behind it. */
  lemma SpotRoom(p: Addr, size: nat, nb: nat, a: nat, k: nat)
    requires 5 <= k <= 63 && a == Bits.Pow2(k) && p % 16 == 0 && size % 16 == 0 && nb % 16 == 0
    requires size >= nb + a + MIN_CHUNK_SIZE
    requires A.BitAnd(p + 16, a - 1) != 0 && p + size + 32 <= WORD_MODULUS
    ensures a <= A.WORD_MODULUS && A.AlignedSpot(p, a) >= p + MIN_CHUNK_SIZE
    ensures var lead := A.AlignedSpot(p, a) - p; lead % 16 == 0 && lead + nb + 16 <= size && (size - lead) % 16 == 0
    ensures A.BitAnd(A.AlignedSpot(p, a) + 16, a - 1) == 0
  {
    hide A.BitAnd, A.AlignedSpot, Bits.Pow2;
    A.SpotAligned(p, a, k);
    LeadLinear(p, A.AlignedSpot(p, a), size, nb, a);
  }

  lemma LeadLinear(p: nat, pos: nat, size: nat, nb: nat, a: nat)
    requires p % 16 == 0 && pos % 16 == 0 && size % 16 == 0 && p + 32 <= pos <= p + a + 16
    requires size >= nb + a + MIN_CHUNK_SIZE
    ensures var lead := pos - p; lead % 16 == 0 && lead + nb + 16 <= size && (size - lead) % 16 == 0
  {
  }

  /** `p` is a block of its own in `st'`, with at least `n` bytes. */
  ghost predicate Placed(st: State, st': State, p: Addr, n: nat)
  {
    && st'.live == st.live + {p} && st'.maps == st.maps && p !in st.live && p !in st.maps && OthersKept(st, st', {p})
    && p in st'.tags.ch && st'.tags.ch[p] >= n
  }

  /** A block of a segment is moved up to the aligned spot. */
  method MoveUp(m: MState, p0: Addr, nb: nat, a: nat, ghost k: nat, ghost st: State) returns (ok: bool, p: Addr)
    requires Good(m) && HandedOut(st, m.S(), p0, nb + a + MIN_CHUNK_SIZE) && nb % 16 == 0 && nb >= MIN_CHUNK_SIZE
    requires 5 <= k <= 63 && a == Bits.Pow2(k)
    modifies m`mem, m`top, m`topsize, m`dv, m`dvsize, m`layout, m.small, m.trees
    ensures ok && Good(m) && A.BitAnd(p + 16, a - 1) == 0 && Placed(st, m.S(), p, nb)
  {
    hide Inv, SB.BinsOK, TB.BinsOK, SB.SmallBins.Valid, TB.TreeBins.Valid, BlockKept, OthersKept, A.AlignedSpot,
      A.BitAnd, Bits.Pow2, SizeOf;
    ok, p := true, p0;
    ghost var st1 := m.S();
    BelowEnd(st1, p0);
    BlockWords(st1, p0);
    var size := SizeOf(m.HeadOf(p0));
    if A.BitAnd(p0 + 16, a - 1) != 0 {
      SpotRoom(p0, size, nb, a, k);
      var pos := A.AlignedSpot(p0, a);
      var leadsize := pos - p0;
      var newsize := size - leadsize;
      ok := GiveLeader(m, p0, leadsize, newsize);
      p := pos;
    }
    ShiftedOut(st, st1, m.S(), p0, p, nb + a + MIN_CHUNK_SIZE);
  }

  /** `Give back spare room at the end` */
  method GiveTail(m: MState, p: Addr, nb: nat, ghost st: State) returns (ok: bool)
    requires Good(m) && Placed(st, m.S(), p, nb) && nb % 16 == 0 && nb >= MIN_CHUNK_SIZE
    modifies m`mem, m`top, m`topsize, m`dv, m`dvsize, m`layout, m.small, m.trees
    ensures ok && Good(m) && AlignedOut(st, m.S(), p, nb)
  {
    hide Inv, SB.BinsOK, TB.BinsOK, SB.SmallBins.Valid, TB.TreeBins.Valid, BlockKept, OthersKept, InPlace, SizeOf;
    ok := true;
    ghost var st2 := m.S();
    BlockWords(st2, p);
    NextChunk(st2, p, {}, {});
    var size := SizeOf(m.HeadOf(p));
    if size > nb + MIN_CHUNK_SIZE {
      ghost var room := RoomAlone(st2, p, {});
      ok := CutAndReturn(m, p, nb, size - nb, room, {p}, {});
      TailGone(st, st2, m.S(), p, nb);
    }
  }

  /** After the leader is gone, the client has the aligned block instead. */
  lemma ShiftedOut(st: State, st1: State, st2: State, p0: Addr, p: Addr, n: nat)
    requires HandedOut(st, st1, p0, n) && st2.live == st1.live - {p0} + {p} && st2.maps == st1.maps
    requires p == p0 || (p !in st1.live && p !in st1.maps)
    requires if p == p0 then st2 == st1 else forall q | q != p0 && q != p :: BlockKept(st1, st2, q)
    ensures st2.live == st.live + {p} && st2.maps == st.maps && p !in st.live && p !in st.maps
    ensures OthersKept(st, st2, {p})
  {
    hide BlockKept;
    forall q | q != p ensures BlockKept(st, st2, q) {
      if q == p0 {
        NotABlock(st, st2, {}, {}, q);
      } else {
        assert BlockKept(st, st1, q);
        if p != p0 {
          KeptOne(st, st1, st2, q);
        }
      }
    }
  }

  lemma TailGone(st: State, st2: State, st3: State, p: Addr, nb: nat)
    requires Placed(st, st2, p, nb) && InPlace(st2, st3, p, nb)
    ensures st3.live == st.live + {p} && st3.maps == st.maps && OthersKept(st, st3, {p}) && p in st3.tags.ch
    ensures nb <= st3.tags.ch[p] < nb + MIN_CHUNK_SIZE
  {
    hide BlockKept, SameBlock;
    forall q | q != p ensures BlockKept(st, st3, q) {
      assert BlockKept(st, st2, q) && BlockKept(st2, st3, q);
      KeptOne(st, st2, st3, q);
    }
  }

  // ----- Mapped chunks -----

  /** The aligned spot inside a mapped chunk leaves more than a small chunk behind it: its end is page-aligned. */
  lemma MappedRoom(p: Addr, len: nat, nb: nat, a: nat, k: nat)
    requires 5 <= k <= 63 && a == Bits.Pow2(k) && p % 4096 == 0 && len % 4096 == 0 && nb % 16 == 0
    requires nb >= MIN_CHUNK_SIZE
    requires nb + a + MIN_CHUNK_SIZE + 48 <= len && p + len <= WORD_MODULUS && len >= MMAP_THRESHOLD
    requires A.BitAnd(p + 16, a - 1) != 0
    ensures a <= A.WORD_MODULUS && A.AlignedSpot(p, a) > p
    ensures var pos := A.AlignedSpot(p, a);
            pos % 16 == 0 && pos + TreeIndex.MIN_LARGE_SIZE + MMAP_FOOT_PAD <= p + len
            && pos + nb + 16 + MMAP_FOOT_PAD <= p + len
    ensures A.BitAnd(A.AlignedSpot(p, a) + 16, a - 1) == 0
  {
    hide A.BitAnd, A.AlignedSpot, Bits.Pow2;
    PageAligned(p);
    A.SpotAligned(p, a, k);
    var pos := A.AlignedSpot(p, a);
    A.Pow2Of32(k);
    if k >= 12 {
      MaskPages(pos + 16, a, k);
      PageGap(p, len, pos + 16);
    }
  }

  lemma MaskPages(x: nat, a: nat, k: nat)
    requires a == Bits.Pow2(k) && a % 4096 == 0 && A.BitAnd(x, a - 1) == 0
    ensures x % 4096 == 0
  {
    hide A.BitAnd, Bits.Pow2;
    A.LowMask(x, k);
    PageMultiple(x, a);
  }

  lemma PageMultiple(x: nat, a: nat)
    requires a > 0 && a % 4096 == 0 && x % a == 0
    ensures x % 4096 == 0
  {
    Bits.Euclid(x, a);
    var t := a / 4096;
    Bits.MulAssoc(x / a, t, 4096);
    A.MulOf((x / a) * t, 4096);
  }

  /** Whole pages lie between a page-aligned spot and the end of the mapping. */
  lemma PageGap(p: nat, len: nat, c: nat)
    requires p % 4096 == 0 && len % 4096 == 0 && c % 4096 == 0 && p < c < p + len
    ensures c + 4096 <= p + len && c >= p + 4096
  {
  }

  /** `For mmapped chunks, just adjust offset` */
  method AlignMapped(m: MState, p0: Addr, nb: nat, need: nat, a: nat, ghost k: nat, ghost st: State) returns (p: Addr)
    requires Good(m) && MappedOut(st, m.S(), p0, need) && nb % 16 == 0 && nb >= MIN_CHUNK_SIZE
    requires need >= nb + a + MIN_CHUNK_SIZE
    requires 5 <= k <= 63 && a == Bits.Pow2(k)
    modifies m`mem, m`layout
    ensures Good(m) && A.BitAnd(p + 16, a - 1) == 0 && AlignedOut(st, m.S(), p, nb)
  {
    hide Inv, SB.BinsOK, TB.BinsOK, SB.SmallBins.Valid, TB.TreeBins.Valid, BlockKept, OthersKept, A.AlignedSpot,
      A.BitAnd, Bits.Pow2, SizeOf, IsMmapped, Inuse, Shifted;
    p := p0;
    ghost var st1 := m.S();
    MappedWords(st1, p0);
    MappedPages(st1, p0);
    if A.BitAnd(p0 + 16, a - 1) != 0 {
      MappedRoom(p0, st1.maps[p0].len, nb, a, k);
      var pos := A.AlignedSpot(p0, a);
      ShiftMapped(st1, p0, pos, {}, {});
      WriteShift(m, p0, pos);
      p := pos;
      ShiftedFacts(st1, p0, p);
      MappedWords(m.S(), p);
    }
    MappedAligned(st, st1, m.S(), p0, p, need, nb);
  }

  lemma MappedPages(st: State, p: Addr)
    requires p in st.maps && Inv(st, {}, {})
    ensures st.maps[p].base % 4096 == 0 && st.maps[p].len % 4096 == 0
    ensures st.maps[p].base + st.maps[p].len <= WORD_MODULUS
    ensures st.maps[p].base <= p && st.tags.HeadOf(p) == st.maps[p].len - (p - st.maps[p].base) - MMAP_FOOT_PAD
  {
    hide OK, DvTopOK, BinsMatch, SegsOK, UsedOK, FootprintOK, LeastOK;
    MapWords(st, p);
  }

  method WriteShift(m: MState, p: Addr, newp: Addr)
    requires p in m.layout.maps && p < newp && SizeOf(m.HeadOf(p)) == m.HeadOf(p) && newp - p <= m.HeadOf(p)
    modifies m`mem, m`layout
    ensures m.S() == Shifted(old(m.S()), p, newp)
  {
    hide SB.SmallBins.Contents, TB.TreeBins.Contents, SizeOf;
    ghost var g := Shifted(m.S(), p, newp);
    var leadsize := newp - p;
    var newsize := SizeOf(m.HeadOf(p)) - leadsize;
    m.mem := m.mem[newp := m.W(p) + leadsize][newp + 8 := newsize];
    m.layout := LayoutOf(g);
  }

  lemma ShiftedFacts(st: State, p: Addr, q: Addr)
    requires p in st.maps && p < q && q - p <= st.tags.HeadOf(p)
    ensures var st' := Shifted(st, p, q);
            st'.tags.HeadOf(q) == st.tags.HeadOf(p) - (q - p) && st'.live == st.live
              && st'.maps == (st.maps - {p})[q := st.maps[p]]
  {
  }

  lemma MappedAligned(st: State, st1: State, st2: State, p0: Addr, p: Addr, need: nat, nb: nat)
    requires MappedOut(st, st1, p0, need) && need >= nb && p > 0
    requires if p == p0 then st2 == st1
             else
               && st2.live == st1.live && p !in st1.maps && p !in st1.live
               && st2.maps == (st1.maps - {p0})[p := st1.maps[p0]]
               && nb + 16 <= st2.tags.HeadOf(p) && forall q | q != p0 && q != p :: BlockKept(st1, st2, q)
    ensures AlignedOut(st, st2, p, nb)
  {
    hide BlockKept;
    forall q | q != p ensures BlockKept(st, st2, q) {
      if q == p0 {
        NotABlock(st, st2, {}, {}, q);
      } else {
        assert BlockKept(st, st1, q);
        if p != p0 {
          KeptOne(st, st1, st2, q);
        }
      }
    }
    assert st2.maps == st.maps[p := st2.maps[p]];
  }

  /** `internal_memalign`: the address of the block's memory, or 0. `a`, a power of two, is the alignment that it
      works with. */
  method InternalMemalign(m: MState, alignment: nat, bytes: nat, direct: Addr, mp: Addr)
    returns (ok: bool, mem: Addr, a: nat, ghost k: nat)
    requires Good(m) && bytes < WORD_MODULUS && alignment <= 0x8000_0000_0000_0000
    requires forall b: nat, j: nat {:trigger A.LeastPower(b, j, alignment)} | A.LeastPower(b, j, alignment)
             && bytes < MAX_REQUEST - b ::
               AskFor(b, bytes) < WORD_MODULUS ==>
               Answer(m.S(), direct, MmapSize(ChunkSizeFor(AskFor(b, bytes))))
                 && Answer(m.S(), mp, SegmentSize(ChunkSizeFor(AskFor(b, bytes))))
    modifies m, m.small, m.trees
    ensures ok && Good(m) && A.LeastPower(a, k, alignment)
    ensures mem == 0 ==> m.S() == old(m.S())
    ensures mem == 0 ==> NoneAligned(old(m.S()), old(m.footprintLimit), bytes, a, direct, mp)
    ensures bytes + a >= 0xFFFF_FFFF_FFFF_FF80 ==> mem == 0
    ensures mem != 0 ==>
              mem >= 16 && mem % a == 0 && bytes < MAX_REQUEST - a
              && AlignedOut(old(m.S()), m.S(), mem - 16, RequestSize(bytes)) && Holds(m.S(), mem - 16, bytes)
  {
    hide Inv, SB.BinsOK, TB.BinsOK, SB.SmallBins.Valid, TB.TreeBins.Valid, A.BitAnd, Bits.Pow2, Answer, Granted,
      AlignedOut, Placed, SizeOf, IsMmapped, AlignUp, Allocated, NoneAligned, Holds, SB.SmallBins.Contents,
      TB.TreeBins.Contents, MmapSize, SegmentSize, ChunkSizeFor, HeapServes, RequestSize, AskFor;
    ghost var st := m.S();
    ok, mem := true, 0;
    a, k := A.RoundAlignment(alignment);
    if bytes < MAX_REQUEST - a {
      A.Pow2Of32(k);
      AskFits(a, bytes);
      var nb := RequestSize(bytes);
      var req := nb + a + MIN_CHUNK_SIZE - 8;
      ghost var limit := m.footprintLimit;
      ok, mem := Dlmalloc(m, req, direct, mp);
      SizeAsked(req);
      if mem == 0 {
        NotAligned(st, limit, bytes, a, req, direct, mp);
      } else {
        var p;
        ok, p := AlignGranted(m, mem - 16, nb, RequestSize(req), a, k, st);
        mem := p + 16;
        A.LowMask(mem, k);
        AlignedHolds(st, m.S(), p, bytes);
      }
    } else {
      NoneSoLarge(st, m.footprintLimit, bytes, a, direct, mp);
    }
  }

  lemma SizeAsked(req: nat)
    requires req < WORD_MODULUS
    ensures req < MAX_REQUEST ==> RequestSize(req) % 16 == 0
  {
    if req < MAX_REQUEST {
      RequestFits(req);
    }
  }

  lemma NotAligned(st: State, limit: nat, bytes: nat, a: nat, req: nat, direct: Addr, mp: Addr)
    requires bytes < MAX_REQUEST && req == AskFor(a, bytes) && Allocated(st, st, limit, req, direct, mp, 0)
    ensures NoneAligned(st, limit, bytes, a, direct, mp)
  {
    hide Choice, RoundedUp;
    RequestFits(bytes);
    var most := bytes + a + 56;
    if most < MAX_REQUEST {
      if p :| FreeFor(st, p, most) {
        assert FreeFor(st, p, req);
      }
      RoundedMore(req + 128, most + 128, 4096);
      RoundedMore(req + 128, most + 128, 65536);
    }
  }

  lemma NoneSoLarge(st: State, limit: nat, bytes: nat, a: nat, direct: Addr, mp: Addr)
    requires bytes + a >= MAX_REQUEST
    ensures NoneAligned(st, limit, bytes, a, direct, mp)
  {
  }

  lemma RoundedMore(n: nat, m: nat, unit: nat)
    requires n <= m && (unit == 4096 || unit == 65536)
    ensures RoundedUp(n, unit) <= RoundedUp(m, unit)
  {
  }

  lemma AlignedHolds(st: State, st': State, p: Addr, bytes: nat)
    requires bytes < MAX_REQUEST && AlignedOut(st, st', p, RequestSize(bytes))
    ensures Holds(st', p, bytes)
  {
    RequestFits(bytes);
  }

  lemma LessAligned(need: nat, a: nat)
    requires need % 16 == 0 && a % 16 == 0
    ensures (need - a - MIN_CHUNK_SIZE) % 16 == 0
  {
  }

  method AlignGranted(m: MState, p0: Addr, nb: nat, need: nat, a: nat, ghost k: nat, ghost st: State)
    returns (ok: bool, p: Addr)
    requires Good(m) && Granted(st, m.S(), p0, need) && nb % 16 == 0 && nb >= MIN_CHUNK_SIZE
    requires need >= nb + a + MIN_CHUNK_SIZE
    requires 5 <= k <= 63 && a == Bits.Pow2(k) && need % 16 == 0
    modifies m`mem, m`top, m`topsize, m`dv, m`dvsize, m`layout, m.small, m.trees
    ensures ok && Good(m) && A.BitAnd(p + 16, a - 1) == 0 && AlignedOut(st, m.S(), p, nb)
  {
    hide Inv, SB.BinsOK, TB.BinsOK, SB.SmallBins.Valid, TB.TreeBins.Valid, A.BitAnd, Bits.Pow2, AlignedOut, Placed,
      SizeOf, IsMmapped, OthersKept;
    ok := true;
    if p0 in m.layout.maps {
      MappedWords(m.S(), p0);
    } else {
      BlockWords(m.S(), p0);
    }
    if IsMmapped(m.HeadOf(p0)) {
      p := AlignMapped(m, p0, nb, need, a, k, st);
    } else {
      A.Pow2Of32(k);
      LessAligned(need, a);
      ok, p := MoveUp(m, p0, need - a - MIN_CHUNK_SIZE, a, k, st);
      AtLeast(st, m.S(), p, need - a - MIN_CHUNK_SIZE, nb);
      ok := GiveTail(m, p, nb, st);
    }
  }

  lemma AtLeast(st: State, st': State, p: Addr, n: nat, nb: nat)
    requires Placed(st, st', p, n) && n >= nb
    ensures Placed(st, st', p, nb)
  {
  }
}
