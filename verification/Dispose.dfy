/** `dispose_chunk`, and the part of `dlfree` that does the same. */
module Dispose {
  import opened Words
  import opened BoundaryTags
  import opened HeapState
  import opened HeapSteps
  import opened HeapOps
  import opened HeapOps2
  import opened HeapBins
  import opened MallocState
  import opened HandOut
  import opened Consolidate
  import TreeIndex
  import SB = SmallBins
  import TB = TreeBins

  /** The chunk `p` was taken back; all other blocks are as before. */
  ghost predicate Released(st: State, st': State, p: Addr)
  {
    st'.live == st.live - {p} && st'.maps == st.maps && OthersKept(st, st', {p})
  }

  // ----- What a chunk is joined with -----

  /** The free chunk right before `p`, if there is one, has this size. */
  function SizeBefore(st: State, p: Addr): nat
  {
    if Pin(st.tags.HeadOf(p)) then 0 else st.tags.W(p)
  }

  /** The free chunk right behind, unless it is top */
  function SizeBehind(st: State, p: Addr): nat
    requires p in st.tags.ch
  {
    var n := p + st.tags.ch[p];
    if n in st.tags.ch && n !in st.tags.used && n != st.tags.top then st.tags.ch[n] else 0
  }

  predicate NextToTop(st: State, p: Addr)
    requires p in st.tags.ch
  {
    p + st.tags.ch[p] == st.tags.top
  }

  predicate NextToDv(st: State, p: Addr)
    requires p in st.tags.ch
  {
    st.dv != 0 && (p + st.tags.ch[p] == st.dv || st.dv + SizeBefore(st, p) == p)
  }

  /** What top grows by */
  function ToppedBy(st: State, p: Addr): nat
    requires p in st.tags.ch
  {
    if NextToTop(st, p) then SizeBefore(st, p) + st.tags.ch[p] else 0
  }

  /** dv grows by what it is joined with; if that is top, it is gone. */
  function DvAfter(st: State, p: Addr): (r: (int, nat))
    requires p in st.tags.ch
  {
    if !NextToDv(st, p) then (st.dv, st.dvsize)
    else if NextToTop(st, p) then (0, 0)
    else (p - SizeBefore(st, p), SizeBefore(st, p) + st.tags.ch[p] + SizeBehind(st, p))
  }

  /** A chunk of 256 bytes or more goes into a tree bin. */
  predicate BinnedLarge(st: State, p: Addr)
    requires p in st.tags.ch
  {
    && !NextToTop(st, p) && !NextToDv(st, p)
    && SizeBefore(st, p) + st.tags.ch[p] + SizeBehind(st, p) >= 256
  }

  lemma ReleasedBy(st: State, st1: State, st2: State, p: Addr)
    requires st1.tags == st.tags && st1.live == st.live && st1.maps == st.maps && st2.live == st1.live - {p}
    requires st2.maps == st1.maps
    requires forall q | q != p :: BlockKept(st1, st2, q)
    ensures Released(st, st2, p)
  {
    hide BlockKept;
    ClientsUnaware(st, st1);
    assert OthersKept(st1, st2, {p});
    KeptThrough(st, st1, st2, {}, {p});
    assert {} + {p} == {p};
  }

  lemma ReleasedThen(st: State, st1: State, st2: State, p: Addr)
    requires Released(st, st1, p) && ClientsKept(st1, st2)
    ensures Released(st, st2, p)
  {
    hide OthersKept;
    KeptThrough(st, st1, st2, {p}, {});
    assert {p} + {} == {p};
  }

  // ----- Writes -----

  /** `top = a; a->head = tsize | PINUSE_BIT`, dv being gone if it was part of it */
  method WriteTop(m: MState, a: Addr, size: nat, ghost p: Addr)
    requires m.top in m.layout.ch && m.layout.ch[m.top] == m.topsize && size % 16 == 0 && m.topsize % 16 == 0
    requires a + size == m.top
    requires m.dv == a || m.dv !in {a, p, m.top} || (m.dv == 0 && m.dvsize == 0)
    modifies m`mem, m`top, m`topsize, m`dv, m`dvsize, m`layout
    ensures m.S() == ToTop(old(m.S()), a, p)
  {
    hide SB.SmallBins.Contents, TB.TreeBins.Contents;
    ghost var g := ToTop(m.S(), a, p);
    var tsize := m.topsize + size;
    m.topsize := tsize;
    m.top := a;
    m.mem := m.mem[a + 8 := Head(tsize, false, true)];
    if a == m.dv {
      m.dv := 0;
      m.dvsize := 0;
    }
    m.layout := LayoutOf(g);
  }

  /** dv grows downwards. */
  method WriteDvNext(m: MState, a: Addr, size: nat, ghost p: Addr)
    requires m.dv in m.layout.ch && m.layout.ch[m.dv] == m.dvsize && size % 16 == 0 && m.dvsize % 16 == 0
    requires a + size == m.dv && size > 0
    requires ClearPin(m.HeadOf(m.dv + m.dvsize)) == m.HeadOf(m.dv + m.dvsize) && m.HeadOf(m.dv + m.dvsize) > 0
    modifies m`mem, m`dv, m`dvsize, m`layout
    ensures m.S() == WithNext(old(m.S()), a, p, old(m.dv))
  {
    hide SB.SmallBins.Contents, TB.TreeBins.Contents, ClearPin, SetSizeAndPinuseOfFree, FreedMem;
    ghost var g := WithNext(m.S(), a, p, m.dv);
    var dsize := m.dvsize + size;
    FreeOverClear(m.H(), a, m.dv + m.dvsize);
    m.dvsize := dsize;
    m.dv := a;
    m.mem := SetSizeAndPinuseOfFree(m.mem, a, dsize);
    m.layout := LayoutOf(g);
  }

  lemma FreeOverClear(h: Tags, a: Addr, b: Addr)
    requires a < b && (b - a) % 16 == 0 && ClearPin(h.HeadOf(b)) == h.HeadOf(b) && h.HeadOf(b) > 0
    ensures FreedMem(h, a, b) == SetSizeAndPinuseOfFree(h.mem, a, b - a)
  {
    hide ClearPin;
    assert h.mem[b + 8 := h.HeadOf(b)] == h.mem;
  }

  /** The chunk behind, out of its bin, joins; dv keeps being dv if it is in front. */
  method WriteNext(m: MState, a: Addr, size: nat, n: Addr, nsize: nat, ghost p: Addr)
    requires n in m.layout.ch && m.layout.ch[n] == nsize && size % 16 == 0 && nsize % 16 == 0 && a + size == n
    requires size > 0
    requires ClearPin(m.HeadOf(n + nsize)) == m.HeadOf(n + nsize) && m.HeadOf(n + nsize) > 0 && m.dv != n
    requires (m.dv == a || m.dv != p)
    modifies m`mem, m`dvsize, m`layout
    ensures m.S() == WithNext(old(m.S()), a, p, n)
  {
    hide SB.SmallBins.Contents, TB.TreeBins.Contents, ClearPin, SetSizeAndPinuseOfFree, FreedMem;
    ghost var g := WithNext(m.S(), a, p, n);
    FreeOverClear(m.H(), a, n + nsize);
    m.mem := SetSizeAndPinuseOfFree(m.mem, a, size + nsize);
    if a == m.dv {
      m.dvsize := size + nsize;
    }
    m.layout := LayoutOf(g);
  }

  /** Nothing behind joins. */
  method WriteAlone(m: MState, a: Addr, size: nat, n: Addr, ghost p: Addr)
    requires size % 16 == 0 && a + size == n && size > 0 && (m.dv == a || m.dv != p)
    modifies m`mem, m`dvsize, m`layout
    ensures m.S() == Consolidate.Alone(old(m.S()), a, p, n)
  {
    hide SB.SmallBins.Contents, TB.TreeBins.Contents, ClearPin;
    ghost var g := Consolidate.Alone(m.S(), a, p, n);
    if a == m.dv {
      m.dvsize := size;
    }
    m.mem := SetFreeWithPinuse(m.mem, a, size, n);
    m.layout := LayoutOf(g);
  }

  // ----- Joining backward -----

  /** The free chunk before, if there is one, leaves its bin; `done` if it was dv and nothing else joins. */
  method JoinBack(m: MState, p: Addr, psize: nat, ghost Y: set<Addr>)
    returns (ok: bool, a: Addr, size: nat, done: bool, ghost k: nat, ghost L: set<Addr>)
    requires m.Valid() && Inv(m.S(), {}, Y) && (p in m.layout.live || p in Y) && p in m.layout.ch
    requires m.layout.ch[p] == psize
    modifies m`mem, m`dvsize, m`layout, m.small, m.trees
    ensures ok && m.Valid()
    ensures done ==> Inv(m.S(), {}, Y - {p}) && Released(old(m.S()), m.S(), p)
    ensures done ==> m.dv != 0 && m.dv + SizeBefore(old(m.S()), p) == p && p + psize in old(m.layout.used)
    ensures m.dvsize == if done then SizeBefore(old(m.S()), p) + psize else old(m.dvsize)
    ensures !done ==> a + SizeBefore(old(m.S()), p) == p
    ensures !done ==> Merging(m.S(), a, p, p + psize, k, L, Y) && size == p + psize - a
    ensures !done ==> m.H() == old(m.H()) && m.layout == old(m.layout)
  {
    hide Inv, SB.BinsOK, TB.BinsOK, SB.SmallBins.Valid, TB.TreeBins.Valid, Taken, Pin, Cin, SizeOf, BlockKept,
      OthersKept;
    ghost var st := m.S();
    NextChunk(st, p, {}, Y);
    UsedAvailable(st, {}, Y, p);
    k := TakeOne(st, {}, Y, p);
    ok, a, size, done, L := true, p, psize, false, {};
    var next := p + psize;
    assert {p, p} == {p};
    if !Pin(m.HeadOf(p)) {
      var prevsize := m.W(p);
      PrevChunk(st, p, {}, Y);
      a := p - prevsize;
      size := psize + prevsize;
      if m.leastAddr <= a {
        if a != m.dv {
          L := {a};
          ok := UnlinkChunk(m, a, prevsize, {}, Y);
          assert {} + {a} == {a};
          k := TakeBoth(m.S(), a, p, L, Y);
        } else {
          k := TakeBoth(st, a, p, {}, Y);
          if Cin(m.HeadOf(next)) && Pin(m.HeadOf(next)) {
            done := true;
            ghost var k1 := k;
            MergingFacts(st, a, p, next, k1, {}, Y);
            JoinsNone(st, a, p, next, k1, {}, Y);
            WriteAlone(m, a, size, next, p);
            ReleasedBy(st, st, m.S(), p);
          }
        }
      } else {
        ok := false;
      }
    }
  }

  /** The free chunk before `p`, out of the bins, and `p` are a run of chunks. */
  lemma TakeBoth(st: State, a: Addr, p: Addr, L: set<Addr>, Y: set<Addr>) returns (k: nat)
    requires (p in st.live || p in Y) && p in st.tags.ch && !Pin(st.tags.HeadOf(p)) && st.tags.W(p) <= p
    requires a == p - st.tags.W(p)
    requires if a == st.dv then L == {} else L == {a}
    requires Inv(st, L, Y)
    ensures Merging(st, a, p, p + st.tags.ch[p], k, L, Y)
  {
    hide Inv, Taken, Pin;
    NextChunk(st, p, L, Y);
    PrevChunk(st, p, L, Y);
    FreeAvailable(st, L, Y, a);
    UsedAvailable(st, L, Y, p);
    k := TakeOne(st, L, Y, a);
    TakeNext(st, L, Y, k, a, p, {a});
    assert {a} + {p} == {a, p};
  }

  // ----- Joining forward -----

  method JoinForward(m: MState, p: Addr, a: Addr, size: nat, next: Addr, ghost k: nat, ghost L: set<Addr>,
      ghost Y: set<Addr>)
    returns (ok: bool, toTop: bool, large: bool)
    requires m.Valid() && Merging(m.S(), a, p, next, k, L, Y) && size == next - a
    modifies m`mem, m`top, m`topsize, m`dv, m`dvsize, m`layout, m.small, m.trees
    ensures ok && m.Valid() && Inv(m.S(), {}, Y - {p}) && Released(old(m.S()), m.S(), p)
    ensures toTop <==> next == old(m.top)
    ensures m.topsize == if toTop then old(m.topsize) + size else old(m.topsize)
    ensures toTop ==> if a == old(m.dv) then m.dv == m.dvsize == 0 else m.dv == old(m.dv) && m.dvsize == old(m.dvsize)
    ensures !toTop && a != old(m.dv) && next != old(m.dv) ==> m.dv == old(m.dv) && m.dvsize == old(m.dvsize)
    ensures !toTop && (a == old(m.dv) || next == old(m.dv)) ==>
              && m.dv == a
              && m.dvsize == size + if next in old(m.layout.ch)
                 && next !in old(m.layout.used) then old(m.layout.ch)[next] else 0
    ensures large <==>
              next != old(m.top) && a != old(m.dv) && next != old(m.dv) &&
              size + (if next in old(m.layout.ch) && next !in old(m.layout.used) then old(m.layout.ch)[next]
                else 0) >= 256
  {
    hide Inv, SB.BinsOK, TB.BinsOK, SB.SmallBins.Valid, TB.TreeBins.Valid, Taken, Pin, Cin, SizeOf, BlockKept,
      OthersKept, Merging, Released, InBins;
    ghost var st := m.S();
    MergingFacts(st, a, p, next, k, L, Y);
    MergingInv(st, a, p, next, k, L, Y);
    DvNeverTop(st, L, Y);
    ok, toTop, large := true, false, false;
    if m.leastAddr <= next && a < next && Pin(m.HeadOf(next)) {
      if !Cin(m.HeadOf(next)) {
        if next == m.top {
          ForwardToTop(m, p, a, size, next, k, L, Y);
          toTop := true;
        } else if next == m.dv {
          ForwardToDv(m, p, a, size, next, k, L, Y);
        } else {
          ok, large := ForwardToFree(m, p, a, size, next, k, L, Y);
        }
      } else {
        JoinsNone(st, a, p, next, k, L, Y);
        WriteAlone(m, a, size, next, p);
        ReleasedBy(st, st, m.S(), p);
        ok, large := BinIt(m, p, a, size, st, Y);
      }
    } else {
      ok := false;
    }
  }

  method ForwardToTop(m: MState, p: Addr, a: Addr, size: nat, next: Addr, ghost k: nat, ghost L: set<Addr>,
      ghost Y: set<Addr>)
    requires m.Valid() && Merging(m.S(), a, p, next, k, L, Y) && size == next - a && next == m.top
    modifies m`mem, m`top, m`topsize, m`dv, m`dvsize, m`layout
    ensures m.Valid() && Inv(m.S(), {}, Y - {p}) && Released(old(m.S()), m.S(), p)
    ensures m.topsize == old(m.topsize) + size
    ensures if a == old(m.dv) then m.dv == m.dvsize == 0 else m.dv == old(m.dv) && m.dvsize == old(m.dvsize)
  {
    hide Inv, SB.BinsOK, TB.BinsOK, SB.SmallBins.Valid, TB.TreeBins.Valid, Taken, Pin, Cin, SizeOf, BlockKept,
      OthersKept, Merging, InBins;
    ghost var st := m.S();
    MergingFacts(st, a, p, next, k, L, Y);
    MergingInv(st, a, p, next, k, L, Y);
    JoinsTop(st, a, p, next, k, L, Y);
    DvWord(st, L, Y);
    DvNeverTop(st, L, Y);
    ChunkFactsAt(st, L, Y, next);
    WriteTop(m, a, size, p);
    ReleasedBy(st, st, m.S(), p);
  }

  lemma MergingInv(st: State, a: Addr, p: Addr, n: Addr, k: nat, L: set<Addr>, Y: set<Addr>)
    requires Merging(st, a, p, n, k, L, Y)
    ensures Inv(st, L, Y) && n in st.tags.ch
  {
    hide Inv;
  }

  method ForwardToDv(m: MState, p: Addr, a: Addr, size: nat, next: Addr, ghost k: nat, ghost L: set<Addr>,
      ghost Y: set<Addr>)
    requires m.Valid() && Merging(m.S(), a, p, next, k, L, Y) && size == next - a && next == m.dv && next != m.top
    requires next !in m.layout.used
    modifies m`mem, m`dv, m`dvsize, m`layout
    ensures m.Valid() && Inv(m.S(), {}, Y - {p}) && Released(old(m.S()), m.S(), p)
    ensures m.dv == a && next in old(m.layout.ch) && m.dvsize == size + old(m.layout.ch)[next]
  {
    hide Inv, SB.BinsOK, TB.BinsOK, SB.SmallBins.Valid, TB.TreeBins.Valid, Taken, Pin, Cin, SizeOf, BlockKept,
      OthersKept, Merging, InBins, ClearPin;
    ghost var st := m.S();
    MergingFacts(st, a, p, next, k, L, Y);
    MergingInv(st, a, p, next, k, L, Y);
    JoinsFree(st, a, p, next, k, L, Y, st);
    DvWord(st, L, Y);
    ChunkFactsAt(st, L, Y, next);
    WriteDvNext(m, a, size, p);
    ReleasedBy(st, st, m.S(), p);
  }

  method ForwardToFree(m: MState, p: Addr, a: Addr, size: nat, next: Addr, ghost k: nat, ghost L: set<Addr>,
      ghost Y: set<Addr>)
    returns (ok: bool, large: bool)
    requires m.Valid() && Merging(m.S(), a, p, next, k, L, Y) && size == next - a && next != m.dv && next != m.top
    requires next !in m.layout.used
    modifies m`mem, m`dvsize, m`layout, m.small, m.trees
    ensures ok && m.Valid() && Inv(m.S(), {}, Y - {p}) && Released(old(m.S()), m.S(), p)
    ensures next in old(m.layout.ch) && (large <==> a != old(m.dv) && size + old(m.layout.ch)[next] >= 256)
    ensures m.dvsize == if a == old(m.dv) then size + old(m.layout.ch)[next] else old(m.dvsize)
  {
    hide Inv, SB.BinsOK, TB.BinsOK, SB.SmallBins.Valid, TB.TreeBins.Valid, Taken, Pin, Cin, SizeOf, BlockKept,
      OthersKept, Merging, InBins, ClearPin, IsFree, Released;
    ghost var st := m.S();
    MergingFacts(st, a, p, next, k, L, Y);
    MergingInv(st, a, p, next, k, L, Y);
    ChunkFactsAt(st, L, Y, next);
    HeadSize(st, next);
    var nsize := SizeOf(m.HeadOf(next));
    JoinsFree(st, a, p, next, k, L, Y, Unbinned(st, next));
    ok := UnlinkChunk(m, next, nsize, L, Y);
    WriteNext(m, a, size, next, nsize, p);
    ReleasedBy(st, st, m.S(), p);
    large := false;
    if a != m.dv {
      ok, large := BinIt(m, p, a, size + nsize, st, Y);
    }
  }

  lemma HeadSize(st: State, n: Addr)
    requires n in st.tags.ch && HeadOK(st.tags, n)
    ensures SizeOf(st.tags.HeadOf(n)) == st.tags.ch[n]
  {
  }

  /** `insert_chunk`, if the chunk is not dv */
  method BinIt(m: MState, p: Addr, a: Addr, size: nat, ghost st: State, ghost Y: set<Addr>)
    returns (ok: bool, large: bool)
    requires m.Valid() && Released(st, m.S(), p) && a in m.layout.ch && m.layout.ch[a] == size
    requires Inv(m.S(), if a == m.dv then {} else {a}, Y - {p}) && (a != m.dv ==> IsFree(m.H(), m.dv, a))
    modifies m.small, m.trees
    ensures ok && m.Valid() && Inv(m.S(), {}, Y - {p}) && Released(st, m.S(), p)
    ensures large <==> a != m.dv && size >= 256
  {
    hide Inv, SB.BinsOK, TB.BinsOK, SB.SmallBins.Valid, TB.TreeBins.Valid, OthersKept, IsFree;
    ok, large := true, false;
    if a != m.dv {
      ghost var st1 := m.S();
      ok := InsertChunk(m, a, size, {a}, Y - {p});
      assert {a} - {a} == {};
      large := size >= TreeIndex.MIN_LARGE_SIZE;
      ClientsUnaware(st1, m.S());
      ReleasedThen(st, st1, m.S(), p);
    }
  }

  /** A chunk in use, `p`, is given back. */
  method GiveBack(m: MState, p: Addr, psize: nat, ghost Y: set<Addr>) returns (ok: bool, toTop: bool, large: bool)
    requires m.Valid() && Inv(m.S(), {}, Y) && (p in m.layout.live || p in Y) && p in m.layout.ch
    requires m.layout.ch[p] == psize
    modifies m`mem, m`top, m`topsize, m`dv, m`dvsize, m`layout, m.small, m.trees
    ensures ok && m.Valid() && Inv(m.S(), {}, Y - {p}) && Released(old(m.S()), m.S(), p)
    ensures (toTop <==> NextToTop(old(m.S()), p)) && m.topsize == old(m.topsize) + ToppedBy(old(m.S()), p)
    ensures (m.dv, m.dvsize) == DvAfter(old(m.S()), p) && (large <==> BinnedLarge(old(m.S()), p))
  {
    hide Inv, SB.BinsOK, TB.BinsOK, SB.SmallBins.Valid, TB.TreeBins.Valid, Merging, OthersKept, BlockKept;
    ghost var st := m.S();
    ghost var k, L;
    var a, size, done;
    toTop, large := false, false;
    DvNeverTop(st, {}, Y);
    NextChunk(st, p, {}, Y);
    ok, a, size, done, k, L := JoinBack(m, p, psize, Y);
    if !done {
      ghost var st1 := m.S();
      MergingFacts(st1, a, p, p + psize, k, L, Y);
      ok, toTop, large := JoinForward(m, p, a, size, p + psize, k, L, Y);
      ClientsUnaware(st, st1);
      KeptThrough(st, st1, m.S(), {}, {p});
      assert {} + {p} == {p};
    }
  }
}
