/** Handing out chunks: the macros that write boundary tags, and the ends of malloc's paths. */
module HandOut {
  import opened Words
  import opened BoundaryTags
  import opened HeapState
  import opened HeapSteps
  import opened HeapOps
  import opened HeapOps2
  import opened HeapBins
  import opened MallocState

  // ----- Writing tags -----

  function WordAt(mem: Mem, w: Addr): nat
  {
    if w in mem then mem[w] else 0
  }

  /** `set_inuse_and_pinuse` */
  function SetInuseAndPinuse(mem: Mem, p: Addr, s: nat): Mem
    requires s % 16 == 0
  {
    var mem1 := mem[p + 8 := Head(s, true, true)];
    mem1[p + s + 8 := SetPin(WordAt(mem1, p + s + 8))]
  }

  /** `set_size_and_pinuse_of_inuse_chunk` */
  function SetSizeAndPinuseOfInuse(mem: Mem, p: Addr, s: nat): Mem
    requires s % 16 == 0
  {
    mem[p + 8 := Head(s, true, true)]
  }

  /** `set_size_and_pinuse_of_free_chunk` */
  function SetSizeAndPinuseOfFree(mem: Mem, p: Addr, s: nat): Mem
    requires s % 16 == 0
  {
    mem[p + 8 := Head(s, false, true)][p + s := s]
  }

  /** `set_free_with_pinuse` */
  function SetFreeWithPinuse(mem: Mem, p: Addr, s: nat, n: Addr): Mem
    requires s % 16 == 0
  {
    SetSizeAndPinuseOfFree(mem[n + 8 := ClearPin(WordAt(mem, n + 8))], p, s)
  }

  /** `set_inuse` */
  function SetInuse(mem: Mem, p: Addr, s: nat): Mem
    requires s % 16 == 0
  {
    var mem1 := mem[p + 8 := Head(s, true, Pin(WordAt(mem, p + 8)))];
    mem1[p + s + 8 := SetPin(WordAt(mem1, p + s + 8))]
  }

  lemma InUseWholeIs(h: Tags, p: Addr, s: nat)
    requires s % 16 == 0 && s > 0
    ensures SetInuseAndPinuse(h.mem, p, s) == InUseWhole(h, p, s)
  {
  }

  // ----- What a client gets -----

  /** `p` has become a block of at least `nb` bytes and less than a minimal chunk more; nothing else that
      clients own has changed. */
  ghost predicate HandedOut(st: State, st': State, p: Addr, nb: nat)
  {
    && p !in st.live && p !in st.maps && st'.live == st.live + {p} && st'.maps == st.maps
    && p > 0 && p % 16 == 0 && p in st'.tags.ch && nb <= st'.tags.ch[p] < nb + MIN_CHUNK_SIZE
    && OthersKept(st, st', {p})
  }

  /** Nothing that clients own has changed. */
  ghost predicate ClientsKept(st: State, st': State)
  {
    st'.live == st.live && st'.maps == st.maps && OthersKept(st, st', {})
  }

  lemma KeptThrough(st0: State, st1: State, st2: State, D: set<Addr>, E: set<Addr>)
    requires OthersKept(st0, st1, D) && OthersKept(st1, st2, E)
    ensures OthersKept(st0, st2, D + E)
  {
    hide BlockKept;
    forall p | p !in D + E ensures BlockKept(st0, st2, p) {
      KeptOne(st0, st1, st2, p);
    }
  }

  lemma KeptOne(st0: State, st1: State, st2: State, p: Addr)
    requires BlockKept(st0, st1, p) && BlockKept(st1, st2, p)
    ensures BlockKept(st0, st2, p)
  {
  }

  /** From a step that keeps all blocks but `p` to what the client gets. */
  lemma Handed(st0: State, st1: State, st2: State, p: Addr, nb: nat)
    requires ClientsKept(st0, st1) && p !in st1.live && p !in st1.maps && st2.live == st1.live + {p}
    requires st2.maps == st1.maps
    requires p > 0 && p % 16 == 0 && p in st2.tags.ch && nb <= st2.tags.ch[p] < nb + MIN_CHUNK_SIZE
    requires forall q | q != p :: BlockKept(st1, st2, q)
    ensures HandedOut(st0, st2, p, nb)
  {
    hide BlockKept;
    assert OthersKept(st1, st2, {p});
    KeptThrough(st0, st1, st2, {}, {p});
    assert {} + {p} == {p};
  }

  lemma ClientsUnaware(st: State, st': State)
    requires st'.tags == st.tags && st'.live == st.live && st'.maps == st.maps
    ensures ClientsKept(st, st')
  {
    BinsUnseen(st, st');
  }

  lemma ClientsKeptThrough(st0: State, st1: State, st2: State)
    requires ClientsKept(st0, st1) && ClientsKept(st1, st2)
    ensures ClientsKept(st0, st2)
  {
    hide OthersKept;
    KeptThrough(st0, st1, st2, {}, {});
    ghost var none: set<Addr> := {};
    assert none + none == none;
  }

  lemma NotMapped(st: State, L: set<Addr>, Y: set<Addr>, p: Addr)
    requires p in st.tags.ch && Inv(st, L, Y)
    ensures p !in st.maps && p > 0 && p % 16 == 0
  {
    hide OK, FootprintOK, LeastOK, BinsMatch, UsedOK, DvTopOK, SegOK;
    ChunkFactsAt(st, L, Y, p);
    assert InSomeSeg(st.tags, st.segs, p);
    var k: nat :| ChunkInSeg(st.tags, st.segs, k, p);
    if p in st.maps {
      MappedApart(st, L, Y, p, k);
      InSegWords(st.tags, st.segs, k, p, p + st.tags.ch[p]);
    }
  }

  // ----- The ends of malloc's paths -----

  /** A free chunk out of the bins becomes a block as a whole. */
  method TakeWhole(m: MState, p: Addr, s: nat, nb: nat, ghost st0: State)
    requires Inv(m.S(), {p}, {}) && IsFree(m.H(), m.dv, p) && m.layout.ch[p] == s && s % 16 == 0
    requires 0 < nb <= s < nb + MIN_CHUNK_SIZE
    requires ClientsKept(st0, m.S())
    modifies m`mem, m`layout
    ensures Inv(m.S(), {}, {}) && HandedOut(st0, m.S(), p, nb)
  {
    hide Inv, OthersKept, BlockKept, InUseWhole, SetInuseAndPinuse;
    ghost var st := m.S();
    NotMapped(st, {p}, {}, p);
    m.mem := SetInuseAndPinuse(m.mem, p, s);
    InUseWholeIs(st.tags, p, s);
    m.layout := m.layout.(used := m.layout.used + {p}, live := m.layout.live + {p});
    assert m.S() == GaveWhole(st, p);
    GiveWhole(st, p, {p}, {}, m.S());
    assert {p} - {p} == {};
    Handed(st0, st, m.S(), p, nb);
  }

  /** The front of a free chunk out of the bins becomes a block; the rest is free and out of the bins. */
  method TakeFront(m: MState, p: Addr, s: nat, nb: nat, ghost st0: State) returns (r: Addr)
    requires Inv(m.S(), {p}, {}) && IsFree(m.H(), m.dv, p) && m.layout.ch[p] == s && s % 16 == 0
    requires nb % 16 == 0 && nb >= MIN_CHUNK_SIZE && nb + MIN_CHUNK_SIZE <= s
    requires ClientsKept(st0, m.S())
    modifies m`mem, m`layout
    ensures Inv(m.S(), {r}, {}) && HandedOut(st0, m.S(), p, nb) && m.layout.ch[p] == nb
    ensures r == p + nb && IsFree(m.H(), m.dv, r) && m.layout.ch[r] == s - nb && m.dv != r
  {
    hide Inv, OthersKept, BlockKept, InUseFront, SetSizeAndPinuseOfFree, SetSizeAndPinuseOfInuse;
    ghost var st := m.S();
    NotMapped(st, {p}, {}, p);
    r := p + nb;
    m.mem := SetSizeAndPinuseOfFree(SetSizeAndPinuseOfInuse(m.mem, p, nb), r, s - nb);
    m.layout := m.layout.(ch := m.layout.ch[p := nb][r := s - nb], used := m.layout.used + {p},
      live := m.layout.live + {p});
    FrontMem(st.tags, p, nb, s);
    assert m.S() == GaveFront(st, p, nb, false);
    GiveFront(st, p, nb, false, {p}, {}, m.S());
    assert RestLoose({p}, p, nb, false) == {r};
    RestFree(st, p, nb, m.S());
    Handed(st0, st, m.S(), p, nb);
  }

  lemma FrontMem(h: Tags, v: Addr, nb: nat, s: nat)
    requires nb % 16 == 0 && s % 16 == 0 && nb <= s
    ensures InUseFront(h, v, nb, s) == SetSizeAndPinuseOfFree(SetSizeAndPinuseOfInuse(h.mem, v, nb), v + nb, s - nb)
  {
    assert v + nb + (s - nb) == v + s;
  }

  lemma RestFree(st: State, p: Addr, nb: nat, st': State)
    requires p in st.tags.ch && IsFree(st.tags, st.dv, p) && nb % 16 == 0 && st.tags.ch[p] % 16 == 0
    requires 0 < nb < st.tags.ch[p]
    requires st' == GaveFront(st, p, nb, false) && Inv(st, {p}, {})
    ensures IsFree(st'.tags, st'.dv, p + nb)
  {
    hide InUseFront, MapsOK, FootprintOK, LeastOK, BinsMatch, UsedOK, SegsOK, OK;
    InsideNotChunk(st.tags, p, p + nb);
    UsedAreChunks(st, {p}, {});
    NoNullChunk(st.tags);
    assert OK(st.tags);
    TopIsChunk(st.tags);
  }

  lemma TopIsChunk(h: Tags)
    requires OK(h)
    ensures h.top in h.ch || h.top == 0
  {
  }
}
