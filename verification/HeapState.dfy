/** The state of the allocator as a value, and its invariant. */
module HeapState {
  import opened Words
  import opened BoundaryTags
  import TreeIndex

  const SEGMENT_RECORD := 48
  const MMAP_FOOT_PAD := 32

  /** A mapped stretch of address space that holds chunks; its record is a chunk at its own end, except
      for the segment with top, whose record (0 here) is part of the malloc state. */
  datatype Segment = Segment(base: Addr, size: nat, rec: Addr)

  /** The stretch that a directly mapped chunk was mapped with. */
  datatype Mapping = Mapping(base: Addr, len: nat)

  datatype State = State(
    tags: Tags, dv: Addr, dvsize: nat, topsize: nat,
    segs: seq<Segment>, live: set<Addr>, maps: map<Addr, Mapping>,
    least: Addr, footprint: nat,
    small: map<Addr, nat>, tree: map<Addr, nat>)

  // ----- dv, top and the bins -----

  predicate DvTopOK(st: State)
  {
    var h := st.tags;
    && (st.dv == 0 <==> st.dvsize == 0)
    && (st.dv != 0 ==> st.dv in h.ch && st.dv !in h.used && st.dv != h.top && h.ch[st.dv] == st.dvsize)
    && (h.top == 0 <==> st.topsize == 0)
    && (h.top != 0 ==> h.top in h.ch && h.ch[h.top] == st.topsize)
  }

  predicate IsFree(h: Tags, dv: Addr, p: Addr)
  {
    p in h.ch && p !in h.used && p != h.top && p != dv
  }

  /** The free chunks, but for dv, top and those in `X`, are in the one kind of bin that their size says. */
  ghost predicate BinsMatch(st: State, X: set<Addr>)
  {
    && (forall p {:trigger p in st.small} | p in st.small ::
          IsFree(st.tags, st.dv, p) && p !in X && st.small[p] == st.tags.ch[p] < TreeIndex.MIN_LARGE_SIZE)
    && (forall p {:trigger p in st.tree} | p in st.tree ::
          IsFree(st.tags, st.dv, p) && p !in X && st.tree[p] == st.tags.ch[p] >= TreeIndex.MIN_LARGE_SIZE)
    && (forall p {:trigger IsFree(st.tags, st.dv, p)} | IsFree(st.tags, st.dv, p) ::
       p in X || p in st.small || p in st.tree)
  }

  // ----- Segments -----

  /** Where the chunks of segment k end. */
  function SegEnd(h: Tags, segs: seq<Segment>, k: nat): Addr
    requires k < |segs|
  {
    if k == 0 then TopEnd(h) else segs[k].rec + SEGMENT_RECORD
  }

  predicate SegOK(h: Tags, segs: seq<Segment>, k: nat)
    requires k < |segs|
  {
    var s := segs[k];
    && s.base > 0 && s.base % 4096 == 0 && s.size > 0 && s.size % 4096 == 0 && s.base + s.size <= TreeIndex.SIZE_MODULUS
    && s.base in h.ch && Pin(h.HeadOf(s.base))
    && if k == 0 then
         h.top in h.ch && s.base <= h.top && TopEnd(h) + TOP_FOOT_SIZE == s.base + s.size
       else
         && s.rec in h.ch && s.rec in h.used && h.ch[s.rec] == SEGMENT_RECORD && s.base < s.rec
         && (s.rec + 80 == s.base + s.size || s.rec + 96 == s.base + s.size) && s.rec + SEGMENT_RECORD in h.fence
  }

  predicate SegsApart(segs: seq<Segment>, j: nat, k: nat)
    requires j < |segs| && k < |segs|
  {
    segs[j].base + segs[j].size <= segs[k].base || segs[k].base + segs[k].size <= segs[j].base
  }

  /** [a, b) lies in the part of segment k that chunks tile. */
  predicate InSeg(h: Tags, segs: seq<Segment>, k: nat, a: Addr, b: Addr)
  {
    k < |segs| && segs[k].base <= a && b <= SegEnd(h, segs, k)
  }

  predicate ChunkInSeg(h: Tags, segs: seq<Segment>, k: nat, p: Addr)
  {
    p in h.ch && InSeg(h, segs, k, p, p + h.ch[p])
  }

  ghost predicate InSomeSeg(h: Tags, segs: seq<Segment>, p: Addr)
  {
    exists k: nat :: ChunkInSeg(h, segs, k, p)
  }

  ghost predicate SegsOK(h: Tags, segs: seq<Segment>)
  {
    && (segs == [] <==> h.top == 0)
    && (forall k: nat {:trigger SegOK(h, segs, k)} | k < |segs| :: SegOK(h, segs, k))
    && (forall j: nat, k: nat {:trigger SegsApart(segs, j, k)} | j < |segs| && k < |segs| && j != k ::
       SegsApart(segs, j, k))
    && (forall p {:trigger InSomeSeg(h, segs, p)} | p in h.ch :: InSomeSeg(h, segs, p))
    && (forall f {:trigger f in h.fence} | f in h.fence :: exists k: nat :: 0 < k < |segs| && f == SegEnd(h, segs, k))
  }

  /** The chunks that hold segment records. */
  function Records(segs: seq<Segment>): set<Addr>
  {
    set k: nat | 0 < k < |segs| :: segs[k].rec
  }

  /** Chunks in use are the client's, the segment records, and those in `Y`, each of one kind only. */
  ghost predicate UsedOK(st: State, Y: set<Addr>)
  {
    && st.tags.used == st.live + Records(st.segs) + Y
    && st.live !! Records(st.segs) && st.live !! Y && Y !! Records(st.segs)
  }

  // ----- Directly mapped chunks -----

  /** The words by which a mapped chunk knows its mapping, and those of the fake chunk behind it. */
  predicate MapOK(h: Tags, p: Addr, m: Mapping)
  {
    && p > 0 && p % 16 == 0 && m.base <= p && m.base > 0 && m.base % 4096 == 0 && m.len % 4096 == 0
    && m.base + m.len <= TreeIndex.SIZE_MODULUS
    && p - m.base + MMAP_FOOT_PAD + TreeIndex.MIN_LARGE_SIZE <= m.len
    && h.W(p) == p - m.base && h.HeadOf(p) == m.len - (p - m.base) - MMAP_FOOT_PAD
    && h.HeadOf(p + h.HeadOf(p)) == FENCEPOST_HEAD
  }

  predicate MapApart(m: Mapping, base: Addr, len: nat)
  {
    m.base + m.len <= base || base + len <= m.base
  }

  ghost predicate MapsOK(st: State)
  {
    && (forall p {:trigger MapOK(st.tags, p, st.maps[p])} | p in st.maps :: MapOK(st.tags, p, st.maps[p]))
    && (forall p, q {:trigger MapApart(st.maps[p], st.maps[q].base, st.maps[q].len)} | p in st.maps && q in st.maps
       && p != q ::
          MapApart(st.maps[p], st.maps[q].base, st.maps[q].len))
    && (forall p, k: nat {:trigger MapApart(st.maps[p], st.segs[k].base, st.segs[k].size)} | p in st.maps
       && k < |st.segs| ::
          MapApart(st.maps[p], st.segs[k].base, st.segs[k].size))
  }

  // ----- Footprint and bounds -----

  function SegSizes(segs: seq<Segment>): nat
  {
    if segs == [] then 0 else segs[0].size + SegSizes(segs[1..])
  }

  ghost function MapSizes(maps: map<Addr, Mapping>): nat
  {
    if maps == map[] then 0 else
      var p :| p in maps;
      maps[p].len + MapSizes(maps - {p})
  }

  /** The footprint counts segments and mapped chunks; it stays below the size from which tree indices
      would lose bits. */
  ghost predicate FootprintOK(st: State)
  {
    st.footprint == SegSizes(st.segs) + MapSizes(st.maps) && st.footprint < TreeIndex.INDEX_LIMIT
  }

  /** `least_addr` is at most every address that the checks compare with it, and 0 before there is any. */
  ghost predicate LeastOK(st: State)
  {
    && (st.least == 0 ==> st.tags.ch == map[] && st.maps == map[])
    && (forall p {:trigger p in st.tags.ch} | p in st.tags.ch :: st.least <= p)
    && (forall p {:trigger p in st.maps} | p in st.maps :: st.least <= p)
  }

  /** The invariant, while the free chunks in `X` are out of their bins and those in `Y` are in use for
      the allocator itself. */
  ghost predicate Inv(st: State, X: set<Addr>, Y: set<Addr>)
  {
    OK(st.tags) && DvTopOK(st) && BinsMatch(st, X) && SegsOK(st.tags, st.segs) && UsedOK(st, Y)
    && MapsOK(st) && FootprintOK(st) && LeastOK(st)
  }

  // ----- What a client sees of its blocks -----

  /** The words of an ordinary block that belong to the client reach into the next chunk's prev_foot. */
  predicate SameBlock(h: Tags, h': Tags, p: Addr, n: nat)
  {
    forall w: Addr {:trigger h'.W(w)} | p + 16 <= w < p + n + 8 :: h'.W(w) == h.W(w)
  }

  /** So do those of a mapped block, up to its fake end. */
  predicate SameMapped(h: Tags, h': Tags, p: Addr, m: Mapping)
  {
    forall w: Addr {:trigger h'.W(w)} | p <= w < m.base + m.len - 8 :: h'.W(w) == h.W(w)
  }

  predicate BlockKept(st: State, st': State, p: Addr)
  {
    && (p in st.live && p in st.tags.ch ==>
          && p in st'.live && p in st'.tags.ch && st'.tags.ch[p] == st.tags.ch[p]
          && SameBlock(st.tags, st'.tags, p, st.tags.ch[p]))
    && (p in st.maps ==> p in st'.maps && st'.maps[p] == st.maps[p] && SameMapped(st.tags, st'.tags, p, st.maps[p]))
  }

  /** All blocks but those in `D` are live as before, with the same size and contents. */
  ghost predicate OthersKept(st: State, st': State, D: set<Addr>)
  {
    forall p {:trigger BlockKept(st, st', p)} | p !in D :: BlockKept(st, st', p)
  }
}
