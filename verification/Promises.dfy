/** What allocation promises, in bytes and addresses: where a request is served from, how much it gets, and what the
    system is asked for. */
module Promises {
  import opened BoundaryTags
  import opened HeapState

  /** A chunk of this size holds the bytes and its own head. */
  predicate Fits(size: nat, bytes: nat)
  {
    bytes + 8 <= size
  }

  /** And it is the least that a chunk can be, or no smaller one would do. */
  predicate Exact(size: nat, bytes: nat)
  {
    Fits(size, bytes) && (size == 32 || size < bytes + 24)
  }

  // ----- Where a request is served from -----

  predicate FreeFor(st: State, p: Addr, bytes: nat)
  {
    p in st.tags.ch && p !in st.tags.used && p != st.tags.top && Fits(st.tags.ch[p], bytes)
  }

  /** Top keeps 16 bytes at least. */
  predicate TopServes(st: State, bytes: nat)
  {
    32 < st.topsize && bytes + 24 <= st.topsize
  }

  /** There is room for the request without the system. */
  ghost predicate HeapServes(st: State, bytes: nat)
  {
    (exists p :: FreeFor(st, p, bytes)) || TopServes(st, bytes)
  }

  ghost predicate NoneFit(bin: map<Addr, nat>, bytes: nat)
  {
    forall q | q in bin :: !Fits(bin[q], bytes)
  }

  /** A least one of the chunks that fit */
  ghost predicate Tightest(bin: map<Addr, nat>, p: Addr, bytes: nat)
  {
    p in bin && Fits(bin[p], bytes) && forall q | q in bin && Fits(bin[q], bytes) :: bin[p] <= bin[q]
  }

  /** Small requests: a small chunk of just that size; else dv; else the least small chunk, the least large one, top */
  ghost predicate SmallChoice(st: State, bytes: nat, p: Addr)
  {
    if exists q :: q in st.small && Exact(st.small[q], bytes) then p in st.small && Exact(st.small[p], bytes)
    else if Fits(st.dvsize, bytes) then p == st.dv
    else if !NoneFit(st.small, bytes) then Tightest(st.small, p, bytes)
    else if st.tree != map[] then Tightest(st.tree, p, bytes)
    else p == st.tags.top && TopServes(st, bytes)
  }

  /** Large requests: the least large chunk that fits more tightly than dv; else dv; else top */
  ghost predicate LargeChoice(st: State, bytes: nat, p: Addr)
  {
    if exists q :: q in st.tree && Fits(st.tree[q], bytes) && (Fits(st.dvsize, bytes) ==> st.tree[q] < st.dvsize)
    then Tightest(st.tree, p, bytes)
    else if Fits(st.dvsize, bytes) then p == st.dv
    else p == st.tags.top && TopServes(st, bytes)
  }

  ghost predicate Choice(st: State, bytes: nat, p: Addr)
  {
    if bytes <= 232 then SmallChoice(st, bytes, p) else LargeChoice(st, bytes, p)
  }

  // ----- What the system is asked for -----

  /** `n` rounded up to a multiple of `unit` */
  function RoundedUp(n: nat, unit: nat): nat
    requires unit == 4096 || unit == 65536
  {
    (n + unit - 1) / unit * unit
  }

  /** The system gives memory, and the limit, if there is one, allows `size` bytes more. */
  predicate Given(st: State, limit: nat, answer: Addr, size: nat)
  {
    answer != 0xFFFF_FFFF_FFFF_FFFF && (limit == 0 || st.footprint + size <= limit)
  }

  /** Large enough for a mapping of its own, which is not made before there is a segment */
  predicate OwnMapping(st: State, limit: nat, bytes: nat, direct: Addr)
  {
    bytes >= 262121 && st.topsize > 0 && Given(st, limit, direct, RoundedUp(bytes + 128, 4096))
  }

  /** What the footprint grows by is what the request needs, in pages for a mapping of its own, in units of 64 KiB
      for a segment. */
  predicate GrownBy(st: State, st': State, bytes: nat, p: Addr)
  {
    if p in st'.maps then
      && bytes >= 262121 && st.topsize > 0 && st'.maps[p].len % 4096 == 0
      && bytes + 48 <= st'.maps[p].len <= RoundedUp(bytes + 128, 4096)
      && st'.footprint == st.footprint + st'.maps[p].len
    else
      && st.footprint <= st'.footprint && (st'.footprint - st.footprint) % 65536 == 0
      && bytes + 96 <= st'.footprint - st.footprint <= RoundedUp(bytes + 128, 65536)
  }

  /** Memory from the system extends a segment that it touches, the one with top at its end, any at its base; else
      it is a segment of its own, in front of the list, and the one with top gets a record. */
  ghost predicate Placed(segs: seq<Segment>, segs': seq<Segment>, base: Addr, size: nat)
  {
    if segs == [] then segs' == [Segment(base, size, 0)]
    else if segs[0].base + segs[0].size == base then
      segs' == [Segment(segs[0].base, segs[0].size + size, segs[0].rec)] + segs[1..]
    else if exists k: nat :: Before(segs, k, base, size) then
      exists k: nat ::
        Before(segs, k, base, size) && segs' == segs[k := Segment(base, segs[k].size + size, segs[k].rec)]
    else
      && |segs'| == |segs| + 1 && segs'[0] == Segment(base, size, 0)
      && segs'[1].base == segs[0].base && segs'[1].size == segs[0].size && segs'[2..] == segs[1..]
  }

  predicate Before(segs: seq<Segment>, k: nat, base: Addr, size: nat)
  {
    k < |segs| && segs[k].base == base + size
  }

  // ----- What a request comes to -----

  /** The block has room for the bytes. */
  predicate Holds(st: State, p: Addr, bytes: nat)
  {
    if p in st.maps then bytes + 16 <= st.tags.HeadOf(p) else
      p in st.live && p in st.tags.ch && Fits(st.tags.ch[p], bytes)
  }

  /** And, unless it was mapped for itself, wastes little. */
  predicate Sized(st: State, p: Addr, bytes: nat)
  {
    Holds(st, p, bytes) && (p in st.maps || st.tags.ch[p] < 64 || st.tags.ch[p] < bytes + 56)
  }

  /** `malloc(bytes)`: null only if neither the heap nor the system can serve the request */
  ghost predicate Allocated(st: State, st': State, limit: nat, bytes: nat, direct: Addr, mp: Addr, mem: Addr)
  {
    && (mem == 0 ==> st' == st)
    && (mem != 0 ==> mem >= 16 && mem % 16 == 0 && Sized(st', mem - 16, bytes))
    && if bytes >= 0xFFFF_FFFF_FFFF_FF80 then mem == 0
       else if HeapServes(st, bytes) then
         mem >= 16 && mem - 16 !in st'.maps && Choice(st, bytes, mem - 16) && st'.footprint == st.footprint
       else
         && (OwnMapping(st, limit, bytes, direct) ==> mem >= 16 && mem - 16 in st'.maps)
         && (Given(st, limit, mp, RoundedUp(bytes + 128, 65536)) ==> mem != 0)
         && (mem >= 16 ==> GrownBy(st, st', bytes, mem - 16) && (limit == 0 || st'.footprint <= limit))
  }

  /** Of that, what the heap alone decides */
  ghost predicate HeapAnswer(st: State, st': State, bytes: nat, mem: Addr)
  {
    && (mem != 0 ==> mem >= 16 && Sized(st', mem - 16, bytes))
    && if bytes >= 0xFFFF_FFFF_FFFF_FF80 then mem == 0
       else HeapServes(st, bytes) ==>
         mem >= 16 && mem - 16 !in st'.maps && Choice(st, bytes, mem - 16) && st'.footprint == st.footprint
  }

  lemma HeapDecides(st: State, st': State, limit: nat, bytes: nat, direct: Addr, mp: Addr, mem: Addr)
    requires Allocated(st, st', limit, bytes, direct, mp, mem)
    ensures HeapAnswer(st, st', bytes, mem)
  {
    hide HeapServes, Choice, Sized;
  }

  // ----- Contents -----

  /** Byte `i` of a word, the lowest first */
  function ByteOf(v: nat, i: nat): nat
  {
    if i == 0 then v % 256 else ByteOf(v / 256, i - 1)
  }

  /** The byte at an address, in the word at the multiple of 8 below */
  function ByteAt(st: State, a: Addr): nat
  {
    ByteOf(st.tags.W(a - a % 8), a % 8)
  }

  /** Byte `j` is one of those that the block may hold. */
  predicate Within(st: State, p: Addr, j: nat)
  {
    if p in st.maps then j + 16 < st.tags.HeadOf(p) else p in st.tags.ch && j + 8 < st.tags.ch[p]
  }

  predicate SameByte(st: State, st': State, oldmem: Addr, mem: Addr, j: nat)
  {
    ByteAt(st', mem + j) == ByteAt(st, oldmem + j)
  }

  /** The new block's first bytes are the old one's, as many as both have. */
  ghost predicate KeepsBytes(st: State, st': State, oldmem: Addr, mem: Addr, bytes: nat)
    requires oldmem >= 16
  {
    forall j: nat | j < bytes && Within(st, oldmem - 16, j) :: SameByte(st, st', oldmem, mem, j)
  }

  // ----- Resizing -----

  /** The block can be resized where it is: it is large enough, or it is with the free memory right behind it; one
      mapped for itself, if the request is large and leaves 128 KiB at most. */
  predicate RoomInPlace(st: State, p: Addr, bytes: nat)
  {
    if p in st.maps then bytes > 232 && bytes + 24 <= st.tags.HeadOf(p) < bytes + 131096 else
      p in st.tags.ch &&
      var s, n := st.tags.ch[p], p + st.tags.ch[p];
      || Fits(s, bytes)
      || (n in st.tags.ch && n !in st.tags.used
          && if n == st.tags.top then 32 < s + st.topsize && bytes + 24 <= s + st.topsize
             else Fits(s + st.tags.ch[n], bytes))
  }

  /** `realloc(oldmem, bytes)`: in place exactly if there is room, and null only if malloc could not serve it, either;
      the contents stay. */
  ghost predicate Reallocated(st: State, st': State, limit: nat, bytes: nat, direct: Addr, mp: Addr, oldmem: Addr,
      mem: Addr)
  {
    && (mem == 0 ==> st' == st)
    && (mem != 0 ==> mem >= 16 && Holds(st', mem - 16, bytes))
    && if oldmem < 16 then Allocated(st, st', limit, bytes, direct, mp, mem)
       else if bytes >= 0xFFFF_FFFF_FFFF_FF80 then mem == 0
       else
         && (mem == oldmem <==> RoomInPlace(st, oldmem - 16, bytes))
         && (mem != 0 ==> KeepsBytes(st, st', oldmem, mem, bytes))
         && (HeapServes(st, bytes) ==> mem != 0) && (OwnMapping(st, limit, bytes, direct) ==> mem != 0)
         && (Given(st, limit, mp, RoundedUp(bytes + 128, 65536)) ==> mem != 0)
  }

  /** Of that, what the heap alone decides, for a block */
  ghost predicate HeapResize(st: State, st': State, bytes: nat, oldmem: Addr, mem: Addr)
    requires oldmem >= 16
  {
    && (mem != 0 ==> mem >= 16 && Holds(st', mem - 16, bytes))
    && if bytes >= 0xFFFF_FFFF_FFFF_FF80 then mem == 0
       else
         && (mem == oldmem <==> RoomInPlace(st, oldmem - 16, bytes)) && (HeapServes(st, bytes) ==> mem != 0)
         && (mem != 0 ==> KeepsBytes(st, st', oldmem, mem, bytes))
  }

  lemma HeapResizes(st: State, st': State, limit: nat, bytes: nat, direct: Addr, mp: Addr, oldmem: Addr, mem: Addr)
    requires Reallocated(st, st', limit, bytes, direct, mp, oldmem, mem)
    ensures if oldmem >= 16 then HeapResize(st, st', bytes, oldmem, mem) else HeapAnswer(st, st', bytes, mem)
    ensures mem == 0 ==> st' == st
  {
    hide HeapServes, RoomInPlace, Holds, Allocated, KeepsBytes;
    if oldmem < 16 {
      HeapDecides(st, st', limit, bytes, direct, mp, mem);
    }
  }

  /** `memalign(a, bytes)`, null: neither the heap nor the system has room for the bytes and the alignment. */
  ghost predicate NoneAligned(st: State, limit: nat, bytes: nat, a: nat, direct: Addr, mp: Addr)
  {
    bytes + a + 56 < 0xFFFF_FFFF_FFFF_FF80 ==>
      && !HeapServes(st, bytes + a + 56)
      && (bytes >= 262121 ==> !OwnMapping(st, limit, bytes + a + 56, direct))
      && !Given(st, limit, mp, RoundedUp(bytes + a + 184, 65536))
  }

  /** Of that, what the heap alone decides */
  ghost predicate HeapAligns(st: State, st': State, bytes: nat, a: nat, mem: Addr)
  {
    && (mem != 0 ==> mem >= 16 && Holds(st', mem - 16, bytes))
    && (bytes + a >= 0xFFFF_FFFF_FFFF_FF80 ==> mem == 0)
    && (bytes + a + 56 < 0xFFFF_FFFF_FFFF_FF80 && HeapServes(st, bytes + a + 56) ==> mem != 0)
  }

  lemma HeapAlignsIt(st: State, st': State, limit: nat, bytes: nat, a: nat, direct: Addr, mp: Addr, mem: Addr)
    requires mem == 0 ==> NoneAligned(st, limit, bytes, a, direct, mp)
    requires mem != 0 ==> mem >= 16 && Holds(st', mem - 16, bytes) && bytes + a < 0xFFFF_FFFF_FFFF_FF80
    ensures HeapAligns(st, st', bytes, a, mem)
  {
    hide HeapServes, Holds;
  }
}
