/** The address ranges of the kernel: the sorted, doubly linked list in `kernel/mm/virtual.c`. */
module VmList {

  const WORD := 0x1_0000_0000_0000_0000
  const PAGE := 4096

  type Word = x: int | 0 <= x < WORD

  /** Arithmetic on `uintptr_t` */
  function Wrap(x: int): Word
  {
    x % WORD
  }

  lemma Wraps(x: int)
    requires -2 * WORD <= x < 2 * WORD
    ensures Wrap(x) == if x < -WORD then x + 2 * WORD else if x < 0 then x + WORD else if x < WORD then x else x - WORD
  {
  }

  const VM_FREE: Word := 1
  const VM_USED: Word := 2

  /** `flags & VM_FREE` */
  predicate IsFree(flags: Word)
  {
    flags % 2 == 1
  }

  /** `flags & VM_USED` */
  predicate IsUsed(flags: Word)
  {
    flags / 2 % 2 == 1
  }

  /** `(flags & ~VM_FREE) | VM_USED` */
  function MarkUsed(flags: Word): Word
  {
    flags / 4 * 4 + 2
  }

  /** `(flags & ~VM_USED) | VM_FREE` */
  function MarkFree(flags: Word): Word
  {
    flags / 4 * 4 + 1
  }

  lemma Marks(flags: Word)
    ensures IsUsed(MarkUsed(flags)) && !IsFree(MarkUsed(flags)) && IsFree(MarkFree(flags)) && !IsUsed(MarkFree(flags))
    ensures MarkUsed(flags) / 4 == flags / 4 && MarkFree(flags) / 4 == flags / 4
  {
    FourTimes(flags / 4);
  }

  lemma FourTimes(q: nat)
    ensures (q * 4 + 2) / 2 % 2 == 1 && (q * 4 + 2) % 2 == 0 && (q * 4 + 1) % 2 == 1 && (q * 4 + 1) / 2 % 2 == 0
    ensures (q * 4 + 2) / 4 == q && (q * 4 + 1) / 4 == q
  {
    assert (q * 4 + 2) / 2 == q * 2 + 1 && (q * 4 + 1) / 2 == q * 2;
  }

  lemma KnownMarks()
    ensures IsFree(VM_FREE) && !IsUsed(VM_FREE) && IsUsed(VM_USED) && !IsFree(VM_USED) && !IsFree(0) && !IsUsed(0)
  {
  }

  // ----- Ranges -----

  datatype Range = Range(start: Word, len: Word, flags: Word)

  function End(r: Range): nat
  {
    r.start + r.len
  }

  /** The last byte as the code computes it */
  function Last(start: Word, len: Word): Word
  {
    Wrap(start + len - 1)
  }

  predicate RangeOK(r: Range)
  {
    r.start % PAGE == 0 && r.len % PAGE == 0 && End(r) <= WORD
  }

  /** Page-aligned ranges, in order and without a gap */
  ghost predicate Tiling(rs: seq<Range>)
  {
    && (forall i {:trigger rs[i]} | 0 <= i < |rs| :: RangeOK(rs[i]))
    && forall i {:trigger Follows(rs, i)} | 0 <= i < |rs| - 1 :: Follows(rs, i)
  }

  predicate Follows(rs: seq<Range>, i: nat)
    requires i + 1 < |rs|
  {
    End(rs[i]) == rs[i + 1].start
  }

  function Low(rs: seq<Range>): nat
    requires rs != []
  {
    rs[0].start
  }

  function High(rs: seq<Range>): nat
    requires rs != []
  {
    End(rs[|rs| - 1])
  }

  lemma RangeAt(rs: seq<Range>, k: nat)
    requires Tiling(rs) && k < |rs|
    ensures RangeOK(rs[k])
  {
  }

  /** Ranges of a tiling do not overlap, and their order is that of their addresses. */
  lemma {:induction false} Sorted(rs: seq<Range>, i: nat, j: nat)
    requires Tiling(rs) && i < j < |rs|
    ensures End(rs[i]) <= rs[j].start
    decreases j - i
  {
    assert Follows(rs, i);
    assert RangeOK(rs[i]) && RangeOK(rs[j]);
    if i + 1 < j {
      Sorted(rs, i + 1, j);
    }
  }

  /** Every address of the interval is in a range. */
  lemma {:induction false} Covered(rs: seq<Range>, a: nat) returns (i: nat)
    requires rs != [] && Tiling(rs) && Low(rs) <= a < High(rs)
    ensures i < |rs| && rs[i].start <= a < End(rs[i])
    decreases |rs|
  {
    i := |rs| - 1;
    if a < rs[i].start {
      assert Follows(rs, i - 1);
      Prefix(rs);
      i := Covered(rs[..|rs| - 1], a);
    }
  }

  lemma Prefix(rs: seq<Range>)
    requires |rs| > 1 && Tiling(rs)
    ensures Tiling(rs[..|rs| - 1])
  {
    var p := rs[..|rs| - 1];
    forall i | 0 <= i < |p| - 1 ensures Follows(p, i) {
      assert Follows(rs, i);
    }
  }

  // ----- What the operations do to the ranges -----

  /** Range `k` is replaced. */
  function Splice(rs: seq<Range>, k: nat, pieces: seq<Range>): seq<Range>
    requires k < |rs|
  {
    rs[..k] + pieces + rs[k + 1..]
  }

  /** One element more, behind element `k` */
  function Inserted<T>(s: seq<T>, k: nat, x: T): (r: seq<T>)
    requires k < |s|
    ensures |r| == |s| + 1 && r[k + 1] == x
  {
    s[..k + 1] + [x] + s[k + 1..]
  }

  lemma SpliceOne(rs: seq<Range>, k: nat, r: Range)
    requires k < |rs|
    ensures Splice(rs, k, [r]) == rs[k := r]
  {
  }

  lemma SpliceTwo(rs: seq<Range>, k: nat, a: Range, b: Range)
    requires k < |rs|
    ensures Splice(rs, k, [a, b]) == Inserted(rs[k := a], k, b)
  {
  }

  lemma SpliceThree(rs: seq<Range>, k: nat, a: Range, b: Range, c: Range)
    requires k < |rs|
    ensures Splice(rs, k, [a, b, c]) == Inserted(Inserted(rs[k := a], k, b), k + 1, c)
  {
  }

  /** Replacing a range by ranges that tile it keeps the tiling. */
  lemma SpliceTiles(rs: seq<Range>, k: nat, pieces: seq<Range>)
    requires Tiling(rs) && k < |rs| && pieces != [] && Tiling(pieces) && Low(pieces) == rs[k].start
    requires High(pieces) == End(rs[k])
    ensures Tiling(Splice(rs, k, pieces)) && Low(Splice(rs, k, pieces)) == Low(rs)
    ensures High(Splice(rs, k, pieces)) == High(rs)
  {
    var s, b := Splice(rs, k, pieces), |pieces|;
    forall i | 0 <= i < |s| ensures RangeOK(s[i]) {
      if k <= i < k + b {
        assert s[i] == pieces[i - k];
      } else {
        assert s[i] == if i < k then rs[i] else rs[i - b + 1];
      }
    }
    forall i | 0 <= i < |s| - 1 ensures Follows(s, i) {
      SpliceFollows(rs, k, pieces, i);
    }
  }

  lemma SpliceFollows(rs: seq<Range>, k: nat, pieces: seq<Range>, i: nat)
    requires Tiling(rs) && k < |rs| && pieces != [] && Tiling(pieces) && Low(pieces) == rs[k].start
    requires High(pieces) == End(rs[k])
    requires i + 1 < |Splice(rs, k, pieces)|
    ensures Follows(Splice(rs, k, pieces), i)
  {
    var b := |pieces|;
    if i + 1 < k {
      assert Follows(rs, i);
    } else if i + 1 == k {
      assert Follows(rs, i);
    } else if i + 1 < k + b {
      assert Follows(pieces, i - k);
    } else {
      assert Follows(rs, i - b + 1);
    }
  }

  /** `pages << 12` */
  function Bytes(pages: Word): Word
  {
    Wrap(pages * PAGE)
  }

  predicate Fits(r: Range, size: Word)
  {
    IsFree(r.flags) && r.len >= size
  }

  /** The first free range that is large enough */
  ghost predicate FirstFit(rs: seq<Range>, k: nat, size: Word)
  {
    k < |rs| && Fits(rs[k], size) && forall j | 0 <= j < k :: !Fits(rs[j], size)
  }

  /** It is the one with the lowest address. */
  lemma FirstIsLowest(rs: seq<Range>, k: nat, size: Word)
    requires Tiling(rs) && FirstFit(rs, k, size)
    ensures forall j | 0 <= j < |rs| && Fits(rs[j], size) :: rs[k].start <= rs[j].start
  {
    forall j | 0 <= j < |rs| && Fits(rs[j], size) ensures rs[k].start <= rs[j].start {
      if j != k {
        Sorted(rs, k, j);
      }
    }
  }

  /** What becomes of the range that `size` bytes are taken from */
  function Taken(r: Range, size: Word): seq<Range>
    requires r.len >= size
  {
    if r.len == size then [r.(flags := MarkUsed(r.flags))]
    else [Range(r.start, size, MarkUsed(r.flags)), Range(Wrap(r.start + size), r.len - size, r.flags)]
  }

  lemma PageWrap(pages: Word)
    ensures Bytes(pages) % PAGE == 0
  {
  }

  lemma TakenTiles(r: Range, size: Word)
    requires RangeOK(r) && r.len >= size && size % PAGE == 0
    ensures var t := Taken(r, size); Tiling(t) && Low(t) == r.start && High(t) == End(r)
  {
    if r.len > size {
      assert r.start + size < WORD;
      Difference(r.len, size);
      Sum(r.start, size);
    }
  }

  lemma Difference(a: nat, b: nat)
    requires a % PAGE == 0 && b % PAGE == 0 && b <= a
    ensures (a - b) % PAGE == 0
  {
  }

  lemma Sum(a: nat, b: nat)
    requires a % PAGE == 0 && b % PAGE == 0
    ensures (a + b) % PAGE == 0
  {
  }

  /** Where `mm_virtual_range_set` returns on a list that is not empty: it splits the last range, and the new one
      does not end where the last one ends. */
  predicate Splits(last: Range, addr: Word, len: Word)
  {
    last.start <= addr && Last(last.start, last.len) >= Last(addr, len) && Last(last.start, last.len) != Last(addr, len)
  }

  lemma SplitsStart(last: Range, addr: Word, len: Word)
    requires Splits(last, addr, len)
    ensures last.start <= addr
  {
  }

  /** What becomes of the last range */
  function Split(last: Range, addr: Word, len: Word, flags: Word): (s: seq<Range>)
    requires last.start <= addr
    ensures s != []
  {
    if last.start == addr then
      [Range(addr, len, flags), Range(Wrap(addr + len), Wrap(last.len - len), last.flags)]
    else
      [Range(last.start, addr - last.start, last.flags), Range(addr, len, flags),
       Range(Wrap(addr + len), Wrap(last.len - (addr - last.start) - len), 0)]
  }

  /** The pieces tile the last range if and only if the new range does not wrap around. */
  lemma SplitTiles(last: Range, addr: Word, len: Word, flags: Word)
    requires RangeOK(last) && Splits(last, addr, len) && addr % PAGE == 0 && len % PAGE == 0
    ensures var s := Split(last, addr, len, flags);
            addr + len <= WORD && End(last) > 0 <==> Tiling(s) && Low(s) == last.start && High(s) == End(last)
  {
    if End(last) == 0 {
      NothingSplit(last, addr, len, flags);
    } else if addr + len <= WORD {
      WithinLast(last, addr, len);
      SplitAligned(last, addr, len);
      SplitParts(last, addr, len, flags);
    } else {
      var s := Split(last, addr, len, flags);
      assert !Follows(s, |s| - 2);
    }
  }

  lemma SplitAligned(last: Range, addr: Word, len: Word)
    requires RangeOK(last) && last.start <= addr && addr + len < End(last) && addr % PAGE == 0 && len % PAGE == 0
    ensures (addr - last.start) % PAGE == 0 && (End(last) - (addr + len)) % PAGE == 0 && (addr + len) % PAGE == 0
  {
    Sum(last.start, last.len);
    Sum(addr, len);
    Difference(addr, last.start);
    Difference(End(last), addr + len);
  }

  /** Without wrapping, the new range is inside the last one and ends before it does. */
  lemma WithinLast(last: Range, addr: Word, len: Word)
    requires RangeOK(last) && End(last) > 0 && Splits(last, addr, len) && addr + len <= WORD
    ensures last.start <= addr && addr + len < End(last)
  {
  }

  /** A last range without any address, at 0, is split although nothing can be inside it. */
  lemma NothingSplit(last: Range, addr: Word, len: Word, flags: Word)
    requires RangeOK(last) && Splits(last, addr, len) && End(last) == 0
    ensures High(Split(last, addr, len, flags)) > 0
  {
    hide Wrap;
    Wraps(-1);
    Wraps(addr + len - 1);
    Wraps(addr + len);
    Wraps(0 - addr - len);
    Wraps(0 - len);
  }

  lemma SplitParts(last: Range, addr: Word, len: Word, flags: Word)
    requires RangeOK(last) && last.start <= addr && addr + len < End(last)
    requires addr % PAGE == 0 && len % PAGE == 0 && (addr - last.start) % PAGE == 0
    requires (End(last) - (addr + len)) % PAGE == 0 && (addr + len) % PAGE == 0
    ensures var s := Split(last, addr, len, flags); Tiling(s) && Low(s) == last.start && High(s) == End(last)
  {
    var s := Split(last, addr, len, flags);
    assert s[|s| - 1].start == addr + len && s[|s| - 1].len == End(last) - (addr + len);
    if last.start == addr {
      assert Follows(s, 0);
    } else {
      assert Follows(s, 0) && Follows(s, 1);
    }
  }

  /** A range that wraps around is accepted and breaks the tiling. */
  lemma WrappingBreaks()
    ensures var last := Range(0x1000, 0x4000, VM_FREE); var len := WORD - 0x1000;
            RangeOK(last) && Splits(last, 0x2000, len) && !Tiling(Split(last, 0x2000, len, VM_USED))
  {
    var last := Range(0x1000, 0x4000, VM_FREE);
    SplitTiles(last, 0x2000, WORD - 0x1000, VM_USED);
    var s := Split(last, 0x2000, WORD - 0x1000, VM_USED);
    assert !Follows(s, 1);
  }

  /** The ranges after `mm_virtual_range_set` */
  function AfterSet(rs: seq<Range>, addr: Word, len: Word, flags: Word): seq<Range>
    requires rs != [] ==> Splits(rs[|rs| - 1], addr, len)
  {
    if rs == [] then [Range(addr, len, flags)] else Splice(rs, |rs| - 1, Split(rs[|rs| - 1], addr, len, flags))
  }

  /** A set range keeps the tiling of an interval if and only if it does not wrap around, unless the interval is
      the empty one at 0. */
  lemma SetTiles(rs: seq<Range>, addr: Word, len: Word, flags: Word)
    requires Tiling(rs) && rs != [] && Splits(rs[|rs| - 1], addr, len) && addr % PAGE == 0 && len % PAGE == 0
    ensures var s := AfterSet(rs, addr, len, flags);
            s != [] && (addr + len <= WORD && High(rs) > 0 <==> Tiling(s) && Low(s) == Low(rs) && High(s) == High(rs))
  {
    hide Split, Wrap, Splits, Tiling;
    var k := |rs| - 1;
    var last := rs[k];
    RangeAt(rs, |rs| - 1);
    SplitTiles(last, addr, len, flags);
    SplitsStart(last, addr, len);
    var pieces := Split(last, addr, len, flags);
    var s := AfterSet(rs, addr, len, flags);
    if addr + len <= WORD && End(last) > 0 {
      SpliceTiles(rs, k, pieces);
    } else if Tiling(s) && Low(s) == Low(rs) && High(s) == High(rs) {
      assert s == rs[..k] + pieces;
      LastTiles(rs, pieces);
    }
  }

  lemma LastTiles(rs: seq<Range>, pieces: seq<Range>)
    requires rs != [] && pieces != [] && Tiling(rs) && Tiling(rs[..|rs| - 1] + pieces)
    requires Low(rs[..|rs| - 1] + pieces) == Low(rs)
    ensures Tiling(pieces) && Low(pieces) == rs[|rs| - 1].start
  {
    var k, s := |rs| - 1, rs[..|rs| - 1] + pieces;
    forall i | 0 <= i < |pieces| ensures RangeOK(pieces[i]) {
      assert s[k + i] == pieces[i];
    }
    forall i | 0 <= i < |pieces| - 1 ensures Follows(pieces, i) {
      assert Follows(s, k + i);
    }
    if k > 0 {
      assert Follows(s, k - 1) && Follows(rs, k - 1);
    }
  }

  // ----- Address by address -----

  /** Address `a` is in range `i`. */
  predicate At(rs: seq<Range>, i: nat, a: nat)
  {
    i < |rs| && rs[i].start <= a < rs[i].start + rs[i].len
  }

  /** It is in a range with these flags. */
  ghost predicate Has(rs: seq<Range>, a: nat, f: Word)
  {
    exists i: nat :: At(rs, i, a) && rs[i].flags == f
  }

  ghost predicate FreeAt(rs: seq<Range>, a: nat)
  {
    exists i: nat :: At(rs, i, a) && rs[i].flags % 2 == 1
  }

  ghost predicate UsedAt(rs: seq<Range>, a: nat)
  {
    exists i: nat :: At(rs, i, a) && rs[i].flags / 2 % 2 == 1
  }

  /** There is a range in use from `start` on with just this length. */
  ghost predicate UsedRange(rs: seq<Range>, start: nat, len: nat)
  {
    exists i: nat :: IsRange(rs, i, start, len) && rs[i].flags / 2 % 2 == 1
  }

  predicate IsRange(rs: seq<Range>, i: nat, start: nat, len: nat)
  {
    i < |rs| && rs[i].start == start && rs[i].len == len
  }

  /** A free range of `size` bytes or more starts at `addr`, and none at a lower address. */
  ghost predicate LowestFree(rs: seq<Range>, addr: nat, size: nat)
  {
    && (exists i: nat :: LargeFree(rs, i, size) && rs[i].start == addr)
    && forall j: nat | LargeFree(rs, j, size) :: addr <= rs[j].start
  }

  predicate LargeFree(rs: seq<Range>, i: nat, size: nat)
  {
    i < |rs| && rs[i].flags % 2 == 1 && size <= rs[i].len
  }

  /** [addr, addr + size) is no longer free but in use, as a range of its own; nothing else has changed. */
  ghost predicate Took(rs: seq<Range>, rs': seq<Range>, addr: nat, size: nat)
  {
    && (forall a: nat :: FreeAt(rs', a) <==> FreeAt(rs, a) && !(addr <= a < addr + size))
    && (forall a: nat :: UsedAt(rs', a) <==> UsedAt(rs, a) || addr <= a < addr + size)
    && UsedRange(rs', addr, size)
    && forall b: nat, n: nat | b != addr && UsedRange(rs, b, n) :: UsedRange(rs', b, n)
  }

  /** [addr, addr + size) was in use as a range, and is free; nothing else has changed. */
  ghost predicate Gave(rs: seq<Range>, rs': seq<Range>, addr: nat, size: nat)
  {
    && UsedRange(rs, addr, size)
    && (forall a: nat :: FreeAt(rs', a) <==> FreeAt(rs, a) || addr <= a < addr + size)
    && (forall a: nat :: UsedAt(rs', a) <==> UsedAt(rs, a) && !(addr <= a < addr + size))
    && forall b: nat, n: nat | b != addr && UsedRange(rs, b, n) :: UsedRange(rs', b, n)
  }

  /** [addr, addr + len) has the flags that were asked for; what is behind it keeps its flags if the new range is at
      the start of the one that it splits, and has none otherwise; what is before it is as it was. */
  ghost predicate WasSet(rs: seq<Range>, rs': seq<Range>, addr: nat, len: nat, flags: Word)
  {
    forall a: nat, f: Word :: Has(rs', a, f) <==>
      if addr <= a < addr + len then f == flags
      else if a < addr || (rs != [] && rs[|rs| - 1].start == addr) then Has(rs, a, f)
      else rs != [] && a < rs[|rs| - 1].start + rs[|rs| - 1].len && f == 0
  }

  /** What `mm_virtual_alloc(pages)` does: first fit, 0 and no change if there is none */
  ghost predicate Answered(rs: seq<Range>, rs': seq<Range>, pages: nat, addr: nat)
  {
    var size := pages * 4096 % 0x1_0000_0000_0000_0000;
    if pages > 0 && exists j: nat :: LargeFree(rs, j, size) then LowestFree(rs, addr, size) && Took(rs, rs', addr, size)
    else addr == 0 && rs' == rs
  }

  /** What `mm_virtual_free(addr)` does: the range in use that starts there, if there is one, is free. */
  ghost predicate GivenBack(rs: seq<Range>, rs': seq<Range>, addr: nat, ret: nat)
  {
    if exists n: nat :: UsedRange(rs, addr, n) then Gave(rs, rs', addr, ret) else ret == 0 && rs' == rs
  }

  lemma NoneLarge(rs: seq<Range>, pages: Word, k: nat)
    ensures Bytes(pages) == pages * 4096 % 0x1_0000_0000_0000_0000
    ensures k < |rs| && Fits(rs[k], Bytes(pages)) ==> LargeFree(rs, k, Bytes(pages))
    ensures k >= |rs| && (forall j | 0 <= j < |rs| :: !Fits(rs[j], Bytes(pages))) ==>
              forall j: nat :: !LargeFree(rs, j, Bytes(pages))
  {
    hide Wrap;
    assert Bytes(pages) == pages * 4096 % 0x1_0000_0000_0000_0000 by {
      assert Wrap(pages * PAGE) == pages * 4096 % 0x1_0000_0000_0000_0000 by {
        WrapIs(pages * PAGE);
      }
    }
  }

  lemma WrapIs(x: int)
    ensures Wrap(x) == x % 0x1_0000_0000_0000_0000
  {
  }

  lemma NoneHeld(rs: seq<Range>, addr: Word, k: nat)
    ensures k < |rs| && Holds(rs[k], addr) ==> UsedRange(rs, addr, rs[k].len)
    ensures k >= |rs| && (forall j | 0 <= j < |rs| :: !Holds(rs[j], addr)) ==> forall n: nat :: !UsedRange(rs, addr, n)
  {
    if k < |rs| && Holds(rs[k], addr) {
      assert IsRange(rs, k, addr, rs[k].len);
    }
  }

  lemma SetIf(rs: seq<Range>, addr: Word, len: Word, flags: Word)
    requires Tiling(rs)
    ensures addr % PAGE == 0 && len % PAGE == 0 && addr + len <= WORD
            && (rs != [] ==> Splits(rs[|rs| - 1], addr, len) && High(rs) > 0) ==>
              WasSet(rs, AfterSet(rs, addr, len, flags), addr, len, flags)
  {
    hide Tiling, Splits, AfterSet, WasSet;
    if addr % PAGE == 0 && len % PAGE == 0 && addr + len <= WORD {
      if rs != [] ==> Splits(rs[|rs| - 1], addr, len) && High(rs) > 0 {
        SetBy(rs, addr, len, flags);
      }
    }
  }

  lemma Once(rs: seq<Range>, i: nat, j: nat, a: nat)
    requires Tiling(rs) && At(rs, i, a) && At(rs, j, a)
    ensures i == j
  {
    if i < j {
      Sorted(rs, i, j);
    } else if j < i {
      Sorted(rs, j, i);
    }
  }

  /** The addresses of pieces are those from the first piece's start to the last one's end. */
  lemma InPieces(t: seq<Range>, i: nat, a: nat)
    requires Tiling(t) && At(t, i, a)
    ensures Low(t) <= a < High(t)
  {
    if i > 0 {
      Sorted(t, 0, i);
    }
    if i < |t| - 1 {
      Sorted(t, i, |t| - 1);
    }
  }

  /** Where a range is replaced, the pieces say what the addresses have; elsewhere nothing changes. */
  lemma SpliceHas(rs: seq<Range>, k: nat, t: seq<Range>, a: nat, f: Word)
    requires Tiling(rs) && k < |rs| && t != [] && Tiling(t) && Low(t) == rs[k].start && High(t) == End(rs[k])
    ensures Has(Splice(rs, k, t), a, f) <==> if At(rs, k, a) then Has(t, a, f) else Has(rs, a, f)
  {
    hide Tiling, Low, High;
    var s, b := Splice(rs, k, t), |t|;
    if i: nat :| At(s, i, a) && s[i].flags == f {
      if k <= i < k + b {
        assert At(t, i - k, a) && s[i] == t[i - k];
        InPieces(t, i - k, a);
      } else {
        var j := if i < k then i else i - b + 1;
        assert s[i] == rs[j] && At(rs, j, a);
        if At(rs, k, a) {
          Once(rs, j, k, a);
        }
      }
    }
    if At(rs, k, a) {
      if i: nat :| At(t, i, a) && t[i].flags == f {
        assert s[k + i] == t[i] && At(s, k + i, a);
      }
    } else if i: nat :| At(rs, i, a) && rs[i].flags == f {
      var j := if i < k then i else i + b - 1;
      assert s[j] == rs[i] && At(s, j, a);
    }
  }

  lemma HasFree(rs: seq<Range>, a: nat)
    ensures FreeAt(rs, a) <==> exists f: Word :: Has(rs, a, f) && f % 2 == 1
    ensures UsedAt(rs, a) <==> exists f: Word :: Has(rs, a, f) && f / 2 % 2 == 1
  {
    if i: nat :| At(rs, i, a) && rs[i].flags % 2 == 1 {
      assert Has(rs, a, rs[i].flags);
    }
    if i: nat :| At(rs, i, a) && rs[i].flags / 2 % 2 == 1 {
      assert Has(rs, a, rs[i].flags);
    }
  }

  /** What is free and in use at an address after a range was replaced by pieces, of which `j` is the address's */
  lemma SpliceAt(rs: seq<Range>, k: nat, t: seq<Range>, a: nat)
    requires Tiling(rs) && k < |rs| && t != [] && Tiling(t) && Low(t) == rs[k].start && High(t) == End(rs[k])
    ensures var s := Splice(rs, k, t);
            && (FreeAt(s, a) <==> if At(rs, k, a) then FreeAt(t, a) else FreeAt(rs, a))
            && (UsedAt(s, a) <==> if At(rs, k, a) then UsedAt(t, a) else UsedAt(rs, a))
  {
    hide Tiling, Low, High, Splice, Has, FreeAt, UsedAt, At;
    var s := Splice(rs, k, t);
    HasFree(s, a);
    HasFree(rs, a);
    HasFree(t, a);
    forall f: Word ensures Has(s, a, f) <==> if At(rs, k, a) then Has(t, a, f) else Has(rs, a, f) {
      SpliceHas(rs, k, t, a, f);
    }
  }

  /** In its own range an address is what the range is. */
  lemma AtOwn(rs: seq<Range>, k: nat, a: nat)
    requires Tiling(rs) && At(rs, k, a)
    ensures (FreeAt(rs, a) <==> rs[k].flags % 2 == 1) && (UsedAt(rs, a) <==> rs[k].flags / 2 % 2 == 1)
  {
    hide Tiling;
    if i: nat :| At(rs, i, a) && rs[i].flags % 2 == 1 {
      Once(rs, i, k, a);
    }
    if i: nat :| At(rs, i, a) && rs[i].flags / 2 % 2 == 1 {
      Once(rs, i, k, a);
    }
  }

  /** A range in use other than the one that is replaced stays. */
  lemma SpliceUsed(rs: seq<Range>, k: nat, t: seq<Range>, b: nat, n: nat)
    requires k < |rs| && UsedRange(rs, b, n) && rs[k].start != b
    ensures UsedRange(Splice(rs, k, t), b, n)
  {
    var i: nat :| IsRange(rs, i, b, n) && rs[i].flags / 2 % 2 == 1;
    var j := if i < k then i else i + |t| - 1;
    assert IsRange(Splice(rs, k, t), j, b, n);
  }

  lemma TookBy(rs: seq<Range>, k: nat, size: Word)
    requires Tiling(rs) && FirstFit(rs, k, size) && size % PAGE == 0
    ensures LowestFree(rs, rs[k].start, size) && Took(rs, Splice(rs, k, Taken(rs[k], size)), rs[k].start, size)
  {
    hide Tiling, Low, High, MarkUsed;
    var t, addr := Taken(rs[k], size), rs[k].start;
    var s := Splice(rs, k, t);
    FirstIsLowest(rs, k, size);
    assert LargeFree(rs, k, size);
    RangeAt(rs, k);
    TakenTiles(rs[k], size);
    Marks(rs[k].flags);
    forall a: nat
      ensures FreeAt(s, a) <==> FreeAt(rs, a) && !(addr <= a < addr + size)
      ensures UsedAt(s, a) <==> UsedAt(rs, a) || addr <= a < addr + size
    {
      SpliceAt(rs, k, t, a);
      if At(rs, k, a) {
        AtOwn(rs, k, a);
        if size < rs[k].len {
          TakenWraps(rs[k], size);
        }
        var j := if a < addr + size then 0 else 1;
        assert At(t, j, a);
        AtOwn(t, j, a);
      }
    }
    assert s[k] == t[0] && IsRange(s, k, addr, size);
    forall b: nat, n: nat | b != addr && UsedRange(rs, b, n) ensures UsedRange(s, b, n) {
      SpliceUsed(rs, k, t, b, n);
    }
  }

  lemma TakenWraps(r: Range, size: Word)
    requires RangeOK(r) && size < r.len
    ensures Wrap(r.start + size) == r.start + size
  {
  }

  lemma GaveBy(rs: seq<Range>, k: nat, addr: Word)
    requires Tiling(rs) && k < |rs| && Holds(rs[k], addr)
    ensures Gave(rs, rs[k := Freed(rs[k])], addr, rs[k].len)
  {
    hide Tiling, Low, High, MarkFree;
    var r := rs[k];
    var s := rs[k := Freed(r)];
    SpliceOne(rs, k, Freed(r));
    RangeAt(rs, k);
    Marks(r.flags);
    FreedTiles([r], 0);
    OneTiles(Freed(r));
    assert IsRange(rs, k, addr, r.len);
    forall a: nat
      ensures FreeAt(s, a) <==> FreeAt(rs, a) || addr <= a < addr + r.len
      ensures UsedAt(s, a) <==> UsedAt(rs, a) && !(addr <= a < addr + r.len)
    {
      SpliceAt(rs, k, [Freed(r)], a);
      if At(rs, k, a) {
        AtOwn(rs, k, a);
        assert At([Freed(r)], 0, a);
        AtOwn([Freed(r)], 0, a);
      }
    }
    forall b: nat, n: nat | b != addr && UsedRange(rs, b, n) ensures UsedRange(s, b, n) {
      SpliceUsed(rs, k, [Freed(r)], b, n);
    }
  }

  lemma OneTiles(r: Range)
    requires RangeOK(r)
    ensures Tiling([r]) && Low([r]) == r.start && High([r]) == End(r)
  {
  }

  lemma SetBy(rs: seq<Range>, addr: Word, len: Word, flags: Word)
    requires Tiling(rs) && (rs != [] ==> Splits(rs[|rs| - 1], addr, len) && High(rs) > 0)
    requires addr % PAGE == 0 && len % PAGE == 0 && addr + len <= WORD
    ensures WasSet(rs, AfterSet(rs, addr, len, flags), addr, len, flags)
  {
    hide Tiling, Low, Splits;
    var s := AfterSet(rs, addr, len, flags);
    if rs == [] {
      forall a: nat, f: Word ensures Has(s, a, f) <==> addr <= a < addr + len && f == flags {
        assert At(s, 0, a) <==> addr <= a < addr + len;
      }
    } else {
      var k := |rs| - 1;
      var last := rs[k];
      RangeAt(rs, k);
      SplitsStart(last, addr, len);
      SplitTiles(last, addr, len, flags);
      WithinLast(last, addr, len);
      forall a: nat, f: Word
        ensures Has(s, a, f) <==>
          if addr <= a < addr + len then f == flags
          else if a < addr || last.start == addr then Has(rs, a, f) else a < last.start + last.len && f == 0
      {
        SpliceHas(rs, k, Split(last, addr, len, flags), a, f);
        if At(rs, k, a) {
          OwnFlags(rs, k, a, f);
          SplitHas(last, addr, len, flags, a, f);
        } else if a >= last.start {
          BeyondLast(rs, a, f);
        }
      }
    }
  }

  lemma OwnFlags(rs: seq<Range>, k: nat, a: nat, f: Word)
    requires Tiling(rs) && At(rs, k, a)
    ensures Has(rs, a, f) <==> f == rs[k].flags
  {
    hide Tiling;
    if i: nat :| At(rs, i, a) && rs[i].flags == f {
      Once(rs, i, k, a);
    }
  }

  /** No range is behind the last one. */
  lemma BeyondLast(rs: seq<Range>, a: nat, f: Word)
    requires Tiling(rs) && rs != [] && rs[|rs| - 1].start <= a && !At(rs, |rs| - 1, a)
    ensures !Has(rs, a, f)
  {
    hide Tiling;
    if i: nat :| At(rs, i, a) && rs[i].flags == f {
      if i < |rs| - 1 {
        Sorted(rs, i, |rs| - 1);
      }
    }
  }

  lemma SplitHas(last: Range, addr: Word, len: Word, flags: Word, a: nat, f: Word)
    requires RangeOK(last) && last.start <= addr && addr + len < End(last) && last.start <= a < End(last)
    requires Tiling(Split(last, addr, len, flags))
    ensures Has(Split(last, addr, len, flags), a, f) <==>
      if addr <= a < addr + len then f == flags
      else if a < addr || last.start == addr then f == last.flags else f == 0
  {
    hide Tiling;
    var t := Split(last, addr, len, flags);
    assert Wrap(addr + len) == addr + len;
    var j := if last.start == addr then (if a < addr + len then 0 else 1)
             else if a < addr then 0 else if a < addr + len then 1 else 2;
    assert At(t, j, a);
    OwnFlags(t, j, a, f);
  }

  // ----- The list -----

  /** `struct vm_node`, filled in once the slab has handed it out, zeroed */
  class Node {
    var next: Node?
    var prev: Node?
    var start: Word
    var len: Word
    var flags: Word

    constructor (start: Word, len: Word, flags: Word)
      ensures next == null && prev == null && Value() == Range(start, len, flags)
    {
      this.next, this.prev, this.start, this.len, this.flags := null, null, start, len, flags;
    }

    function Value(): Range
      reads this
    {
      Range(start, len, flags)
    }
  }

  function NodeAt(s: seq<Node>, i: int): Node?
  {
    if 0 <= i < |s| then s[i] else null
  }

  ghost predicate NodeOK(s: seq<Node>, i: nat)
    requires i < |s|
    reads s
  {
    s[i].next == NodeAt(s, i + 1) && s[i].prev == NodeAt(s, i - 1)
  }

  predicate Distinct(s: seq<Node>)
  {
    forall i, j | 0 <= i < j < |s| :: s[i] != s[j]
  }

  ghost function RangesOf(s: seq<Node>): (rs: seq<Range>)
    reads s
    ensures |rs| == |s| && forall i | 0 <= i < |rs| :: rs[i] == s[i].Value()
  {
    seq(|s|, i requires 0 <= i < |s| reads s => s[i].Value())
  }

  /** `struct vm_info` */
  class RangeList {
    var head: Node?
    var tail: Node?
    var nodes: nat
    ghost var spine: seq<Node>
    ghost var repr: set<Node>

    ghost predicate Linked()
      reads this, repr, spine
    {
      && nodes == |spine| && head == NodeAt(spine, 0) && tail == NodeAt(spine, |spine| - 1) && Distinct(spine)
         && (forall n | n in spine :: n in repr)
      && forall i: nat | i < |spine| :: NodeOK(spine, i)
    }

    ghost function Ranges(): seq<Range>
      reads this, repr, spine
    {
      RangesOf(spine)
    }

    ghost predicate Valid()
      reads this, repr, spine
    {
      Linked() && Tiling(Ranges())
    }

    constructor ()
      ensures Valid() && Ranges() == [] && repr == {}
    {
      head, tail, nodes, spine, repr := null, null, 0, [], {};
    }

    /** The fields of a node but for its links */
    method Assign(n: Node, start: Word, len: Word, flags: Word, ghost k: nat)
      requires Linked() && k < |spine| && n == spine[k]
      modifies n`start, n`len, n`flags
      ensures Linked() && Ranges() == old(Ranges())[k := Range(start, len, flags)]
    {
      n.start, n.len, n.flags := start, len, flags;
      forall i: nat | i < |spine| ensures NodeOK(spine, i) {
        assert old(NodeOK(spine, i));
      }
      assert Ranges() == old(Ranges())[k := Range(start, len, flags)];
    }

    /** `mm_virtual_insert_after` */
    method InsertAfter(after: Node, new_: Node, ghost k: nat)
      requires Linked() && k < |spine| && after == spine[k] && new_ !in repr
      modifies this, repr, new_
      ensures Linked() && spine == Inserted(old(spine), k, new_) && repr == old(repr) + {new_}
      ensures Ranges() == Inserted(old(Ranges()), k, old(new_.Value()))
    {
      ghost var rs, v := Ranges(), new_.Value();
      assert NodeOK(spine, k);
      Link(after, new_, k);
      assert Ranges() == Inserted(rs, k, v);
    }

    method Link(after: Node, new_: Node, ghost k: nat)
      requires Linked() && k < |spine| && after == spine[k] && new_ !in repr
      modifies this, after`next, new_`next, new_`prev, NextOf(after)`prev
      ensures Linked() && spine == Inserted(old(spine), k, new_) && repr == old(repr) + {new_}
    {
      ghost var s := spine;
      assert NodeOK(s, k);
      if k + 1 < |s| {
        assert NodeOK(s, k + 1);
      }
      new_.next := after.next;
      new_.prev := after;
      after.next := new_;
      if new_.next == null {
        tail := new_;
      } else {
        new_.next.prev := new_;
      }
      nodes := nodes + 1;
      spine, repr := Inserted(s, k, new_), repr + {new_};
      DistinctWith(s, k + 1, new_);
      forall i: nat | i < |spine| ensures NodeOK(spine, i) {
        if i < k + 1 {
          assert old(NodeOK(s, i)) && spine[i] == s[i];
        } else if i > k + 1 {
          assert old(NodeOK(s, i - 1)) && spine[i] == s[i - 1];
        }
      }
    }

    /** `mm_virtual_alloc`: the address, 0 if no page is asked for or no range is large enough; `k` is the range
        that the pages are taken from. */
    method Alloc(pages: Word) returns (addr: Word, ghost k: nat)
      requires Valid()
      modifies this, repr
      ensures Valid() && fresh(repr - old(repr))
      ensures pages == 0 || (forall j: nat | j < |old(Ranges())| :: !Fits(old(Ranges())[j], Bytes(pages))) ==>
                addr == 0 && Ranges() == old(Ranges())
      ensures pages > 0 && (exists j: nat | j < |old(Ranges())| :: Fits(old(Ranges())[j], Bytes(pages))) ==>
                && FirstFit(old(Ranges()), k, Bytes(pages)) && addr == old(Ranges())[k].start
                && Ranges() == Splice(old(Ranges()), k, Taken(old(Ranges())[k], Bytes(pages)))
                && Ranges() != [] && Low(Ranges()) == Low(old(Ranges())) && High(Ranges()) == High(old(Ranges()))
      ensures Answered(old(Ranges()), Ranges(), pages, addr)
    {
      hide Tiling, IsFree, Bytes, Wrap, MarkUsed, Took, LowestFree;
      k := 0;
      if pages == 0 {
        return 0, 0;
      }
      var size := Bytes(pages);
      ghost var rs := Ranges();
      var node := head;
      while node != null && !(IsFree(node.flags) && node.len >= size)
        invariant k <= |spine| && node == NodeAt(spine, k)
        invariant forall j | 0 <= j < k :: !Fits(rs[j], size)
        decreases |spine| - k
      {
        assert NodeOK(spine, k) && rs[k] == spine[k].Value();
        node, k := node.next, k + 1;
      }
      NoneLarge(rs, pages, k);
      if node == null {
        return 0, k;
      }
      assert rs[k] == spine[k].Value();
      addr := node.start;
      TakeFrom(node, size, k);
      RangeAt(rs, k);
      PageWrap(pages);
      TakenTiles(rs[k], size);
      SpliceTiles(rs, k, Taken(rs[k], size));
      TookBy(rs, k, size);
    }

    /** The range that was found becomes used, and what is left of it a free range of its own. */
    method TakeFrom(alloc: Node, size: Word, ghost k: nat)
      requires Linked() && k < |spine| && alloc == spine[k] && alloc in repr && alloc.len >= size
      modifies this, repr
      ensures Linked() && Ranges() == Splice(old(Ranges()), k, Taken(old(Ranges())[k], size))
      ensures fresh(repr - old(repr))
    {
      hide Linked, RangesOf, NodeOK, Distinct, NodeAt, NextOf, Splice, Inserted, Wrap, MarkUsed;
      ghost var rs := Ranges();
      assert rs[k] == alloc.Value();
      if alloc.len == size {
        SpliceOne(rs, k, rs[k].(flags := MarkUsed(alloc.flags)));
        Assign(alloc, alloc.start, alloc.len, MarkUsed(alloc.flags), k);
      } else {
        var new_ := new Node(Wrap(alloc.start + size), alloc.len - size, alloc.flags);
        SpliceTwo(rs, k, Range(alloc.start, size, MarkUsed(alloc.flags)), new_.Value());
        Assign(alloc, alloc.start, size, MarkUsed(alloc.flags), k);
        InsertAfter(alloc, new_, k);
      }
    }

    /** `mm_virtual_free`: the length of the range that is freed, 0 if there is none; `k` is the range. */
    method Free(addr: Word) returns (ret: Word, ghost k: nat)
      requires Valid()
      modifies repr
      ensures Valid()
      ensures (forall j: nat | j < |old(Ranges())| :: !Holds(old(Ranges())[j], addr)) ==>
                ret == 0 && Ranges() == old(Ranges())
      ensures (exists j: nat | j < |old(Ranges())| :: Holds(old(Ranges())[j], addr)) ==>
                && k < |old(Ranges())| && Holds(old(Ranges())[k], addr)
                   && (forall j: nat | j < k :: !Holds(old(Ranges())[j], addr))
                && ret == old(Ranges())[k].len && Ranges() == old(Ranges())[k := Freed(old(Ranges())[k])]
      ensures GivenBack(old(Ranges()), Ranges(), addr, ret)
    {
      hide Tiling, IsUsed, MarkFree, Gave;
      k := 0;
      ghost var rs := Ranges();
      var node := head;
      while node != null && !(node.start == addr && IsUsed(node.flags))
        invariant k <= |spine| && node == NodeAt(spine, k)
        invariant forall j | 0 <= j < k :: !Holds(rs[j], addr)
        decreases |spine| - k
      {
        assert NodeOK(spine, k) && rs[k] == spine[k].Value();
        node, k := node.next, k + 1;
      }
      NoneHeld(rs, addr, k);
      if node == null {
        return 0, k;
      }
      assert rs[k] == spine[k].Value();
      GaveBy(rs, k, addr);
      ret := node.len;
      Assign(node, node.start, node.len, MarkFree(node.flags), k);
      FreedTiles(rs, k);
    }

    /** `mm_virtual_range_set`; where it does not return, it panics. */
    method RangeSet(addr: Word, len: Word, flags: Word) returns (ok: bool)
      requires Valid()
      modifies this, repr
      ensures ok <==> addr % PAGE == 0 && len % PAGE == 0
                      && (old(Ranges()) != [] ==> Splits(old(Ranges())[|old(Ranges())| - 1], addr, len))
      ensures ok ==> Linked() && Ranges() == AfterSet(old(Ranges()), addr, len, flags)
      ensures ok && addr + len <= WORD && (old(Ranges()) != [] ==> High(old(Ranges())) > 0) ==>
                WasSet(old(Ranges()), Ranges(), addr, len, flags)
      ensures fresh(repr - old(repr))
    {
      hide Tiling, Split, Splice, Wrap, Last, WasSet;
      ghost var rs := Ranges();
      SetIf(rs, addr, len, flags);
      if addr % PAGE != 0 || len % PAGE != 0 {
        return false;
      }
      var prev := head;
      ghost var k := 0;
      while prev != null && prev.next != null && prev.start <= addr
        invariant prev == NodeAt(spine, k) && (spine != [] ==> k < |spine|)
        decreases |spine| - k
      {
        assert NodeOK(spine, k) && NodeOK(spine, k + 1);
        prev, k := prev.next, k + 1;
      }
      if prev == null {
        var new_ := new Node(addr, len, flags);
        head, tail, nodes, spine, repr := new_, new_, 1, [new_], {new_};
        return true;
      }
      assert NodeOK(spine, k) && rs[k] == prev.Value();
      var next := prev.next;
      var startBeyondPrevEnd := Last(prev.start, prev.len) < addr;
      var endBeforeNext := next != null && Last(addr, len) > next.start;
      var withinPrev := prev.start <= addr && Last(prev.start, prev.len) >= Last(addr, len);
      var startAligned := prev.start == addr;
      var endAligned := Last(prev.start, prev.len) == Last(addr, len);
      ok := withinPrev && !endAligned;
      if next != null {
        NotPast(rs, k, addr);
      }
      if startBeyondPrevEnd && endBeforeNext {
        assert false;
      } else if withinPrev && !startAligned && !endAligned {
        SplitInside(prev, addr, len, flags, k);
      } else if withinPrev && startAligned && !endAligned {
        SplitStart(prev, len, flags, k);
      }
    }

    method SplitInside(prev: Node, addr: Word, len: Word, flags: Word, ghost k: nat)
      requires Linked() && k < |spine| && prev == spine[k] && prev in repr && prev.start < addr
      modifies this, repr
      ensures Linked() && Ranges() == Splice(old(Ranges()), k, Split(old(Ranges())[k], addr, len, flags))
      ensures fresh(repr - old(repr))
    {
      hide Linked, RangesOf, NodeOK, Distinct, NodeAt, NextOf, Splice, Inserted, Wrap, MarkUsed;
      ghost var rs := Ranges();
      assert rs[k] == prev.Value();
      var total := prev.len;
      var new_ := new Node(addr, len, flags);
      var post := new Node(Wrap(addr + len), Wrap(total - (addr - prev.start) - len), 0);
      SpliceThree(rs, k, Range(prev.start, addr - prev.start, prev.flags), new_.Value(), post.Value());
      Assign(prev, prev.start, addr - prev.start, prev.flags, k);
      InsertTwo(prev, new_, post, k);
    }

    method InsertTwo(prev: Node, new_: Node, post: Node, ghost k: nat)
      requires Linked() && k < |spine| && prev == spine[k] && new_ != post && new_ !in repr && post !in repr
      modifies this, repr, new_, post
      ensures Linked() && repr == old(repr) + {new_} + {post}
      ensures Ranges() == Inserted(Inserted(old(Ranges()), k, old(new_.Value())), k + 1, old(post.Value()))
    {
      hide *;
      InsertAfter(prev, new_, k);
      InsertAfter(new_, post, k + 1);
    }

    method SplitStart(prev: Node, len: Word, flags: Word, ghost k: nat)
      requires Linked() && k < |spine| && prev == spine[k] && prev in repr
      modifies this, repr
      ensures Linked() && Ranges() == Splice(old(Ranges()), k, Split(old(Ranges())[k], old(prev.start), len, flags))
      ensures fresh(repr - old(repr))
    {
      hide Linked, RangesOf, NodeOK, Distinct, NodeAt, NextOf, Splice, Inserted, Wrap, MarkUsed;
      ghost var rs := Ranges();
      assert rs[k] == prev.Value();
      var new_ := new Node(Wrap(prev.start + len), Wrap(prev.len - len), prev.flags);
      SpliceTwo(rs, k, Range(prev.start, len, flags), new_.Value());
      Assign(prev, prev.start, len, flags, k);
      InsertAfter(prev, new_, k);
    }

    /** The list that `mm_virtual_init` makes; `kernel` is the size of the kernel's image, in whole pages. */
    method Init(kernel: Word) returns (ok: bool)
      requires Valid() && Ranges() == [] && kernel % PAGE == 0
      modifies this, repr
      ensures ok <==> kernel != WORD - KERNEL_START
      ensures kernel < WORD - KERNEL_START ==>
                Valid() && Ranges() == InitialRanges(kernel) && StartsWith(Ranges(), kernel)
      ensures fresh(repr - old(repr))
    {
      hide Tiling, AfterSet, Splits, Linked, Ranges, Initial1, Initial2, Initial3, Initial4, InitialRanges, Sets,
        StartsWith;
      InitSteps(kernel);
      SetAs(FREE_START, WORD - FREE_START, VM_FREE, Initial1());
      SetAs(SLAB_VM_BASE, SLAB_SIZE, VM_USED, Initial2());
      SetAs(STACKS, 0x2000, VM_USED, Initial3());
      SetAs(PAGE_TABLES, 0x80_0000_0000, VM_USED, Initial4());
      ok := RangeSet(KERNEL_START, kernel, VM_USED);
      if kernel < WORD - KERNEL_START {
        SetsIs(Initial4(), KERNEL_START, kernel, VM_USED, InitialRanges(kernel));
        InitialAre(kernel);
      }
    }

    /** A call of `mm_virtual_range_set` that returns */
    method SetAs(addr: Word, len: Word, flags: Word, ghost to: seq<Range>)
      requires Valid() && Sets(Ranges(), addr, len, flags, to)
      modifies this, repr
      ensures Valid() && Ranges() == to && to != []
      ensures fresh(repr - old(repr))
    {
      hide Tiling, AfterSet, Splits, Linked, Ranges;
      var ok := RangeSet(addr, len, flags);
    }

    /** One operation */
    method Do(op: Op) returns (ok: bool, answer: Word)
      requires Valid() && Ranges() != [] && High(Ranges()) > 0 && (op.Set? ==> op.addr + op.len <= WORD)
      modifies this, repr
      ensures ok <==> !Panics(op, old(Ranges()))
      ensures ok ==>
                Valid() && Ranges() != [] && Done(op, old(Ranges()), Ranges(), answer)
                && SameInterval(old(Ranges()), Ranges())
      ensures fresh(repr - old(repr))
    {
      hide Tiling, AfterSet, Splits, Linked, RangesOf, Fits, Holds, Taken, Splice, Freed, Answered, GivenBack, WasSet;
      ok, answer := true, 0;
      ghost var rs := Ranges();
      match op {
        case Take(pages) =>
          ghost var k;
          answer, k := Alloc(pages);
        case Give(addr) =>
          ghost var k;
          answer, k := Free(addr);
          FreedEnds(rs);
        case Set(addr, len, flags) =>
          ok := RangeSet(addr, len, flags);
          if ok {
            SetTiles(rs, addr, len, flags);
          }
      }
    }

    /** Any run of the list's operations, up to the first one that panics; `moments` are the ranges in between. */
    method Run(ops: seq<Op>) returns (ok: bool, answers: seq<Word>, ghost moments: seq<seq<Range>>)
      requires Valid() && Ranges() != [] && High(Ranges()) > 0
      requires forall op | op in ops && op.Set? :: op.addr + op.len <= WORD
      modifies this, repr
      ensures |answers| <= |ops| && Happened(ops[..|answers|], answers, moments, old(Ranges()))
      ensures if ok then |answers| == |ops| && Valid() && moments[|ops|] == Ranges()
              else |answers| < |ops| && Panics(ops[|answers|], moments[|answers|])
      ensures fresh(repr - old(repr))
    {
      hide Linked, Ranges, Tiling, Low, High, Done, Panics;
      ok, answers, moments := true, [], [Ranges()];
      for c := 0 to |ops|
        invariant Valid() && Ranges() != [] && SameInterval(old(Ranges()), Ranges()) && ok
        invariant Happened(ops[..c], answers, moments, old(Ranges())) && moments[c] == Ranges()
        invariant fresh(repr - old(repr))
      {
        var answer;
        ok, answer := Do(ops[c]);
        if !ok {
          return;
        }
        OneMore(ops[..c], answers, moments, old(Ranges()), ops[c], answer, Ranges());
        answers, moments := answers + [answer], moments + [Ranges()];
        assert ops[..c + 1] == ops[..c] + [ops[c]];
      }
      assert ops[..|ops|] == ops;
    }
  }

  /** The same interval is covered. */
  predicate SameInterval(rs: seq<Range>, rs': seq<Range>)
  {
    rs != [] && rs' != [] && Low(rs') == Low(rs) && High(rs') == High(rs)
  }

  /** What an operation that returns has done, address by address and range by range, and what it answers */
  ghost predicate Done(op: Op, rs: seq<Range>, rs': seq<Range>, answer: Word)
  {
    match op
    case Take(pages) =>
      && Answered(rs, rs', pages, answer)
      && if pages > 0 && exists j: nat | j < |rs| :: Fits(rs[j], Bytes(pages))
         then exists k: nat ::
           FirstFit(rs, k, Bytes(pages)) && answer == rs[k].start && rs' == Splice(rs, k, Taken(rs[k], Bytes(pages)))
         else answer == 0 && rs' == rs
    case Give(addr) =>
      && GivenBack(rs, rs', addr, answer)
      && if exists j: nat | j < |rs| :: Holds(rs[j], addr)
         then exists k: nat :: FirstHeld(rs, k, addr) && answer == rs[k].len && rs' == rs[k := Freed(rs[k])]
         else answer == 0 && rs' == rs
    case Set(addr, len, flags) =>
      && answer == 0 && (rs != [] ==> Splits(rs[|rs| - 1], addr, len)) && rs' == AfterSet(rs, addr, len, flags)
      && WasSet(rs, rs', addr, len, flags)
  }

  /** Where `mm_virtual_range_set` does not return */
  predicate Panics(op: Op, rs: seq<Range>)
  {
    op.Set? && !(op.addr % PAGE == 0 && op.len % PAGE == 0 && (rs != [] ==> Splits(rs[|rs| - 1], op.addr, op.len)))
  }

  /** The first range in use that starts at the address */
  ghost predicate FirstHeld(rs: seq<Range>, k: nat, addr: Word)
  {
    k < |rs| && Holds(rs[k], addr) && forall j: nat | j < k :: !Holds(rs[j], addr)
  }

  /** Every operation leads from one list to the next, and all of them tile the interval of the first one. */
  ghost predicate Happened(ops: seq<Op>, answers: seq<Word>, moments: seq<seq<Range>>, first: seq<Range>)
  {
    && |answers| == |ops| && |moments| == |ops| + 1 && moments[0] == first
    && (forall i {:trigger moments[i]} | 0 <= i < |moments| :: Tiling(moments[i]) && SameInterval(first, moments[i]))
    && forall i: nat {:trigger Turn(ops, answers, moments, i)} | i < |ops| :: Turn(ops, answers, moments, i)
  }

  ghost predicate Turn(ops: seq<Op>, answers: seq<Word>, moments: seq<seq<Range>>, i: nat)
    requires i < |ops| == |answers| && |moments| == |ops| + 1
  {
    Done(ops[i], moments[i], moments[i + 1], answers[i])
  }

  lemma OneMore(ops: seq<Op>, answers: seq<Word>, moments: seq<seq<Range>>, first: seq<Range>, op: Op, answer: Word,
      rs: seq<Range>)
    requires Happened(ops, answers, moments, first) && Tiling(rs) && SameInterval(first, rs)
    requires Done(op, moments[|ops|], rs, answer)
    ensures Happened(ops + [op], answers + [answer], moments + [rs], first)
  {
    hide Tiling, Low, High, Done;
    var os, as_, ms := ops + [op], answers + [answer], moments + [rs];
    forall i: nat | i < |os| ensures Turn(os, as_, ms, i) {
      if i < |ops| {
        assert Turn(ops, answers, moments, i);
      }
    }
  }

  datatype Op = Take(pages: Word) | Give(addr: Word) | Set(addr: Word, len: Word, flags: Word)

  const FREE_START: Word := 0xFFFF_FE00_0002_1000
  const SLAB_VM_BASE: Word := 0xFFFF_FEFF_FFFF_8000
  const SLAB_SIZE: Word := 0x4000
  const STACKS: Word := 0xFFFF_FEFF_FFFF_E000
  const PAGE_TABLES: Word := 0xFFFF_FF00_0000_0000
  const KERNEL_START: Word := 0xFFFF_FFFF_8000_0000

  /** The ranges that the system starts with: only the first one is free. */
  function InitialRanges(kernel: Word): seq<Range>
    requires kernel < WORD - KERNEL_START
  {
    [Range(FREE_START, SLAB_VM_BASE - FREE_START, VM_FREE), Range(SLAB_VM_BASE, SLAB_SIZE, VM_USED),
      Range(SLAB_VM_BASE + SLAB_SIZE, 0x2000, 0),
     Range(STACKS, 0x2000, VM_USED), Range(PAGE_TABLES, 0x80_0000_0000, VM_USED),
       Range(0xFFFF_FF80_0000_0000, 0x7F_8000_0000, 0),
     Range(KERNEL_START, kernel, VM_USED), Range(KERNEL_START + kernel, WORD - KERNEL_START - kernel, 0)]
  }

  /** What is free and what is in use when the system starts: the slab, the stacks, the page tables, the kernel */
  ghost predicate StartsWith(rs: seq<Range>, kernel: nat)
  {
    && (forall a: nat :: FreeAt(rs, a) <==> 0xFFFF_FE00_0002_1000 <= a < 0xFFFF_FEFF_FFFF_8000)
    && forall a: nat :: UsedAt(rs, a) <==>
         || 0xFFFF_FEFF_FFFF_8000 <= a < 0xFFFF_FEFF_FFFF_C000 || 0xFFFF_FEFF_FFFF_E000 <= a < 0xFFFF_FF80_0000_0000
         || 0xFFFF_FFFF_8000_0000 <= a < 0xFFFF_FFFF_8000_0000 + kernel
  }

  lemma InitialAre(kernel: Word)
    requires kernel < WORD - KERNEL_START
    ensures StartsWith(InitialRanges(kernel), kernel)
  {
    var rs := InitialRanges(kernel);
    forall a: nat ensures FreeAt(rs, a) <==> 0xFFFF_FE00_0002_1000 <= a < 0xFFFF_FEFF_FFFF_8000 {
      if 0xFFFF_FE00_0002_1000 <= a < 0xFFFF_FEFF_FFFF_8000 {
        assert At(rs, 0, a);
      }
    }
    forall a: nat ensures UsedAt(rs, a) <==>
      || 0xFFFF_FEFF_FFFF_8000 <= a < 0xFFFF_FEFF_FFFF_C000 || 0xFFFF_FEFF_FFFF_E000 <= a < 0xFFFF_FF80_0000_0000
      || 0xFFFF_FFFF_8000_0000 <= a < 0xFFFF_FFFF_8000_0000 + kernel {
      InitialUsed(kernel, a);
    }
  }

  lemma InitialUsed(kernel: Word, a: nat)
    requires kernel < WORD - KERNEL_START
    ensures UsedAt(InitialRanges(kernel), a) <==>
              || 0xFFFF_FEFF_FFFF_8000 <= a < 0xFFFF_FEFF_FFFF_C000
              || 0xFFFF_FEFF_FFFF_E000 <= a < 0xFFFF_FF80_0000_0000
              || 0xFFFF_FFFF_8000_0000 <= a < 0xFFFF_FFFF_8000_0000 + kernel
  {
    var rs := InitialRanges(kernel);
    if 0xFFFF_FEFF_FFFF_8000 <= a < 0xFFFF_FEFF_FFFF_C000 {
      assert At(rs, 1, a);
    } else if 0xFFFF_FEFF_FFFF_E000 <= a < 0xFFFF_FF00_0000_0000 {
      assert At(rs, 3, a);
    } else if 0xFFFF_FF00_0000_0000 <= a < 0xFFFF_FF80_0000_0000 {
      assert At(rs, 4, a);
    } else if 0xFFFF_FFFF_8000_0000 <= a < 0xFFFF_FFFF_8000_0000 + kernel {
      assert At(rs, 6, a);
    }
  }

  /** The ranges after the first steps of `mm_virtual_init` */
  function Initial1(): seq<Range>
  {
    [Range(FREE_START, WORD - FREE_START, VM_FREE)]
  }

  function Initial2(): seq<Range>
  {
    InitialRanges(0)[..2] + [Range(SLAB_VM_BASE + SLAB_SIZE, WORD - SLAB_VM_BASE - SLAB_SIZE, 0)]
  }

  function Initial3(): seq<Range>
  {
    InitialRanges(0)[..4] + [Range(PAGE_TABLES, WORD - PAGE_TABLES, 0)]
  }

  function Initial4(): seq<Range>
  {
    InitialRanges(0)[..5] + [Range(0xFFFF_FF80_0000_0000, 0x80_0000_0000, 0)]
  }

  /** `to` is what setting a range makes of `rs`. */
  ghost predicate Sets(rs: seq<Range>, addr: Word, len: Word, flags: Word, to: seq<Range>)
  {
    && addr % PAGE == 0 && len % PAGE == 0 && (rs != [] ==> Splits(rs[|rs| - 1], addr, len))
       && AfterSet(rs, addr, len, flags) == to
    && Tiling(to) && to != []
  }

  lemma InitSteps(kernel: Word)
    requires kernel % PAGE == 0
    ensures Sets([], FREE_START, WORD - FREE_START, VM_FREE, Initial1())
    ensures Sets(Initial1(), SLAB_VM_BASE, SLAB_SIZE, VM_USED, Initial2())
    ensures Sets(Initial2(), STACKS, 0x2000, VM_USED, Initial3())
    ensures Sets(Initial3(), PAGE_TABLES, 0x80_0000_0000, VM_USED, Initial4())
    ensures Splits(Initial4()[|Initial4()| - 1], KERNEL_START, kernel) <==> kernel != WORD - KERNEL_START
    ensures kernel < WORD - KERNEL_START ==> Sets(Initial4(), KERNEL_START, kernel, VM_USED, InitialRanges(kernel))
  {
    hide Sets, Tiling, AfterSet, Splits;
    FirstSet();
    SetsTo(Initial1(), SLAB_VM_BASE, SLAB_SIZE, VM_USED, Initial2());
    SetsTo(Initial2(), STACKS, 0x2000, VM_USED, Initial3());
    SetsTo(Initial3(), PAGE_TABLES, 0x80_0000_0000, VM_USED, Initial4());
    LastStep(kernel);
    if kernel < WORD - KERNEL_START {
      SetsTo(Initial4(), KERNEL_START, kernel, VM_USED, InitialRanges(kernel));
    }
  }

  lemma FirstSet()
    ensures Sets([], FREE_START, WORD - FREE_START, VM_FREE, Initial1()) && Tiling(Initial1())
  {
  }

  lemma SetsIs(rs: seq<Range>, addr: Word, len: Word, flags: Word, to: seq<Range>)
    requires Sets(rs, addr, len, flags, to)
    ensures rs != [] ==> Splits(rs[|rs| - 1], addr, len)
    ensures AfterSet(rs, addr, len, flags) == to && Tiling(to)
  {
  }

  lemma LastStep(kernel: Word)
    ensures Splits(Initial4()[|Initial4()| - 1], KERNEL_START, kernel) <==> kernel != WORD - KERNEL_START
  {
    hide Wrap;
    Wraps(KERNEL_START + kernel - 1);
    Wraps(WORD - 1);
    assert Initial4()[|Initial4()| - 1] == Range(0xFFFF_FF80_0000_0000, 0x80_0000_0000, 0);
  }

  lemma SetsTo(rs: seq<Range>, addr: Word, len: Word, flags: Word, to: seq<Range>)
    requires Tiling(rs) && rs != [] && addr + len < High(rs) && rs[|rs| - 1].start <= addr && addr % PAGE == 0
    requires len % PAGE == 0 && High(rs) == WORD
    requires to == rs[..|rs| - 1] + if rs[|rs| - 1].start
             == addr then [Range(addr, len, flags), Range(addr + len, WORD - addr - len, rs[|rs| - 1].flags)]
                   else [Range(rs[|rs| - 1].start, addr - rs[|rs| - 1].start, rs[|rs| - 1].flags),
                     Range(addr, len, flags), Range(addr + len, WORD - addr - len, 0)]
    ensures Sets(rs, addr, len, flags, to) && Tiling(to)
  {
    hide Tiling, Wrap;
    var last := rs[|rs| - 1];
    RangeAt(rs, |rs| - 1);
    Wraps(last.start + last.len - 1);
    Wraps(addr + len - 1);
    Wraps(addr + len);
    Wraps(last.len - len);
    Wraps(last.len - (addr - last.start) - len);
    assert Splits(last, addr, len);
    assert AfterSet(rs, addr, len, flags) == to;
    SetTiles(rs, addr, len, flags);
  }

  /** A range in use that starts at the address */
  predicate Holds(r: Range, addr: Word)
  {
    r.start == addr && IsUsed(r.flags)
  }

  function Freed(r: Range): Range
  {
    r.(flags := MarkFree(r.flags))
  }

  lemma FreedTiles(rs: seq<Range>, k: nat)
    requires Tiling(rs) && k < |rs|
    ensures Tiling(rs[k := Freed(rs[k])])
  {
    var s := rs[k := Freed(rs[k])];
    forall i | 0 <= i < |s| - 1 ensures Follows(s, i) {
      assert Follows(rs, i);
    }
  }

  lemma FreedEnds(rs: seq<Range>)
    requires rs != []
    ensures forall k: nat | k < |rs| :: Low(rs[k := Freed(rs[k])]) == Low(rs) && High(rs[k := Freed(rs[k])]) == High(rs)
  {
  }

  /** A range that starts above the address does not end below it, and the last one starts above it too. */
  lemma NotPast(rs: seq<Range>, k: nat, addr: Word)
    requires Tiling(rs) && k < |rs| && rs[k].start > addr
    ensures Last(rs[k].start, rs[k].len) >= addr && rs[|rs| - 1].start > addr
  {
    assert RangeOK(rs[k]);
    if k < |rs| - 1 {
      Sorted(rs, k, |rs| - 1);
    }
    Wraps(rs[k].start + rs[k].len - 1);
  }

  /** The node behind, as a set */
  ghost function NextOf(n: Node): set<Node>
    reads n
  {
    if n.next == null then {} else {n.next}
  }

  lemma DistinctWith(s: seq<Node>, k: nat, n: Node)
    requires Distinct(s) && k <= |s| && n !in s
    ensures Distinct(s[..k] + [n] + s[k..])
  {
  }
}
