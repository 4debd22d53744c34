/** The 32-bit bin maps: bit i says that bin i holds a chunk. */
module BinMap {

  type Bits = bv32

  // ----- The macros, on machine words -----

  /** `1 << a` */
  function Shl(a: Bits): Bits
    requires a < 32
  {
    (1 as Bits) << a
  }

  predicate Has(m: Bits, a: Bits)
    requires a < 32
  {
    m & Shl(a) != 0
  }

  function Or(m: Bits, x: Bits): Bits
  {
    m | x
  }

  function AndNot(m: Bits, x: Bits): Bits
  {
    m & !x
  }

  /** `least_bit` */
  function LeastBit(m: Bits): Bits
  {
    m & (0 - m)
  }

  /** `left_bits`: all bits above the least bit of `x` */
  function LeftBits(x: Bits): Bits
  {
    (x << 1) | (0 - (x << 1))
  }

  /** No bit below position a is set. */
  predicate LowClear(m: Bits, a: Bits)
    requires a < 32
  {
    m & (Shl(a) - 1) == 0
  }

  lemma OrHas(m: Bits, a: Bits, b: Bits)
    requires a < 32 && b < 32
    ensures Has(Or(m, Shl(a)), b) <==> b == a || Has(m, b)
  {
    DistinctShl(a, b);
    assert (m | Shl(a)) & Shl(b) == (m & Shl(b)) | (Shl(a) & Shl(b));
  }

  lemma DistinctShl(a: Bits, b: Bits)
    requires a < 32 && b < 32
    ensures Shl(a) & Shl(b) != 0 <==> a == b
  {
  }

  lemma AndNotHas(m: Bits, a: Bits, b: Bits)
    requires a < 32 && b < 32
    ensures Has(AndNot(m, Shl(a)), b) <==> b != a && Has(m, b)
  {
    hide AndNot, Shl;
    if a == b {
      AndNotSame(m, a);
    } else {
      AndNotOther(m, a, b);
    }
  }

  lemma AndNotSame(m: Bits, a: Bits)
    requires a < 32
    ensures !Has(AndNot(m, Shl(a)), a)
  {
  }

  lemma AndNotOther(m: Bits, a: Bits, b: Bits)
    requires a < 32 && b < 32 && a != b
    ensures AndNot(m, Shl(a)) & Shl(b) == m & Shl(b)
  {
  }

  lemma LeastHas(m: Bits, a: Bits)
    requires a < 32
    ensures Has(LeastBit(m), a) <==> Has(m, a) && LowClear(m, a)
  {
    hide *;
    LeastShl(m, a);
    LeastFold(m, a);
  }

  lemma LeastShl(m: Bits, a: Bits)
    requires a < 32
    ensures LeastBit(m) & Shl(a) != 0 <==> m & Shl(a) != 0 && m & (Shl(a) - 1) == 0
  {
  }

  lemma LeastFold(m: Bits, a: Bits)
    requires a < 32
    requires LeastBit(m) & Shl(a) != 0 <==> m & Shl(a) != 0 && m & (Shl(a) - 1) == 0
    ensures Has(LeastBit(m), a) <==> Has(m, a) && LowClear(m, a)
  {
    hide Shl, LeastBit;
  }

  lemma LeftHas(m: Bits, a: Bits, b: Bits)
    requires a < 32 && b < 32
    ensures Has(LeftBits(Shl(a)) & m, b) <==> a < b && Has(m, b)
  {
  }

  lemma LowClearStart(m: Bits)
    ensures LowClear(m, 0)
  {
  }

  lemma LowClearStep(m: Bits, a: Bits)
    requires a < 31
    ensures LowClear(m, a + 1) <==> LowClear(m, a) && !Has(m, a)
  {
    hide *;
    LowShlStep(m, a);
    LowFold(m, a);
  }

  lemma LowShlStep(m: Bits, a: Bits)
    requires a < 31
    ensures m & (Shl(a + 1) - 1) == 0 <==> m & (Shl(a) - 1) == 0 && m & Shl(a) == 0
  {
  }

  lemma LowFold(m: Bits, a: Bits)
    requires a < 31
    requires m & (Shl(a + 1) - 1) == 0 <==> m & (Shl(a) - 1) == 0 && m & Shl(a) == 0
    ensures LowClear(m, a + 1) <==> LowClear(m, a) && !Has(m, a)
  {
    hide Shl;
  }

  lemma AllClear(m: Bits)
    ensures m == 0 <==> LowClear(m, 31) && !Has(m, 31)
  {
  }

  /** `m >> a`, `m << a` */
  function Down(m: Bits, a: Bits): Bits
    requires a < 32
  {
    m >> a
  }

  function Up(m: Bits, a: Bits): Bits
    requires a < 32
  {
    m << a
  }

  /** `(m & 0x3U) != 0` */
  predicate LowTwo(m: Bits)
  {
    m & 3 != 0
  }

  /** `~m & 1` */
  predicate LowestClear(m: Bits)
  {
    !m & 1 != 0
  }

  // Shifts by one more bit. Each lemma about bits is small; the others combine them with the bits hidden.

  function Half(m: Bits): Bits
  {
    m >> 1
  }

  function Twice(m: Bits): Bits
  {
    m << 1
  }

  /** All bits from that of the power of two `x` on. */
  function From(x: Bits): Bits
  {
    !(x - 1)
  }

  function And(m: Bits, x: Bits): Bits
  {
    m & x
  }

  lemma DownMore(m: Bits, a: Bits)
    requires 0 < a < 32
    ensures Down(m, a) == Down(Half(m), a - 1)
  {
  }

  lemma UpMore(m: Bits, a: Bits)
    requires 0 < a < 32
    ensures Up(m, a) == Twice(Up(m, a - 1))
  {
  }

  lemma ShlMore(a: Bits)
    requires 0 < a < 32
    ensures Shl(a) == Twice(Shl(a - 1)) && 0 < Shl(a - 1) < 0x8000_0000
  {
  }

  lemma ShiftZero(m: Bits)
    ensures Down(m, 0) == m && Up(m, 0) == m && Shl(0) == 1 && From(1) == 0xFFFF_FFFF && And(m, 0xFFFF_FFFF) == m
  {
  }

  /** The lowest bit of a map shifted down is bit a of the map. */
  lemma {:induction false} DownLowest(m: Bits, a: Bits)
    requires a < 32
    ensures And(Down(m, a), 1) == 0 <==> And(m, Shl(a)) == 0
    decreases a
  {
    hide *;
    if a == 0 {
      ShiftZero(m);
    } else {
      DownMore(m, a);
      ShlMore(a);
      DownLowest(Half(m), a - 1);
      OneUp(m, Shl(a - 1));
    }
  }

  lemma OneUp(m: Bits, x: Bits)
    requires x < 0x8000_0000
    ensures And(Half(m), x) == 0 <==> And(m, Twice(x)) == 0
  {
  }

  /** Shifting down and up again clears the bits below position a. */
  lemma {:induction false} DownUp(m: Bits, a: Bits)
    requires a < 32
    ensures Up(Down(m, a), a) == And(m, From(Shl(a)))
    decreases a
  {
    hide *;
    if a == 0 {
      ShiftZero(m);
    } else {
      DownMore(m, a);
      UpMore(Down(Half(m), a - 1), a);
      ShlMore(a);
      DownUp(Half(m), a - 1);
      MaskUp(m, Shl(a - 1));
    }
  }

  lemma MaskUp(m: Bits, x: Bits)
    requires 0 < x < 0x8000_0000
    ensures Twice(And(Half(m), From(x))) == And(m, From(Twice(x)))
  {
  }

  lemma MaskShl(a: Bits, b: Bits)
    requires a < 32 && b < 32
    ensures And(From(Shl(a)), Shl(b)) == if a <= b then Shl(b) else 0
  {
  }

  lemma DownLowHas(m: Bits, a: Bits)
    requires a < 31
    ensures LowTwo(Down(m, a)) <==> Has(m, a) || Has(m, a + 1)
    ensures LowestClear(Down(m, a)) <==> !Has(m, a)
  {
    hide *;
    DownLowest(m, a);
    DownLowest(m, a + 1);
    DownOne(m, a);
    TwoBits(Down(m, a));
    HasAnd(m, a);
    HasAnd(m, a + 1);
  }

  lemma HasAnd(m: Bits, a: Bits)
    requires a < 32
    ensures Has(m, a) <==> And(m, Shl(a)) != 0
  {
    hide Shl;
  }

  lemma DownOne(m: Bits, a: Bits)
    requires a < 31
    ensures Down(m, a + 1) == Half(Down(m, a))
  {
  }

  lemma TwoBits(x: Bits)
    ensures LowTwo(x) <==> And(x, 1) != 0 || And(Half(x), 1) != 0
    ensures LowestClear(x) <==> And(x, 1) == 0
  {
  }

  lemma UpDownHas(m: Bits, a: Bits, b: Bits)
    requires a < 32 && b < 32
    ensures Has(Up(Down(m, a), a), b) <==> a <= b && Has(m, b)
  {
    hide *;
    DownUp(m, a);
    MaskShl(a, b);
    AndTwice(m, From(Shl(a)), Shl(b));
    HasAnd(m, b);
    HasAnd(Up(Down(m, a), a), b);
  }

  lemma AndTwice(m: Bits, x: Bits, y: Bits)
    ensures And(And(m, x), y) == And(m, And(x, y)) && And(m, 0) == 0
  {
  }

  lemma UpKeeps(m: Bits, a: Bits)
    requires a < 32
    ensures Up(Down(m, a), a) == 0 ==> Down(m, a) == 0
    ensures Down(m, a) == 0 ==> Up(Down(m, a), a) == 0
  {
  }

  // ----- The same, on bin indices -----

  /** A bin index as a machine word. */
  function Word(i: nat): Bits
    requires i < 32
  {
    if i == 0 then 0 else Word(i - 1) + 1
  }

  lemma WordBound(i: nat)
    requires i < 32
    ensures Word(i) < 32 && (i == 31 ==> Word(i) == 31)
  {
    assert Word(0) == 0 && Word(1) == 1 && Word(2) == 2 && Word(3) == 3;
    assert Word(4) == 4 && Word(5) == 5 && Word(6) == 6 && Word(7) == 7;
    assert Word(8) == 8 && Word(9) == 9 && Word(10) == 10 && Word(11) == 11;
    assert Word(12) == 12 && Word(13) == 13 && Word(14) == 14 && Word(15) == 15;
    assert Word(16) == 16 && Word(17) == 17 && Word(18) == 18 && Word(19) == 19;
    assert Word(20) == 20 && Word(21) == 21 && Word(22) == 22 && Word(23) == 23;
    assert Word(24) == 24 && Word(25) == 25 && Word(26) == 26 && Word(27) == 27;
    assert Word(28) == 28 && Word(29) == 29 && Word(30) == 30 && Word(31) == 31;
  }

  lemma {:induction false} WordLess(i: nat, j: nat)
    requires i < j < 32
    ensures Word(i) < Word(j)
  {
    WordBound(j);
    WordBound(j - 1);
    if i < j - 1 {
      WordLess(i, j - 1);
    }
  }

  lemma WordOrder(i: nat, j: nat)
    requires i < 32 && j < 32
    ensures Word(i) < 32 && Word(j) < 32
    ensures i == j <==> Word(i) == Word(j)
    ensures i < j <==> Word(i) < Word(j)
  {
    WordBound(i);
    WordBound(j);
    if i < j {
      WordLess(i, j);
    } else if j < i {
      WordLess(j, i);
    }
  }

  /** `idx2bit` */
  function Bit(i: nat): Bits
    requires i < 32
  {
    WordBound(i);
    Shl(Word(i))
  }

  predicate Marked(m: Bits, i: nat)
    requires i < 32
  {
    WordBound(i);
    Has(m, Word(i))
  }

  predicate NoneBelow(m: Bits, i: nat)
    requires i <= 32
  {
    forall j: nat | j < i :: !Marked(m, j)
  }

  /** `mark_smallmap`, `mark_treemap` */
  function Mark(m: Bits, i: nat): Bits
    requires i < 32
  {
    Or(m, Bit(i))
  }

  /** `clear_smallmap`, `clear_treemap` */
  function Clear(m: Bits, i: nat): Bits
    requires i < 32
  {
    AndNot(m, Bit(i))
  }

  /** `compute_bit2idx`: the number of zero bits below the lowest set one, counted from bit `from` on. */
  function CountTrailing(m: Bits, from: nat := 0): (i: nat)
    requires from < 32 && exists j: nat :: from <= j < 32 && Marked(m, j)
    ensures from <= i < 32 && Marked(m, i) && forall j: nat | from <= j < i :: !Marked(m, j)
    decreases 32 - from
  {
    if Marked(m, from) then from else CountTrailing(m, from + 1)
  }

  lemma MarkMarks(m: Bits, i: nat, j: nat)
    requires i < 32 && j < 32
    ensures Marked(Mark(m, i), j) <==> j == i || Marked(m, j)
  {
    hide Word, Shl, Has, Or;
    WordOrder(i, j);
    OrHas(m, Word(i), Word(j));
  }

  lemma ClearClears(m: Bits, i: nat, j: nat)
    requires i < 32 && j < 32
    ensures Marked(Clear(m, i), j) <==> j != i && Marked(m, j)
  {
    hide Word, Shl, Has, AndNot;
    WordOrder(i, j);
    AndNotHas(m, Word(i), Word(j));
  }

  lemma NoneMarked(i: nat)
    requires i < 32
    ensures !Marked(0, i)
  {
    WordBound(i);
  }

  /** The bits below position i are those of the bins below i. */
  lemma {:induction false} LowBits(m: Bits, i: nat)
    requires i < 32
    ensures Word(i) < 32 && (LowClear(m, Word(i)) <==> NoneBelow(m, i))
  {
    hide Shl, Has, LowClear;
    WordBound(i);
    if i == 0 {
      LowClearStart(m);
    } else {
      LowBits(m, i - 1);
      WordOrder(i - 1, i);
      LowClearStep(m, Word(i - 1));
      assert NoneBelow(m, i) <==> NoneBelow(m, i - 1) && !Marked(m, i - 1);
    }
  }

  /** A map is zero exactly when no bin is marked. */
  lemma ZeroUnmarked(m: Bits)
    ensures m == 0 <==> NoneBelow(m, 32)
  {
    hide Shl, Has, LowClear;
    WordBound(31);
    LowBits(m, 31);
    AllClear(m);
    assert NoneBelow(m, 32) <==> NoneBelow(m, 31) && !Marked(m, 31);
  }

  /** `least_bit` keeps the lowest marked bin and nothing else. */
  lemma LeastBitIsLowest(m: Bits, i: nat)
    requires i < 32
    ensures Marked(LeastBit(m), i) <==> Marked(m, i) && NoneBelow(m, i)
  {
    hide Word, Shl, LeastBit, NoneBelow, Has, LowClear;
    LowBits(m, i);
    LeastHas(m, Word(i));
  }

  /** Isolating the least bit before counting the zeros below it changes nothing. */
  lemma LeastBitIndex(m: Bits)
    requires m != 0
    ensures (exists j: nat :: j < 32 && Marked(m, j)) && (exists j: nat :: j < 32 && Marked(LeastBit(m), j))
    ensures CountTrailing(LeastBit(m)) == CountTrailing(m)
  {
    hide Marked, LeastBit, Bit;
    ZeroUnmarked(m);
    var i := CountTrailing(m);
    assert NoneBelow(m, i);
    LeastBitIsLowest(m, i);
    assert Marked(LeastBit(m), i);
    var k := CountTrailing(LeastBit(m));
    LeastBitIsLowest(m, k);
    assert Marked(m, k) && NoneBelow(m, k);
  }

  /** The bins above i, as the searches form them from the bit of i. */
  lemma LeftBitsAbove(m: Bits, i: nat, j: nat)
    requires i < 32 && j < 32
    ensures Marked(LeftBits(Bit(i)) & m, j) <==> i < j && Marked(m, j)
  {
    hide Word, Shl, LeftBits, Has;
    WordOrder(i, j);
    LeftHas(m, Word(i), Word(j));
  }

  /** `m >> i` and `m << i` for a bin index */
  function ShiftDown(m: Bits, i: nat): Bits
    requires i < 32
  {
    WordBound(i);
    Down(m, Word(i))
  }

  function ShiftUp(m: Bits, i: nat): Bits
    requires i < 32
  {
    WordBound(i);
    Up(m, Word(i))
  }

  /** The two lowest bits of a shifted map are those of bins i and i + 1. */
  lemma ShiftedLowBits(m: Bits, i: nat)
    requires i < 31
    ensures LowTwo(ShiftDown(m, i)) <==> Marked(m, i) || Marked(m, i + 1)
    ensures LowestClear(ShiftDown(m, i)) <==> !Marked(m, i)
  {
    hide Shl, Has, Down, LowTwo, LowestClear;
    WordBound(i);
    WordOrder(i, 31);
    WordBound(31);
    assert Word(i + 1) == Word(i) + 1;
    hide Word;
    DownLowHas(m, Word(i));
  }

  /** Shifting down and up again clears the bins below i. */
  lemma ShiftedBack(m: Bits, i: nat, j: nat)
    requires i < 32 && j < 32
    ensures Marked(ShiftUp(ShiftDown(m, i), i), j) <==> i <= j && Marked(m, j)
  {
    hide Shl, Has, Down, Up, Word;
    WordOrder(i, j);
    UpDownHas(m, Word(i), Word(j));
  }

  lemma ShiftedZero(m: Bits, i: nat)
    requires i < 32
    ensures ShiftDown(m, i) == 0 <==> forall j: nat | i <= j < 32 :: !Marked(m, j)
  {
    hide Shl, Has, Down, Up, Word, Marked;
    WordBound(i);
    UpKeeps(m, Word(i));
    ZeroUnmarked(ShiftUp(ShiftDown(m, i), i));
    forall j: nat | j < 32 ensures Marked(ShiftUp(ShiftDown(m, i), i), j) <==> i <= j && Marked(m, j) {
      ShiftedBack(m, i, j);
    }
  }
}
