/** The arithmetic of `internal_memalign`: powers of two, masks, and the aligned spot inside a chunk. */
module Alignment {
  import opened Bits

  const WORD_MODULUS := 0x1_0000_0000_0000_0000
  const MIN_ALIGNMENT := 32

  /** `a & b` */
  function BitAnd(a: nat, b: nat): nat
  {
    if a == 0 || b == 0 then 0 else (if a % 2 == 1 && b % 2 == 1 then 1 else 0) + 2 * BitAnd(a / 2, b / 2)
  }

  lemma {:induction false} AndSelf(a: nat)
    ensures BitAnd(a, a) == a
  {
    if a > 0 {
      AndSelf(a / 2);
    }
  }

  /** `(a & (a - 1)) == 0` recognises the powers of two. */
  lemma {:induction false} PowerOfTwoTest(a: nat) returns (k: nat)
    requires a > 0
    ensures BitAnd(a, a - 1) == 0 ==> a == Pow2(k)
    ensures forall j: nat :: a == Pow2(j) ==> BitAnd(a, a - 1) == 0
  {
    if a % 2 == 1 {
      k := 0;
      AndSelf(a / 2);
      if a > 1 {
        assert (a - 1) / 2 == a / 2;
      }
      forall j: nat | a == Pow2(j) ensures BitAnd(a, a - 1) == 0 {
        if j > 0 {
          Pow2Double(j - 1);
        }
      }
    } else {
      k := PowerOfTwoTest(a / 2);
      assert (a - 1) / 2 == a / 2 - 1;
      Pow2Double(k);
      k := k + 1;
      forall j: nat | a == Pow2(j) ensures BitAnd(a, a - 1) == 0 {
        if j > 0 {
          Pow2Double(j - 1);
        }
      }
    }
  }

  /** `x & (A - 1)` is the remainder by the power of two A. */
  lemma {:induction false} LowMask(x: nat, k: nat)
    ensures BitAnd(x, Pow2(k) - 1) == x % Pow2(k)
  {
    if k == 0 {
    } else if x == 0 {
      ModSmall(0, Pow2(k));
    } else {
      Pow2Double(k - 1);
      var p := Pow2(k - 1);
      LowMask(x / 2, k - 1);
      ModDouble(x, p);
      assert (2 * p - 1) / 2 == p - 1;
    }
  }

  lemma ModSmall(x: nat, d: nat)
    requires x < d
    ensures x % d == x
  {
  }

  lemma ModDouble(x: nat, p: nat)
    requires p > 0
    ensures x % (2 * p) == x % 2 + 2 * ((x / 2) % p)
  {
    var q, r := (x / 2) / p, (x / 2) % p;
    Euclid(x / 2, p);
    MulAssoc(q, 2, p);
    DoubleParts(x, q, p, r);
    DivUnique(x, 2 * p, q, x % 2 + 2 * r);
  }

  lemma DoubleParts(x: nat, q: nat, p: nat, r: nat)
    requires x / 2 == q * p + r && r < p
    ensures x == q * (2 * p) + (x % 2 + 2 * r) && x % 2 + 2 * r < 2 * p
  {
    MulAssoc(q, 2, p);
    assert q * (2 * p) == 2 * (q * p);
  }

  lemma AndEven(x: nat, b: nat)
    ensures BitAnd(x, 2 * b) == 2 * BitAnd(x / 2, b)
  {
    if x > 0 && b > 0 {
      assert (2 * b) / 2 == b && (2 * b) % 2 == 0;
    }
  }

  /** `x` rounded down to a multiple of `a` */
  function Floor(x: nat, a: nat): nat
    requires a > 0
  {
    Euclid(x, a);
    MulNat(x / a, a);
    x - x % a
  }

  lemma MulNat(q: nat, a: nat)
    ensures q * a >= 0
  {
  }

  lemma FloorDouble(x: nat, p: nat)
    requires p > 0
    ensures Floor(x, 2 * p) == 2 * Floor(x / 2, p)
  {
    ModDouble(x, p);
  }

  lemma FloorOne(x: nat)
    ensures Floor(x, 1) == x
  {
  }

  /** `x & -A` clears that remainder: the bits of -A are those of the word from A's up. */
  lemma {:induction false} HighMask(x: nat, n: nat, k: nat)
    requires k <= n && x < Pow2(n)
    ensures Pow2(k) <= Pow2(n) && BitAnd(x, Pow2(n) - Pow2(k)) == Floor(x, Pow2(k))
  {
    hide BitAnd, Floor;
    Pow2Mono(k, n);
    if k == 0 {
      MaskAll(x, n);
      FloorOne(x);
    } else {
      Pow2Double(n - 1);
      Pow2Double(k - 1);
      HighMask(x / 2, n - 1, k - 1);
      hide Pow2;
      AndEven(x, Pow2(n - 1) - Pow2(k - 1));
      FloorDouble(x, Pow2(k - 1));
    }
  }

  lemma MaskAll(x: nat, n: nat)
    requires x < Pow2(n)
    ensures BitAnd(x, Pow2(n) - 1) == x
  {
    LowMask(x, n);
    ModSmall(x, Pow2(n));
  }

  // ----- Rounding the alignment up -----

  /** `a <<= 1`, n times from the least alignment */
  function Doubling(n: nat): (a: nat)
    ensures a < WORD_MODULUS
  {
    if n == 0 then MIN_ALIGNMENT else 2 * Doubling(n - 1) % WORD_MODULUS
  }

  lemma {:induction false} DoublingIs(n: nat)
    ensures Doubling(n) == if n <= 58 then Pow2(n + 5) else 0
  {
    if n == 0 {
      LeastAbove();
    } else {
      DoublingIs(n - 1);
      hide Pow2;
      if n <= 58 {
        TwiceBelow(n + 4);
      } else if n == 59 {
        TwiceTop();
      }
    }
  }

  lemma TwiceBelow(k: nat)
    requires k < 63
    ensures 2 * Pow2(k) % WORD_MODULUS == Pow2(k + 1)
  {
    Pow2Values();
    Pow2Double(k);
    Pow2Mono(k + 1, 63);
    ModSmall(2 * Pow2(k), WORD_MODULUS);
  }

  lemma TwiceTop()
    ensures 2 * Pow2(63) % WORD_MODULUS == 0
  {
    Pow2Values();
  }

  /** The loop that doubles until the alignment is reached ends exactly for alignments up to 2^63. */
  lemma DoublingReaches(alignment: nat)
    ensures (exists n: nat :: Doubling(n) >= alignment) <==> alignment <= 0x8000_0000_0000_0000
  {
    Pow2Values();
    DoublingIs(58);
    if alignment > 0x8000_0000_0000_0000 {
      forall n: nat ensures Doubling(n) < alignment {
        DoublingIs(n);
        if n <= 58 {
          Pow2Mono(n + 5, 63);
        }
      }
    } else {
      assert Doubling(58) >= alignment;
    }
  }

  /** `a` is the least power of two from 32 on that is at least `alignment`. */
  ghost predicate LeastPower(a: nat, k: nat, alignment: nat)
  {
    && 5 <= k <= 63 && a == Pow2(k) && a >= alignment && MIN_ALIGNMENT <= a <= 0x8000_0000_0000_0000
    && forall j: nat | 5 <= j && Pow2(j) >= alignment :: a <= Pow2(j)
  }

  /** The alignment that `internal_memalign` works with */
  method RoundAlignment(alignment: nat) returns (a: nat, ghost k: nat)
    requires alignment <= 0x8000_0000_0000_0000
    ensures LeastPower(a, k, alignment)
  {
    hide BitAnd, LeastPower, Pow2;
    a := if alignment < MIN_ALIGNMENT then MIN_ALIGNMENT else alignment;
    k := PowerOfTwoTest(a);
    if BitAnd(a, a - 1) != 0 {
      var b := MIN_ALIGNMENT;
      k := 5;
      LeastAbove();
      while b < a
        invariant 5 <= k <= 63 && b == Pow2(k)
        invariant forall j: nat | 5 <= j < k :: Pow2(j) < a
        decreases a - b
      {
        DoubleOnce(k);
        b := 2 * b % WORD_MODULUS;
        k := k + 1;
      }
      LeastReached(b, k, a, alignment);
      a := b;
    } else {
      LeastItself(a, k, alignment);
    }
  }

  lemma DoubleOnce(k: nat)
    requires 5 <= k <= 63 && Pow2(k) < 0x8000_0000_0000_0000
    ensures k < 63 && 2 * Pow2(k) % WORD_MODULUS == Pow2(k + 1) > Pow2(k)
  {
    Pow2Values();
    Pow2Order(63, k);
    Pow2Double(k);
    ModSmall(2 * Pow2(k), WORD_MODULUS);
  }

  lemma LeastReached(b: nat, k: nat, a: nat, alignment: nat)
    requires 5 <= k <= 63 && b == Pow2(k) && b >= a >= alignment && (forall j: nat | 5 <= j < k :: Pow2(j) < a)
    requires a == if alignment < MIN_ALIGNMENT then MIN_ALIGNMENT else alignment
    ensures LeastPower(b, k, alignment)
  {
    Pow2Values();
    LeastAbove();
    Pow2Mono(k, 63);
    forall j: nat | 5 <= j && Pow2(j) >= alignment ensures b <= Pow2(j) {
      Pow2Mono(5, j);
      Pow2Order(k, j);
    }
  }

  lemma LeastItself(a: nat, k: nat, alignment: nat)
    requires a == Pow2(k) && a == if alignment < MIN_ALIGNMENT then MIN_ALIGNMENT else alignment
    requires alignment <= 0x8000_0000_0000_0000
    ensures LeastPower(a, k, alignment)
  {
    Pow2Values();
    LeastAbove();
    Pow2Order(k, 4);
    Pow2Order(64, k);
    forall j: nat | 5 <= j && Pow2(j) >= alignment ensures a <= Pow2(j) {
      Pow2Mono(5, j);
    }
  }

  lemma LeastAbove()
    ensures Pow2(4) == 16 && Pow2(5) == MIN_ALIGNMENT && Pow2(62) == 0x4000_0000_0000_0000
  {
    Pow2Values();
  }

  // ----- The aligned spot -----

  /** Where the aligned chunk starts inside the chunk at `p`: its memory is a multiple of the alignment, and
      there is room for a chunk before it. */
  function AlignedSpot(p: nat, a: nat): int
    requires 0 < a <= WORD_MODULUS
  {
    var br := BitAnd((p + 16 + a - 1) % WORD_MODULUS, WORD_MODULUS - a) - 16;
    if br - p >= 32 then br else br + a
  }

  lemma SpotFits(p: nat, a: nat, k: nat)
    requires 5 <= k <= 63 && a == Pow2(k) && p % 16 == 0 && (p + 16) % a != 0 && p + 16 + a <= WORD_MODULUS
    ensures a <= WORD_MODULUS && AlignedSpot(p, a) >= 0
    ensures var pos := AlignedSpot(p, a); pos % 16 == 0 && (pos + 16) % a == 0 && p + 32 <= pos <= p + a + 16
  {
    hide BitAnd, Pow2, NextUp;
    Pow2Of32(k);
    RoundUpTo(p + 16, a);
    MaskedSum(p + 16, a, k);
    NextMultiple(NextUp(p + 16, a), a);
    SpotOf(p, a, NextUp(p + 16, a));
  }

  /** The same in terms of the masks that the code uses */
  lemma SpotAligned(p: nat, a: nat, k: nat)
    requires 5 <= k <= 63 && a == Pow2(k) && p % 16 == 0 && BitAnd(p + 16, a - 1) != 0 && p + 16 + a <= WORD_MODULUS
    ensures a <= WORD_MODULUS && AlignedSpot(p, a) >= 0 && BitAnd(AlignedSpot(p, a) + 16, a - 1) == 0
    ensures var pos := AlignedSpot(p, a); pos % 16 == 0 && p + 32 <= pos <= p + a + 16
  {
    hide BitAnd, AlignedSpot, Pow2;
    LowMask(p + 16, k);
    SpotFits(p, a, k);
    LowMask(AlignedSpot(p, a) + 16, k);
  }

  /** `x` rounded up to a multiple of `a` */
  function NextUp(x: nat, a: nat): (c: nat)
    requires a > 0
    ensures c >= x
  {
    Euclid(x + a - 1, a);
    Floor(x + a - 1, a)
  }

  lemma MaskedSum(mem: nat, a: nat, k: nat)
    requires k <= 63 && a == Pow2(k) && mem + a <= WORD_MODULUS
    ensures a <= WORD_MODULUS && BitAnd((mem + a - 1) % WORD_MODULUS, WORD_MODULUS - a) == NextUp(mem, a)
  {
    hide BitAnd;
    Pow2Values();
    Pow2Mono(k, 64);
    ModSmall(mem + a - 1, WORD_MODULUS);
    HighMask(mem + a - 1, 64, k);
  }

  lemma SpotOf(p: nat, a: nat, c: nat)
    requires p % 16 == 0 && a % 16 == 0 && a >= 32 && c % 16 == 0 && p + 16 < c < p + 16 + a
    ensures var pos := if c - 16 - p >= 32 then c - 16 else c - 16 + a;
            (pos == c - 16 || pos == c + a - 16) && pos % 16 == 0 && p + 32 <= pos <= p + a + 16
  {
  }

  /** Powers of two from 32 on are multiples of 16, from 4096 on of 4096. */
  lemma Pow2Of32(k: nat)
    requires k >= 5
    ensures Pow2(k) % 16 == 0 && Pow2(k) >= 32 && (k >= 12 ==> Pow2(k) % 4096 == 0) && (k < 12 ==> Pow2(k) < 4096)
  {
    Pow2Add(k - 4, 4);
    assert Pow2(4) == 16;
    Pow2Mono(5, k);
    MulOf(Pow2(k - 4), 16);
    if k >= 12 {
      Pow2Add(k - 12, 12);
      assert Pow2(12) == 4096 by {
        Pow2Values();
      }
      MulOf(Pow2(k - 12), 4096);
    } else {
      assert Pow2(11) == 2048 by {
        Pow2Values();
      }
      Pow2Mono(k, 11);
    }
  }

  lemma MulOf(q: nat, d: nat)
    requires d > 0
    ensures (q * d) % d == 0
  {
    DivUnique(q * d, d, q, 0);
  }

  /** Rounding a multiple of 16 up to the next multiple of `a` */
  lemma RoundUpTo(mem: nat, a: nat)
    requires a > 0 && a % 16 == 0 && mem % 16 == 0 && mem % a != 0
    ensures var c := NextUp(mem, a); mem < c < mem + a && c % a == 0 && c % 16 == 0
  {
    var x := mem + a - 1;
    Euclid(x, a);
    MulOf(x / a, a);
    Multiple16(x / a, a);
  }

  lemma Multiple16(q: nat, a: nat)
    requires a % 16 == 0
    ensures (q * a) % 16 == 0
  {
    var t := a / 16;
    MulAssoc(q, t, 16);
    MulOf(q * t, 16);
  }

  lemma NextMultiple(c: nat, a: nat)
    requires a > 0 && c % a == 0
    ensures (c + a) % a == 0
  {
    Euclid(c, a);
    DivUnique(c + a, a, c / a + 1, 0);
  }
}
