/** Which tree bin a chunk size belongs to, and which of its bits the bin's trie looks at. */
module TreeIndex {
  import opened Bits

  const NTREEBINS := 32
  const MIN_LARGE_SIZE := 256
  /** Sizes from here on lose bits when `S >> 8` is cut to an unsigned int. */
  const INDEX_LIMIT := 0x100_0000_0000
  const SIZE_MODULUS := 0x1_0000_0000_0000_0000

  /** Position of the highest set bit, 31 - clz for a 32-bit argument. */
  function Log2(x: nat): (k: nat)
    requires x > 0
    ensures Pow2(k) <= x < Pow2(k + 1)
  {
    if x == 1 then 0 else 1 + Log2(x / 2)
  }

  /** `compute_tree_index`, with `X` an unsigned 32-bit variable. */
  function ComputeTreeIndex(s: nat): (i: nat)
    ensures i < NTREEBINS
  {
    var x := (s / 256) % 0x1_0000_0000;
    if x == 0 then 0
    else if x > 0xFFFF then NTREEBINS - 1
    else
      Log2Bound(x);
      2 * Log2(x) + (s / Pow2(Log2(x) + 7)) % 2
  }

  /** `minsize_for_tree_index` */
  function MinSize(i: nat): (s: nat)
    ensures s >= MIN_LARGE_SIZE
  {
    Pow2Mono(8, i / 2 + 8);
    Pow2Values();
    Pow2(i / 2 + 8) + (i % 2) * Pow2(i / 2 + 7)
  }

  /** Number of size bits in which two chunks of bin `i` may differ. */
  function Width(i: nat): nat
  {
    if i == NTREEBINS - 1 then 64 else i / 2 + 7
  }

  /** `leftshift_for_tree_index` */
  function LeftShift(i: nat): (k: nat)
    requires i < NTREEBINS
    ensures k == 64 - Width(i)
  {
    if i == NTREEBINS - 1 then 0 else 63 - (i / 2 + 8 - 2)
  }

  lemma Log2Bound(x: nat)
    requires 0 < x <= 0xFFFF
    ensures Log2(x) <= 15
  {
    Pow2Values();
    if Log2(x) > 15 {
      Pow2Mono(16, Log2(x));
    }
  }

  lemma MinSizeStep(i: nat)
    ensures MinSize(i + 1) == MinSize(i) + Pow2(i / 2 + 7)
  {
    assert Pow2(i / 2 + 8) == 2 * Pow2(i / 2 + 7);
    if i % 2 == 1 {
      assert (i + 1) / 2 == i / 2 + 1;
      assert Pow2(i / 2 + 9) == 2 * Pow2(i / 2 + 8);
    }
  }

  lemma {:induction false} MinSizeMono(i: nat, j: nat)
    requires i <= j
    ensures MinSize(i) <= MinSize(j)
  {
    if i < j {
      MinSizeMono(i, j - 1);
      MinSizeStep(j - 1);
    }
  }

  lemma MinSizeLast()
    ensures MinSize(31) == 0xC0_0000
  {
    Pow2Values();
  }

  /** A size between two powers of two lies in the half range that its second highest bit selects. */
  lemma HalfSplit(s: nat, k: nat)
    requires Pow2(k + 8) <= s < Pow2(k + 9)
    ensures var i := 2 * k + (s / Pow2(k + 7)) % 2; MinSize(i) <= s < MinSize(i + 1)
  {
    hide *;
    Euclid(s, Pow2(k + 7));
    Pow2Double(k + 7);
    Pow2Double(k + 8);
    HalfOfQuotient(s, k, s / Pow2(k + 7), s % Pow2(k + 7));
  }

  lemma HalfOfQuotient(s: nat, k: nat, q: nat, r: nat)
    requires s == q * Pow2(k + 7) + r && r < Pow2(k + 7) && 2 * Pow2(k + 7) <= s < 4 * Pow2(k + 7)
    ensures MinSize(2 * k + q % 2) <= s < MinSize(2 * k + q % 2 + 1)
  {
    hide *;
    QuotientTwoOrThree(s, Pow2(k + 7), q, r);
    MinSizeHalves(k);
    if q == 2 {
      assert q % 2 == 0;
    } else {
      assert q % 2 == 1;
    }
  }

  lemma MinSizeHalves(k: nat)
    ensures MinSize(2 * k) == 2 * Pow2(k + 7) && MinSize(2 * k + 1) == 3 * Pow2(k + 7)
    ensures MinSize(2 * k + 2) == 4 * Pow2(k + 7)
  {
    assert (2 * k) / 2 == k && (2 * k + 1) / 2 == k && (2 * k + 1) % 2 == 1;
    assert Pow2(k + 8) == 2 * Pow2(k + 7);
    MinSizeStep(2 * k);
    MinSizeStep(2 * k + 1);
  }

  lemma QuotientTwoOrThree(s: nat, h: nat, q: nat, r: nat)
    requires s == q * h + r && r < h && 2 * h <= s < 4 * h
    ensures (q == 2 && s < 3 * h) || (q == 3 && 3 * h <= s)
  {
    if q < 2 {
      MulMono(q, 1, h);
    } else if q > 3 {
      MulMono(4, q, h);
    }
  }

  lemma ShiftLog(s: nat)
    requires 256 <= s
    ensures s / 256 > 0 && Pow2(Log2(s / 256) + 8) <= s < Pow2(Log2(s / 256) + 9)
  {
    hide Pow2, Log2;
    var k := Log2(s / 256);
    Times256(k);
    Times256(k + 1);
  }

  lemma Times256(k: nat)
    ensures Pow2(k + 8) == 256 * Pow2(k)
  {
    Pow2Values();
    Pow2Add(k, 8);
  }

  /** While `S >> 8` fits, the index is the bin whose range holds the size. */
  lemma TreeIndexRange(s: nat)
    requires MIN_LARGE_SIZE <= s < INDEX_LIMIT
    ensures MinSize(ComputeTreeIndex(s)) <= s
    ensures ComputeTreeIndex(s) < 31 ==> s < MinSize(ComputeTreeIndex(s) + 1)
  {
    hide MinSize, Pow2;
    var x := s / 256;
    SmallModulus(x);
    MinSizeLast();
    if x <= 0xFFFF {
      Log2Bound(x);
      ShiftLog(s);
      HalfSplit(s, Log2(x));
    }
  }

  lemma SmallModulus(x: nat)
    requires x < 0x1_0000_0000
    ensures x % 0x1_0000_0000 == x
  {
    DivUnique(x, 0x1_0000_0000, 0, x);
  }

  /** The bin is the only one whose range holds the size. */
  lemma TreeIndexUnique(s: nat, i: nat)
    requires MIN_LARGE_SIZE <= s < INDEX_LIMIT && i < NTREEBINS
    ensures i == ComputeTreeIndex(s) <==> MinSize(i) <= s && (i < 31 ==> s < MinSize(i + 1))
  {
    hide MinSize, ComputeTreeIndex;
    TreeIndexRange(s);
    var c := ComputeTreeIndex(s);
    if i < c {
      MinSizeMono(i + 1, c);
    } else if c < i {
      MinSizeMono(c + 1, i);
    }
  }

  lemma TreeIndexMono(s: nat, t: nat)
    requires MIN_LARGE_SIZE <= s <= t < INDEX_LIMIT
    ensures ComputeTreeIndex(s) <= ComputeTreeIndex(t)
  {
    TreeIndexRange(s);
    TreeIndexRange(t);
    if ComputeTreeIndex(t) < ComputeTreeIndex(s) {
      MinSizeMono(ComputeTreeIndex(t) + 1, ComputeTreeIndex(s));
    }
  }

  /** For all 64-bit sizes: the index is right exactly when the cut `S >> 8` lost nothing or still
      selects the last bin. */
  lemma TreeIndexExact(s: nat)
    requires MIN_LARGE_SIZE <= s < SIZE_MODULUS
    ensures (MinSize(ComputeTreeIndex(s)) <= s && (ComputeTreeIndex(s) < 31 ==> s < MinSize(ComputeTreeIndex(s) + 1)))
       <==> (s < INDEX_LIMIT || (s / 256) % 0x1_0000_0000 >= 0xC000)
  {
    if s < INDEX_LIMIT {
      TreeIndexRange(s);
    } else {
      MinSizeLast();
      var i := ComputeTreeIndex(s);
      if i < 31 {
        MinSizeMono(i + 1, 31);
      }
      WrappedIndex(s);
    }
  }

  lemma WrappedIndex(s: nat)
    requires INDEX_LIMIT <= s < SIZE_MODULUS
    ensures ComputeTreeIndex(s) == 31 <==> (s / 256) % 0x1_0000_0000 >= 0xC000
  {
    var x := (s / 256) % 0x1_0000_0000;
    if 0 < x <= 0xFFFF {
      WrappedLog(x);
      if x >= 0x8000 {
        hide Log2, Pow2;
        Pow2Values();
        BitOfTruncation(s, x);
      }
    }
  }

  lemma WrappedLog(x: nat)
    requires 0 < x <= 0xFFFF
    ensures if x >= 0x8000 then Log2(x) == 15 else Log2(x) <= 14
  {
    hide *;
    Log2Bound(x);
    Pow2Values();
    Pow2Order(Log2(x) + 1, 15);
    Pow2Order(15, Log2(x));
  }

  lemma BitOfTruncation(s: nat, x: nat)
    requires x == (s / 256) % 0x1_0000_0000 && 0x8000 <= x <= 0xFFFF
    ensures (s / 0x40_0000) % 2 == 1 <==> x >= 0xC000
  {
    DivDiv(s, 256, 0x4000);
    var y := s / 256;
    Euclid(y, 0x1_0000_0000);
    var m := y / 0x1_0000_0000;
    var q := if x >= 0xC000 then 3 else 2;
    DivUnique(y, 0x4000, m * 0x4_0000 + q, x - q * 0x4000);
    DivUnique(m * 0x4_0000 + q, 2, m * 0x2_0000 + 1, q - 2);
  }

  /** A terabyte chunk is put in bin 0, below its range's end. */
  lemma TreeIndexWraps()
    ensures ComputeTreeIndex(INDEX_LIMIT) == 0 && INDEX_LIMIT >= MinSize(1)
  {
    assert (INDEX_LIMIT / 256) % 0x1_0000_0000 == 0;
    MinSizeMono(1, 31);
    MinSizeLast();
  }
}
