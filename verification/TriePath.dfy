/** The path that a size takes through the trie of its bin: bit by bit from the highest bit in which
    two sizes of the bin can differ. */
module TriePath {
  import opened Bits
  import opened TreeIndex

  /** The size with all but its first `d` distinguishing bits dropped. */
  function Prefix(i: nat, s: nat, d: nat): nat
  {
    if d <= Width(i) then Shr(s, Width(i) - d) else s
  }

  /** Which child the size goes to at depth `d`. */
  function Dir(i: nat, s: nat, d: nat): nat
  {
    Prefix(i, s, d + 1) % 2
  }

  predicate Large(s: nat)
  {
    MIN_LARGE_SIZE <= s < INDEX_LIMIT
  }

  /** The register that the loops shift left once a level. */
  function SizeBits(i: nat, s: nat, d: nat): nat
    requires i < NTREEBINS
  {
    ModNonNegative(s * Pow2(LeftShift(i) + d), Pow2(64));
    (s * Pow2(LeftShift(i) + d)) % Pow2(64)
  }

  /** `sizebits <<= 1` */
  function ShiftedLeft(k: nat): nat
  {
    ModNonNegative(2 * k, Pow2(64));
    (2 * k) % Pow2(64)
  }

  lemma ModNonNegative(x: nat, m: nat)
    requires m > 0
    ensures x % m >= 0
  {
  }

  /** Its sign bit chooses the child. */
  function SignBit(k: nat): nat
  {
    Shr(k, 63)
  }

  lemma SignIsDir(i: nat, s: nat, d: nat)
    requires i < NTREEBINS && d < Width(i)
    ensures SignBit(SizeBits(i, s, d)) == Dir(i, s, d) && Dir(i, s, d) < 2
  {
    hide Pow2;
    SignAfterShift(s, LeftShift(i) + d);
  }

  lemma SizeBitsShift(i: nat, s: nat, d: nat)
    requires i < NTREEBINS
    ensures ShiftedLeft(SizeBits(i, s, d)) == SizeBits(i, s, d + 1)
  {
    ShiftOnce(s, LeftShift(i) + d);
  }

  lemma PrefixStep(i: nat, s: nat, d: nat)
    requires d < Width(i)
    ensures Prefix(i, s, d + 1) == 2 * Prefix(i, s, d) + Dir(i, s, d)
  {
    hide Pow2;
    var k := Width(i) - d - 1;
    Pow2Double(k);
    DivDiv(s, Pow2(k), 2);
    MulComm(Pow2(k), 2);
    Euclid(Prefix(i, s, d + 1), 2);
  }

  lemma PrefixFull(i: nat, s: nat)
    ensures Prefix(i, s, Width(i)) == s
  {
    assert Pow2(0) == 1;
  }

  /** Sizes that agree on d bits agree on fewer. */
  lemma {:induction false} PrefixShorter(i: nat, s: nat, t: nat, e: nat, d: nat)
    requires e <= d <= Width(i) && Prefix(i, s, d) == Prefix(i, t, d)
    ensures Prefix(i, s, e) == Prefix(i, t, e)
    decreases d - e
  {
    hide Prefix, Dir;
    if e < d {
      PrefixStep(i, s, d - 1);
      PrefixStep(i, t, d - 1);
      DirBit(i, s, d - 1);
      DirBit(i, t, d - 1);
      PrefixShorter(i, s, t, e, d - 1);
    }
  }

  lemma DirBit(i: nat, s: nat, d: nat)
    ensures Dir(i, s, d) == 0 || Dir(i, s, d) == 1
  {
  }

  lemma SameDir(i: nat, s: nat, t: nat, d: nat)
    requires Prefix(i, s, d + 1) == Prefix(i, t, d + 1)
    ensures Dir(i, s, d) == Dir(i, t, d)
  {
  }

  lemma PrefixLonger(i: nat, s: nat, t: nat, d: nat)
    requires d < Width(i) && Prefix(i, s, d) == Prefix(i, t, d) && Dir(i, s, d) == Dir(i, t, d)
    ensures Prefix(i, s, d + 1) == Prefix(i, t, d + 1)
  {
    PrefixStep(i, s, d);
    PrefixStep(i, t, d);
  }

  /** Two sizes of one bin differ in a distinguishing bit or not at all. */
  lemma SameBinSamePrefix(s: nat, t: nat, i: nat)
    requires Large(s) && Large(t) && ComputeTreeIndex(s) == ComputeTreeIndex(t) == i
    ensures Prefix(i, s, 0) == Prefix(i, t, 0)
  {
    TreeIndexRange(s);
    TreeIndexRange(t);
    if i == 31 {
      Pow2Values();
      DivUnique(s, Pow2(64), 0, s);
      DivUnique(t, Pow2(64), 0, t);
    } else {
      BinQuotient(s, i);
      BinQuotient(t, i);
    }
  }

  lemma BinQuotient(s: nat, i: nat)
    requires MinSize(i) <= s < MinSize(i + 1)
    ensures s / Pow2(i / 2 + 7) == 2 + i % 2
  {
    MinSizeStep(i);
    Pow2Double(i / 2 + 7);
    var h := Pow2(i / 2 + 7);
    hide Pow2;
    assert MinSize(i) == (if i % 2 == 0 then 2 * h else 3 * h);
    DivUnique(s, h, 2 + i % 2, s - MinSize(i));
  }

  /** The left subtree of a node holds smaller sizes than the right one. */
  lemma LeftBelowRight(i: nat, s: nat, t: nat, d: nat)
    requires d < Width(i) && Prefix(i, s, d) == Prefix(i, t, d) && Dir(i, s, d) == 0 && Dir(i, t, d) == 1
    ensures s < t
  {
    PrefixStep(i, s, d);
    PrefixStep(i, t, d);
    DivLess(s, t, Pow2(Width(i) - d - 1));
  }

  /** Different sizes that agree on d bits leave a bit to look at. */
  lemma DepthBound(i: nat, s: nat, t: nat, d: nat)
    requires d <= Width(i) && Prefix(i, s, d) == Prefix(i, t, d) && s != t
    ensures d < Width(i)
  {
    PrefixFull(i, s);
    PrefixFull(i, t);
  }
}
