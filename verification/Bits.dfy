/** Powers of two and the arithmetic of shifts on unsigned machine words. */
module Bits {

  function Pow2(n: nat): (r: nat)
    ensures r > 0
  {
    if n == 0 then 1 else 2 * Pow2(n - 1)
  }

  /** `x >> k` */
  function Shr(x: nat, k: nat): nat
  {
    DivNonNegative(x, Pow2(k));
    x / Pow2(k)
  }

  lemma DivNonNegative(x: nat, d: nat)
    requires d > 0
    ensures x / d >= 0
  {
  }

  lemma MulMono(x: int, y: int, d: nat)
    requires x <= y
    ensures x * d <= y * d
  {
  }

  lemma EuclidUnique(d: nat, q: int, r: int, q': int, r': int)
    requires 0 <= r < d && 0 <= r' < d && q * d + r == q' * d + r'
    ensures q == q' && r == r'
  {
    assert (q + 1) * d == q * d + d && (q' + 1) * d == q' * d + d;
    if q < q' {
      MulMono(q + 1, q', d);
    } else if q' < q {
      MulMono(q' + 1, q, d);
    }
  }

  lemma Euclid(x: int, d: nat)
    requires d > 0
    ensures x == (x / d) * d + x % d && 0 <= x % d < d
  {
  }

  /** Quotient and remainder are determined by the Euclidean identity. */
  lemma DivUnique(x: int, d: int, q: int, r: int)
    requires 0 < d && 0 <= r < d && x == q * d + r
    ensures x / d == q && x % d == r
  {
    Euclid(x, d);
    EuclidUnique(d, q, r, x / d, x % d);
  }

  lemma {:induction false} Pow2Add(a: nat, b: nat)
    ensures Pow2(a + b) == Pow2(a) * Pow2(b)
  {
    if a != 0 {
      Pow2Add(a - 1, b);
      assert Pow2(a + b) == 2 * Pow2(a - 1 + b);
      assert 2 * (Pow2(a - 1) * Pow2(b)) == (2 * Pow2(a - 1)) * Pow2(b);
    }
  }

  lemma {:induction false} Pow2Mono(a: nat, b: nat)
    requires a <= b
    ensures Pow2(a) <= Pow2(b)
  {
    if a < b {
      Pow2Mono(a, b - 1);
    }
  }

  lemma Pow2Order(a: nat, b: nat)
    ensures a <= b ==> Pow2(a) <= Pow2(b)
  {
    if a <= b {
      Pow2Mono(a, b);
    }
  }

  lemma Pow2Double(n: nat)
    ensures Pow2(n + 1) == 2 * Pow2(n)
  {
  }

  lemma Pow2Values()
    ensures Pow2(7) == 128 && Pow2(8) == 0x100 && Pow2(15) == 0x8000 && Pow2(16) == 0x1_0000
    ensures Pow2(22) == 0x40_0000 && Pow2(23) == 0x80_0000
    ensures Pow2(63) == 0x8000_0000_0000_0000 && Pow2(64) == 0x1_0000_0000_0000_0000
  {
    assert Pow2(7) == 128 && Pow2(8) == 0x100;
    Pow2Add(8, 7);
    Pow2Add(15, 7);
    Pow2Add(15, 8);
    Pow2Add(8, 8);
    Pow2Add(16, 16);
    Pow2Add(32, 23);
    Pow2Add(55, 8);
    Pow2Double(63);
  }

  /** Dividing twice is dividing once by the product. */
  lemma DivDiv(x: nat, a: nat, b: nat)
    requires a > 0 && b > 0
    ensures a * b > 0 && x / (a * b) == (x / a) / b
  {
    Euclid(x, a);
    Euclid(x / a, b);
    DivDivStep(x, a, b, x / a / b, x / a % b, x % a);
  }

  lemma DivDivStep(x: nat, a: nat, b: nat, q: nat, r: nat, t: nat)
    requires t < a && r < b && x == (q * b + r) * a + t
    ensures a * b > 0 && x / (a * b) == q
  {
    MulDistribute(q, b, r, a);
    RemainderBound(a, b, r, t);
    DivUnique(x, a * b, q, r * a + t);
  }

  lemma MulDistribute(q: nat, b: nat, r: nat, a: nat)
    ensures (q * b + r) * a == q * (a * b) + r * a
  {
    MulAssoc(q, b, a);
  }

  lemma MulAssoc(x: int, y: int, z: int)
    ensures (x * y) * z == x * (y * z) == x * (z * y)
  {
  }

  lemma RemainderBound(a: nat, b: nat, r: nat, t: nat)
    requires t < a && r < b
    ensures 0 <= r * a + t < a * b
  {
    MulMono(r + 1, b, a);
    MulMono(0, r, a);
  }

  lemma DivMono(x: nat, y: nat, d: nat)
    requires x <= y && d > 0
    ensures x / d <= y / d
  {
    Euclid(x, d);
    Euclid(y, d);
    if y / d < x / d {
      MulMono(y / d + 1, x / d, d);
    }
  }

  /** A larger quotient needs a larger dividend. */
  lemma DivLess(x: nat, y: nat, d: nat)
    requires d > 0 && x / d < y / d
    ensures x < y
  {
    if y <= x {
      DivMono(y, x, d);
    }
  }

  /** Shifting `s` left by `e` in a 64-bit register puts bit 63 - e of `s` in the sign position. */
  lemma SignAfterShift(s: nat, e: nat)
    requires e <= 63
    ensures ((s * Pow2(e)) % Pow2(64)) / Pow2(63) == (s / Pow2(63 - e)) % 2
  {
    hide *;
    var f := 63 - e;
    Euclid(s, Pow2(f));
    Pow2Add(f, e);
    Pow2Double(63);
    var q := s / Pow2(f);
    SignStep(s, Pow2(e), Pow2(f), Pow2(63), q / 2, q % 2, s % Pow2(f));
  }

  lemma SignStep(s: nat, E: nat, F: nat, P: nat, h: nat, b: nat, r: nat)
    requires r < F && b < 2 && s == (2 * h + b) * F + r && F * E == P && E > 0 && P > 0
    ensures ((s * E) % (2 * P)) / P == b
  {
    SignProduct(s, E, F, P, h, b, r);
    RemainderBound(E, F, r, 0);
    var t := r * E;
    var low := if b == 0 then t else P + t;
    DivUnique(s * E, 2 * P, h, low);
    DivUnique(low, P, b, t);
  }

  lemma SignProduct(s: nat, E: nat, F: nat, P: nat, h: nat, b: nat, r: nat)
    requires b < 2 && s == (2 * h + b) * F + r && F * E == P
    ensures s * E == h * (2 * P) + (if b == 0 then r * E else P + r * E)
  {
    MulDistribute(2 * h + b, F, r, E);
    MulComm(E, F);
  }

  lemma MulComm(x: int, y: int)
    ensures x * y == y * x
  {
  }

  /** One more left shift of a 64-bit register. */
  lemma ShiftOnce(s: nat, e: nat)
    ensures (2 * ((s * Pow2(e)) % Pow2(64))) % Pow2(64) == (s * Pow2(e + 1)) % Pow2(64)
  {
    hide *;
    Pow2Double(e);
    DoubleProduct(s, Pow2(e));
    DoubleModulo(s * Pow2(e), Pow2(64));
  }

  lemma DoubleProduct(x: int, y: int)
    ensures x * (2 * y) == 2 * (x * y)
  {
  }

  lemma DoubleModulo(x: nat, M: nat)
    requires M > 0
    ensures (2 * (x % M)) % M == (2 * x) % M
  {
    Euclid(x, M);
    var y := 2 * (x % M);
    Euclid(y, M);
    DoubleModuloStep(x, M, x / M, y / M, y % M);
  }

  lemma DoubleModuloStep(x: nat, M: nat, q: nat, q2: nat, r2: nat)
    requires r2 < M && 2 * (x - q * M) == q2 * M + r2
    ensures (2 * x) % M == r2
  {
    assert (2 * q + q2) * M == 2 * (q * M) + q2 * M;
    DivUnique(2 * x, M, 2 * q + q2, r2);
  }
}
