/** Request sizes: padding and alignment in 64-bit unsigned arithmetic. */
module Requests {
  import TreeIndex

  const MAX_SIZE_T := 0xFFFF_FFFF_FFFF_FFFF
  const WORD_MODULUS := TreeIndex.SIZE_MODULUS
  const MAX_REQUEST := 0xFFFF_FFFF_FFFF_FF80
  const MIN_REQUEST := 23
  const MAX_SMALL_REQUEST := 232
  const MIN_CHUNK := 32
  const PAGE_SIZE := 4096
  const GRANULARITY := 65536
  const MMAP_THRESHOLD := 262144
  const TRIM_THRESHOLD := 2097152
  const MAX_RELEASE_CHECK_RATE := 4095
  const SYS_ALLOC_PADDING := 96
  /** `MAP_FAILED`, which no page-aligned address equals */
  const CMFAIL := MAX_SIZE_T

  /** `pad_request` */
  function PadRequest(bytes: nat): nat
  {
    (bytes + 23) - (bytes + 23) % 16
  }

  /** `request2size` */
  function RequestSize(bytes: nat): nat
  {
    if bytes < MIN_REQUEST then MIN_CHUNK else PadRequest(bytes)
  }

  /** A chunk of the padded size holds the request and the chunk's own overhead, and little more. */
  lemma RequestFits(bytes: nat)
    requires bytes < MAX_REQUEST
    ensures var nb := RequestSize(bytes); nb % 16 == 0 && nb >= MIN_CHUNK && bytes + 8 <= nb < WORD_MODULUS
    ensures RequestSize(bytes) == MIN_CHUNK || RequestSize(bytes) < bytes + 24
    ensures bytes <= MAX_SMALL_REQUEST <==> RequestSize(bytes) < TreeIndex.MIN_LARGE_SIZE
    ensures bytes <= MAX_SMALL_REQUEST ==> RequestSize(bytes) <= 240
  {
  }

  /** `(s + (unit - 1)) & ~(unit - 1)` for a unit that is a power of two: 4096 or 65536 */
  function AlignUp(s: nat, unit: nat): nat
    requires unit == PAGE_SIZE || unit == GRANULARITY
  {
    (s + unit - 1) % WORD_MODULUS - ((s + unit - 1) % WORD_MODULUS) % unit
  }

  /** What `sys_alloc` asks the system for. */
  function SegmentSize(nb: nat): nat
  {
    AlignUp((nb + SYS_ALLOC_PADDING) % WORD_MODULUS, GRANULARITY)
  }

  /** What `mmap_alloc` asks the system for. */
  function MmapSize(nb: nat): nat
  {
    AlignUp((nb + 63) % WORD_MODULUS, PAGE_SIZE)
  }

  /** A result above the request has not wrapped around. */
  lemma AlignedEnough(nb: nat, pad: nat, unit: nat)
    requires unit == PAGE_SIZE || unit == GRANULARITY
    requires 0 < pad <= 96 && nb < WORD_MODULUS
    ensures var s := AlignUp((nb + pad) % WORD_MODULUS, unit);
            && s % unit == 0 && s % 4096 == 0 && s < WORD_MODULUS
            && (s > nb ==> nb + pad <= s < nb + pad + unit)
  {
    var x := (nb + pad) % WORD_MODULUS;
    AlignMod(x, unit);
    if nb + pad < WORD_MODULUS {
      WrapNone(nb + pad);
    } else {
      WrapOnce(nb + pad);
    }
  }

  lemma WrapNone(a: nat)
    requires a < WORD_MODULUS
    ensures a % WORD_MODULUS == a
  {
  }

  lemma WrapOnce(a: nat)
    requires WORD_MODULUS <= a < 2 * WORD_MODULUS
    ensures a % WORD_MODULUS == a - WORD_MODULUS
  {
  }

  lemma AlignMod(x: nat, unit: nat)
    requires unit == PAGE_SIZE || unit == GRANULARITY
    requires x < WORD_MODULUS
    ensures var s := AlignUp(x, unit); s % unit == 0 && s % 4096 == 0 && s < WORD_MODULUS
    ensures if x + unit - 1 < WORD_MODULUS then x <= AlignUp(x, unit) < x + unit else AlignUp(x, unit) == 0
  {
    var y := (x + unit - 1) % WORD_MODULUS;
    if x + unit - 1 < WORD_MODULUS {
      WrapNone(x + unit - 1);
    } else {
      WrapOnce(x + unit - 1);
    }
    if unit == PAGE_SIZE {
      PagesDown(y);
    } else {
      UnitsDown(y);
    }
  }

  lemma PagesDown(y: nat)
    ensures (y - y % 4096) % 4096 == 0 && 0 <= y - y % 4096 <= y < y - y % 4096 + 4096
  {
    var q := y / 4096;
    assert y - y % 4096 == 4096 * q;
    TimesPage(q);
  }

  lemma UnitsDown(y: nat)
    ensures (y - y % 65536) % 65536 == 0 && (y - y % 65536) % 4096 == 0
    ensures 0 <= y - y % 65536 <= y < y - y % 65536 + 65536
  {
    var q := y / 65536;
    assert y - y % 65536 == 4096 * (16 * q);
    TimesPage(16 * q);
    TimesUnit(q);
  }

  lemma TimesPage(q: nat)
    ensures 4096 * q % 4096 == 0
  {
  }

  lemma TimesUnit(q: nat)
    ensures 4096 * (16 * q) % 65536 == 0
  {
  }

  /** `align_offset` */
  function AlignOffset(a: nat): nat
  {
    (16 - a % 16) % 16
  }

  lemma AlignedOffset(a: nat)
    requires a % 16 == 0
    ensures AlignOffset(a + 16) == 0 && AlignOffset(a) == 0
  {
  }
}
