/** Head words of chunks: a size, a multiple of 16, with two flag bits below it. */
module Words {

  const PINUSE_BIT := 1
  const CINUSE_BIT := 2
  const FENCEPOST_HEAD := 11
  const TOP_FOOT_SIZE := 80
  const MIN_CHUNK_SIZE := 32

  /** `chunksize` */
  function SizeOf(w: nat): nat
  {
    w - w % 8
  }

  /** `pinuse`: the chunk before is in use. */
  predicate Pin(w: nat)
  {
    w % 8 == 1 || w % 8 == 3 || w % 8 == 5 || w % 8 == 7
  }

  /** `cinuse`: the chunk itself is in use. */
  predicate Cin(w: nat)
  {
    w % 8 == 2 || w % 8 == 3 || w % 8 == 6 || w % 8 == 7
  }

  /** `is_inuse` */
  predicate Inuse(w: nat)
  {
    Cin(w) || !Pin(w)
  }

  /** `is_mmapped` */
  predicate IsMmapped(w: nat)
  {
    !Cin(w) && !Pin(w)
  }

  /** `s | CINUSE_BIT | PINUSE_BIT`, each bit if wanted */
  function Head(s: nat, c: bool, p: bool): (w: nat)
    requires s % 16 == 0
    ensures SizeOf(w) == s && Cin(w) == c && Pin(w) == p
  {
    s + (if c then CINUSE_BIT else 0) + (if p then PINUSE_BIT else 0)
  }

  /** `head |= PINUSE_BIT` */
  function SetPin(w: nat): (r: nat)
    ensures SizeOf(r) == SizeOf(w) && Cin(r) == Cin(w) && Pin(r)
  {
    if Pin(w) then w else w + PINUSE_BIT
  }

  /** `clear_pinuse` */
  function ClearPin(w: nat): (r: nat)
    ensures SizeOf(r) == SizeOf(w) && Cin(r) == Cin(w) && !Pin(r)
  {
    if Pin(w) then w - PINUSE_BIT else w
  }
}
