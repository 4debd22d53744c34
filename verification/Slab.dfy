/** The slab that backs the nodes of the range list: `kernel/mm/slab.c`. */
module Slab {

  const SLAB_VM_BASE := 0xFFFF_FEFF_FFFF_8000
  const SLAB_SIZE := 0x4000
  const SIZE_T := 8
  /** `sizeof(slab_t)` */
  const SLAB_T := 24

  /** `objects_per_slab` in `mm_cache_create_vm` */
  function ObjectsPerSlab(size: nat): nat
  {
    (SLAB_SIZE - (SLAB_T - SIZE_T)) / (size + SIZE_T)
  }

  /** Where the array of free objects ends */
  function HeaderEnd(base: nat, objects: nat): nat
  {
    base + SLAB_T - SIZE_T + SIZE_T * objects
  }

  /** The address of an object */
  function ObjectAt(start: nat, size: nat, i: nat): nat
  {
    start + size * i
  }

  lemma Product(size: nat, a: nat, b: nat)
    requires a < b
    ensures size * a + size <= size * b
  {
    Monotone(size, a + 1, b);
  }

  lemma Monotone(size: nat, a: nat, b: nat)
    requires a <= b
    ensures size * a <= size * b
  {
    var d := b - a;
    assert size * b == size * a + size * d;
    NonNegative(size, d);
  }

  lemma NonNegative(a: nat, b: nat)
    ensures a * b >= 0
  {
  }

  /** The objects lie behind the header, inside the slab. */
  lemma ObjectsFit(base: nat, size: nat, i: nat)
    requires i < ObjectsPerSlab(size)
    ensures var n := ObjectsPerSlab(size);
            var start := base + SLAB_SIZE - n * size;
            n * size <= SLAB_SIZE && HeaderEnd(base, n) <= start <= ObjectAt(start, size, i)
              && ObjectAt(start, size, i) + size <= base + SLAB_SIZE
  {
    var n := ObjectsPerSlab(size);
    assert n * (size + SIZE_T) <= SLAB_SIZE - (SLAB_T - SIZE_T);
    assert n * (size + SIZE_T) == n * size + n * SIZE_T;
    Product(size, i, n);
    NonNegative(size, i);
  }

  /** There are as many objects as fit behind 16 bytes and a word for each, and no more. */
  lemma AsManyAsFit(size: nat, k: nat)
    ensures k <= ObjectsPerSlab(size) <==> 16 + k * 8 + k * size <= 0x4000
  {
    var n, each := ObjectsPerSlab(size), size + SIZE_T;
    assert k * each == k * size + k * 8;
    Quotient(0x4000 - 16, each, k);
  }

  lemma Quotient(total: nat, each: nat, k: nat)
    requires each > 0
    ensures k <= total / each <==> k * each <= total
  {
    var n := total / each;
    assert total == n * each + total % each;
    if k <= n {
      Monotone(each, k, n);
    } else {
      Monotone(each, n + 1, k);
      assert each * (n + 1) == n * each + each;
    }
  }

  /** Different objects do not overlap. */
  lemma ObjectsApart(start: nat, size: nat, i: nat, j: nat)
    requires i < j
    ensures ObjectAt(start, size, i) + size <= ObjectAt(start, size, j)
  {
    Product(size, i, j);
  }

  /** The mask and the division find the slab and the index of an object. */
  lemma IndexRecovered(base: nat, size: nat, i: nat)
    requires size > 0 && base % SLAB_SIZE == 0 && i < ObjectsPerSlab(size)
    ensures var start := base + SLAB_SIZE - ObjectsPerSlab(size) * size;
            var obj := ObjectAt(start, size, i);
            start >= 0 && obj - obj % SLAB_SIZE == base && (obj - start) / size == i
  {
    ObjectsFit(base, size, i);
    var start := base + SLAB_SIZE - ObjectsPerSlab(size) * size;
    var obj := ObjectAt(start, size, i);
    Masked(base, obj);
    Divided(size, i);
  }

  lemma Masked(base: nat, obj: nat)
    requires base % SLAB_SIZE == 0 && base <= obj < base + SLAB_SIZE
    ensures obj - obj % SLAB_SIZE == base
  {
  }

  lemma Divided(size: nat, i: nat)
    requires size > 0
    ensures size * i / size == i
  {
    var q := size * i / size;
    if q < i {
      Product(size, q, i);
    }
  }

  predicate Distinct(s: seq<nat>)
  {
    forall i, j | 0 <= i < j < |s| :: s[i] != s[j]
  }

  /** The free indices, without repetition, and the live ones are together the indices below `n`. */
  ghost predicate Permutation(s: seq<nat>, live: set<nat>, n: nat)
  {
    Distinct(s) && (forall i: nat | i in live :: i < n) && forall i: nat :: i in s <==> i < n && i !in live
  }

  lemma TakeLast(s: seq<nat>, live: set<nat>, n: nat)
    requires Permutation(s, live, n) && s != []
    ensures var i := s[|s| - 1]; i < n && i !in live && Permutation(s[..|s| - 1], live + {i}, n)
  {
    var t, x := s[..|s| - 1], s[|s| - 1];
    assert s == t + [x];
    assert x in s;
    forall i: nat ensures i in t <==> i < n && i !in live + {x} {
      assert i in s <==> i in t || i == x;
    }
  }

  lemma AllFree(s: seq<nat>)
    requires forall i | 0 <= i < |s| :: s[i] == i
    ensures Permutation(s, {}, |s|)
  {
    forall i: nat ensures i in s <==> i < |s| {
      if i < |s| {
        assert s[i] == i;
      }
    }
  }

  lemma PutBack(s: seq<nat>, live: set<nat>, n: nat, x: nat)
    requires Permutation(s, live, n) && x in live
    ensures Permutation(s + [x], live - {x}, n)
  {
    assert x !in s;
    forall i: nat ensures i in s + [x] <==> i < n && i !in live - {x} {
      assert i in s + [x] <==> i in s || i == x;
    }
  }

  /** The number of free indices and that of live ones add up. */
  lemma {:induction false} Counts(s: seq<nat>, live: set<nat>, n: nat)
    requires Permutation(s, live, n)
    ensures |s| + |live| == n
    decreases |s|
  {
    if s == [] {
      assert forall i: nat | i < n :: i !in s;
      assert live == Below(n);
      BelowCount(n);
    } else {
      TakeLast(s, live, n);
      Counts(s[..|s| - 1], live + {s[|s| - 1]}, n);
    }
  }

  ghost function Below(n: nat): (s: set<nat>)
    ensures forall i: nat :: i in s <==> i < n
  {
    if n == 0 then {} else Below(n - 1) + {n - 1}
  }

  lemma {:induction false} BelowCount(n: nat)
    ensures |Below(n)| == n
  {
    if n > 0 {
      BelowCount(n - 1);
    }
  }

  /** The bytes of object `i` of a slab */
  function ObjectIn(bytes: seq<nat>, base: nat, size: nat, i: nat): seq<nat>
    requires |bytes| == SLAB_SIZE && i < ObjectsPerSlab(size)
  {
    ObjectsFit(base, size, i);
    var start := base + SLAB_SIZE - ObjectsPerSlab(size) * size;
    bytes[ObjectAt(start, size, i) - base..ObjectAt(start, size, i) + size - base]
  }

  /** Clearing one object leaves the others. */
  lemma ObjectCleared(b: seq<nat>, b': seq<nat>, base: nat, size: nat, i: nat, j: nat)
    requires |b| == |b'| == SLAB_SIZE && i < ObjectsPerSlab(size) && j < ObjectsPerSlab(size)
    requires var start := base + SLAB_SIZE - ObjectsPerSlab(size) * size;
             start >= 0 && forall k | 0 <= k < |b| ::
               b'[k] == if ObjectAt(start, size, i) <= base + k < ObjectAt(start, size, i) + size then 0 else b[k]
    ensures ObjectIn(b', base, size, j) == if j == i then Zeros(size) else ObjectIn(b, base, size, j)
  {
    ObjectsFit(base, size, i);
    ObjectsFit(base, size, j);
    if i != j {
      ObjectsApart(base + SLAB_SIZE - ObjectsPerSlab(size) * size, size, if i < j then i else j, if i < j then j
        else i);
    }
  }

  /** A slab and what its cache says about its objects */
  class Cache {
    const base: nat
    const size: nat
    const objects: nat
    const start: nat
    var inuse: nat
    const free: array<nat>
    /** The bytes of the slab, those of the header left alone */
    const bytes: array<nat>
    ghost var live: set<nat>

    ghost predicate Valid()
      reads this, free, bytes
    {
      && size > 0 && objects == ObjectsPerSlab(size) > 0 && base % SLAB_SIZE == 0
         && start == base + SLAB_SIZE - objects * size
      && free.Length == objects && bytes.Length == SLAB_SIZE && inuse <= objects
         && Permutation(FreeStack(), live, objects)
    }

    /** The free indices, the next one to hand out at the end */
    ghost function FreeStack(): seq<nat>
      requires inuse <= objects == free.Length
      reads this, free
    {
      free[..objects - inuse]
    }

    /** The bytes of object `i` */
    ghost function Object(i: nat): seq<nat>
      requires Valid() && i < objects
      reads this, free, bytes
    {
      ObjectIn(bytes[..], base, size, i)
    }

    /** `mm_cache_create_vm` with `mm_slab_create_initial` */
    constructor (size: nat)
      requires size > 0 && ObjectsPerSlab(size) > 0
      ensures Valid() && live == {} && inuse == 0 && this.size == size && base == SLAB_VM_BASE && fresh(free)
      ensures fresh(bytes) && forall j | 0 <= j < objects :: free[j] == j
      ensures start + objects * size == 0xFFFF_FEFF_FFFF_C000 && forall k: nat ::
                k <= objects <==> 16 + k * 8 + k * size <= 0x4000
      ensures forall i: nat | i < objects :: Object(i) == Zeros(size)
    {
      this.size := size;
      objects := ObjectsPerSlab(size);
      base := SLAB_VM_BASE;
      ObjectsFit(SLAB_VM_BASE, size, 0);
      start := SLAB_VM_BASE + SLAB_SIZE - ObjectsPerSlab(size) * size;
      inuse, live := 0, {};
      free := new nat[ObjectsPerSlab(size)];
      bytes := new nat[SLAB_SIZE];
      new;
      for i := 0 to objects
        invariant forall j | 0 <= j < i :: free[j] == j
        invariant inuse == 0 && live == {}
      {
        free[i] := i;
      }
      AllFree(free[..]);
      forall k: nat ensures k <= objects <==> 16 + k * 8 + k * size <= 0x4000 {
        AsManyAsFit(size, k);
      }
      assert free[..] == FreeStack();
      Clear(start, objects * size);
      forall i: nat | i < objects ensures Object(i) == Zeros(size) {
        AllClear(i);
      }
    }

    lemma AllClear(i: nat)
      requires Valid() && i < objects && forall k: nat | k < SLAB_SIZE && start <= base + k :: bytes[k] == 0
      ensures Object(i) == Zeros(size)
    {
      ObjectsFit(base, size, i);
    }

    /** `memset(addr, 0, length)` inside the slab */
    method Clear(addr: nat, length: nat)
      requires base <= addr && addr + length <= base + bytes.Length
      modifies bytes
      ensures forall k | 0 <= k < bytes.Length ::
              bytes[k] == if addr <= base + k < addr + length then 0 else old(bytes[k])
    {
      for k := 0 to length
        invariant forall j | 0 <= j < bytes.Length ::
                  bytes[j] == if addr <= base + j < addr + k then 0 else old(bytes[j])
      {
        bytes[addr - base + k] := 0;
      }
    }

    /** `mm_slab_alloc`: it panics where fewer than two objects would be left, in the creation of slabs that is
        not written. */
    method Alloc() returns (ok: bool, addr: nat)
      requires Valid() && inuse < objects
      modifies this`inuse, this`live, free, bytes
      ensures ok <==> old(inuse) + 2 < objects
      ensures ok ==> Valid() && inuse == old(inuse) + 1
      ensures ok ==> var i := old(FreeStack())[objects - old(inuse) - 1];
                i < objects && i !in old(live) && live == old(live) + {i}
                  && FreeStack() == old(FreeStack())[..objects - old(inuse) - 1]
                && addr == ObjectAt(start, size, i) && Object(i) == Zeros(size)
                && forall j: nat | j < objects && j != i :: Object(j) == old(Object(j))
    {
      hide ObjectIn, ObjectAt, ObjectsPerSlab, Permutation;
      var index := objects - inuse - 1;
      ghost var stack := FreeStack();
      var i := free[index];
      addr := ObjectAt(start, size, i);
      TakeLast(stack, live, objects);
      free[index] := 0;
      inuse := inuse + 1;
      live := live + {i};
      assert FreeStack() == stack[..index];
      ok := objects - inuse > 1;
      if ok {
        ObjectsFit(base, size, i);
        ghost var before := bytes[..];
        Clear(addr, size);
        forall j: nat | j < objects ensures Object(j) == if j == i then Zeros(size) else old(Object(j)) {
          ObjectCleared(before, bytes[..], base, size, i, j);
        }
      }
    }

    /** `mm_slab_free` of a live object: `slab` is the slab that the mask leads to. */
    method Free(obj: nat, ghost i: nat) returns (slab: nat)
      requires Valid() && i in live && obj == ObjectAt(start, size, i)
      modifies this`inuse, this`live, free
      ensures Valid() && slab == base && inuse == old(inuse) - 1 && live == old(live) - {i}
      ensures FreeStack() == old(FreeStack()) + [i]
      ensures forall j: nat | j < objects :: Object(j) == old(Object(j))
    {
      ghost var stack := FreeStack();
      slab := obj - obj % SLAB_SIZE;
      IndexRecovered(base, size, i);
      Counts(stack, live, objects);
      PutBack(stack, live, objects, i);
      var index := (obj - start) / size;
      var freeObjects := objects - inuse;
      inuse := inuse - 1;
      free[freeObjects] := index;
      live := live - {i};
      assert FreeStack() == stack + [i];
    }
  }

  function Zeros(n: nat): seq<nat>
  {
    seq(n, _ => 0)
  }
}
