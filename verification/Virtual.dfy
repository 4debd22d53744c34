/** Mapping pages through the self-referring slot: `mm_virtual_indices`, `mm_virtual_map` and the lookups. */
module Virtual {
  import opened PageTables
  import P = Physical

  const HIGHER_HALF := 0xFFFF_8000_0000_0000
  const PML1_OFFSET := 0xFFFF_FF00_0000_0000
  const PML2_OFFSET := 0xFFFF_FF7F_8000_0000
  const PML3_OFFSET := 0xFFFF_FF7F_BFC0_0000
  const PML4_OFFSET := 0xFFFF_FF7F_BFDF_E000
  const LOW_END := 0x8000_0000_0000

  /** Addresses whose upper sixteen bits repeat bit 47 */
  predicate Canonical(v: nat)
  {
    v < LOW_END || HIGHER_HALF <= v < WORD
  }

  /** The page that the processor looks up for an address */
  function PageOf(v: nat): nat
  {
    v % 0x1_0000_0000_0000 / PAGE
  }

  // ----- mm_virtual_indices -----

  /** `struct vm_indices` */
  datatype Indices = Indices(pml4i: nat, pml3i: nat, pml2i: nat, pml1i: nat, pml4: nat, pml3: nat, pml2: nat, pml1: nat)

  /** `(addr >> shift) & 0x1FF` for the four levels */
  function Slot(addr: nat, shift: nat): nat
    requires shift > 0
  {
    addr / shift % 512
  }

  /** `mm_virtual_indices` */
  function VirtualIndices(addr: nat): Indices
  {
    var a := if addr >= HIGHER_HALF then addr - HIGHER_HALF else addr;
    var i4 := (if addr >= HIGHER_HALF then 256 else 0) + Slot(a, 0x80_0000_0000);
    var i3 := Slot(a, 0x4000_0000);
    var i2 := Slot(a, 0x20_0000);
    var i1 := Slot(a, 0x1000);
    Indices(i4, i3, i2, i1, PML4_OFFSET, PML3_OFFSET + i4 * 0x1000, PML2_OFFSET + i4 * 0x20_0000 + i3 * 0x1000,
            PML1_OFFSET + i4 * 0x4000_0000 + i3 * 0x20_0000 + i2 * 0x1000)
  }

  lemma Divisions(a: nat)
    ensures a / 0x1000 / 512 == a / 0x20_0000 && a / 0x20_0000 / 512 == a / 0x4000_0000
    ensures a / 0x4000_0000 / 512 == a / 0x80_0000_0000
  {
  }

  lemma PageOfParts(v: nat)
    requires Canonical(v)
    ensures var a := if v >= HIGHER_HALF then v - HIGHER_HALF else v;
            a < LOW_END && PageOf(v) == a / 0x1000 + if v >= HIGHER_HALF then 0x8_0000_0000 else 0
    ensures PageOf(v) < PAGES
  {
    if v >= HIGHER_HALF {
      var a := v - HIGHER_HALF;
      assert v % 0x1_0000_0000_0000 == a + LOW_END;
    }
  }

  /** The indices are those by which the processor finds the page. */
  lemma IndicesOfPage(v: nat)
    requires Canonical(v)
    ensures var i, n := VirtualIndices(v), PageOf(v);
            i.pml4i == I4(n) && i.pml3i == I3(n) && i.pml2i == I2(n) && i.pml1i == I1(n)
    ensures PageOf(v) < PAGES
  {
    PageOfParts(v);
    var a := if v >= HIGHER_HALF then v - HIGHER_HALF else v;
    Divisions(a);
    HighIndices(a / 0x1000);
    SmallIndex(a);
  }

  lemma SmallIndex(a: nat)
    requires a < LOW_END
    ensures a / 0x80_0000_0000 < 256 && a / 0x80_0000_0000 % 512 == a / 0x80_0000_0000
  {
  }

  lemma HighIndices(p: nat)
    requires p < 0x8_0000_0000
    ensures var n := p + 0x8_0000_0000; I4(n) == 256 + I4(p) && I3(n) == I3(p) && I2(n) == I2(p) && I1(n) == I1(p)
  {
    var q := p / 512;
    assert (p + 0x8_0000_0000) / 512 == q + 0x400_0000;
    var r := q / 512;
    assert (q + 0x400_0000) / 512 == r + 0x2_0000;
    assert (r + 0x2_0000) / 512 == r / 512 + 256;
  }

  /** The canonical address with these indices and this offset */
  function AddressOf(i4: nat, i3: nat, i2: nat, i1: nat, offset: nat): nat
  {
    Number(i4, i3, i2, i1) * PAGE + offset + if i4 >= 256 then 0xFFFF_0000_0000_0000 else 0
  }

  /** The four indices and the offset in the page determine the address. */
  lemma IndicesDetermine(v: nat)
    requires Canonical(v)
    ensures var i := VirtualIndices(v); v == AddressOf(i.pml4i, i.pml3i, i.pml2i, i.pml1i, v % PAGE)
  {
    hide VirtualIndices, I4, I3, I2, I1, Number, PageOf;
    IndicesOfPage(v);
    PartsNumber(PageOf(v));
    PageOfParts(v);
    HalfIndex(PageOf(v));
    InPage(v);
  }

  lemma InPage(v: nat)
    ensures v >= HIGHER_HALF ==>
              v % PAGE == (v - HIGHER_HALF) % PAGE && v - HIGHER_HALF == (v - HIGHER_HALF) / 0x1000 * PAGE + v % PAGE
    ensures v == v / 0x1000 * PAGE + v % PAGE
  {
  }

  lemma HalfIndex(n: nat)
    requires n < PAGES
    ensures I4(n) >= 256 <==> n >= 0x8_0000_0000
  {
  }

  /** The table pointers lie in the pages that lead to the tables through the self-referring slot. */
  lemma PointersOfPage(v: nat)
    requires Canonical(v)
    ensures var i, n := VirtualIndices(v), PageOf(v);
            && PageOf(i.pml4) == Self4() && PageOf(i.pml3) == Self3(n) && PageOf(i.pml2) == Self2(n)
               && PageOf(i.pml1) == Self1(n)
            && i.pml4 % PAGE == 0 && i.pml3 % PAGE == 0 && i.pml2 % PAGE == 0 && i.pml1 % PAGE == 0
  {
    hide VirtualIndices, I4, I3, I2, I1, Number, PageOf;
    IndicesOfPage(v);
    PartsNumber(PageOf(v));
    var i := VirtualIndices(v);
    hide VirtualIndices, I4, I3, I2, I1, Number, PageOf;
    PointerPage(SELF, SELF, SELF, SELF);
    PointerPage(SELF, SELF, SELF, i.pml4i);
    PointerPage(SELF, SELF, i.pml4i, i.pml3i);
    PointerPage(SELF, i.pml4i, i.pml3i, i.pml2i);
    Pointers(v);
  }

  lemma PointerPage(i4: nat, i3: nat, i2: nat, i1: nat)
    requires 256 <= i4 < 512 && i3 < 512 && i2 < 512 && i1 < 512
    ensures var p := 0xFFFF_0000_0000_0000 + Number(i4, i3, i2, i1) * PAGE;
            PageOf(p) == Number(i4, i3, i2, i1) && p % PAGE == 0
  {
    NumberParts(i4, i3, i2, i1);
    hide Number;
    PageBack(Number(i4, i3, i2, i1));
  }

  lemma PageBack(n: nat)
    requires n < PAGES
    ensures PageOf(0xFFFF_0000_0000_0000 + n * PAGE) == n && (0xFFFF_0000_0000_0000 + n * PAGE) % PAGE == 0
  {
    assert (0xFFFF_0000_0000_0000 + n * PAGE) % 0x1_0000_0000_0000 == n * PAGE;
  }

  lemma Pointers(v: nat)
    ensures var i := VirtualIndices(v);
            && i.pml4 == 0xFFFF_0000_0000_0000 + Number(SELF, SELF, SELF, SELF) * PAGE
            && i.pml3 == 0xFFFF_0000_0000_0000 + Number(SELF, SELF, SELF, i.pml4i) * PAGE
            && i.pml2 == 0xFFFF_0000_0000_0000 + Number(SELF, SELF, i.pml4i, i.pml3i) * PAGE
            && i.pml1 == 0xFFFF_0000_0000_0000 + Number(SELF, i.pml4i, i.pml3i, i.pml2i) * PAGE
  {
  }

  // ----- The tables in memory -----

  /** The pages [n, n + pages) lie in one half, outside the self-referring slot. */
  predicate Ordinary(n: nat, pages: nat)
  {
    && n + pages <= PAGES && (n < 0x8_0000_0000 ==> n + pages <= 0x8_0000_0000)
    && (n + pages <= SELF * 0x800_0000 || (SELF + 1) * 0x800_0000 <= n)
  }

  lemma OrdinarySlots(n: nat, pages: nat, m: nat)
    requires Ordinary(n, pages) && n <= m < n + pages
    ensures m < PAGES && I4(m) != SELF
  {
  }

  class AddressSpace {
    /** The pages that are page tables, by their physical addresses */
    var tab: Tables
    const root: Page
    ghost var at: Placed

    ghost predicate Valid()
      reads this
    {
      TablesOK(tab, root, at) && Closed(at)
    }

    /** Tables in which nothing is mapped yet */
    constructor (root: Page)
      requires GoodPage(root)
      ensures Valid() && at == map[TOP := root] && forall n: nat :: Map(n) == 0
    {
      hide GoodPage;
      this.root := root;
      var row: seq<nat> := seq(ENTRIES, i => if i == SELF then root + PRESENT_WRITE else 0);
      tab := map[root := row];
      at := map[TOP := root];
      new;
      forall i: nat | i < ENTRIES ensures EntryOK(tab, at, TOP, i) {
        assert !Present(0);
      }
      assert TableOK(tab, at, TOP);
    }

    /** What is mapped where, outside the self-referring slot */
    ghost function Map(n: nat): nat
      reads this
    {
      Mapped(tab, at, n)
    }

    /** The table that the processor finds through a pointer */
    function TableOf(ptr: nat): Found
      reads this
    {
      Walk(tab, root, PageOf(ptr))
    }

    /** Reading entry `i` of a table through its pointer */
    function Read(ptr: nat, i: nat): nat
      reads this
    {
      match TableOf(ptr)
      case Missing => 0
      case Leads(t) => EntryAt(tab, t, i)
    }

    /** Writing it */
    method Write(ptr: nat, i: nat, e: nat)
      requires TableOf(ptr).Leads? && TableOf(ptr).table in tab && i < |tab[TableOf(ptr).table]|
      modifies this`tab
      ensures tab == SetEntry(old(tab), old(TableOf(ptr)).table, i, e)
    {
      var t := TableOf(ptr).table;
      var row: seq<nat> := tab[t][i := e];
      tab := tab[t := row];
    }

    /** The four table pointers of an address resolve to the tables that the walk of the address uses. */
    lemma PointersResolve(v: nat)
      requires Valid() && Canonical(v)
      ensures var i, n := VirtualIndices(v), PageOf(v);
              && TableOf(i.pml4) == Leads(root) && TableOf(i.pml3) == Walk3(tab, root, n)
              && TableOf(i.pml2) == Walk2(tab, root, n) && TableOf(i.pml1) == Walk1(tab, root, n)
    {
      hide TablesOK, GoodPage, VirtualIndices, PageOf, Walk, Walk1, Walk2, Walk3, Self4, Self3, Self2, Self1;
      IndicesOfPage(v);
      PointersOfPage(v);
      SelfEntry(tab, root, at);
      SelfWalks(tab, root, PageOf(v));
    }

    // ----- Lookups -----

    /** The last entry of the walk as the lookups reach it, 0 if a table is missing */
    function LastEntry(virt: nat): nat
      reads this
    {
      var i := VirtualIndices(virt);
      if Present(Read(i.pml4, i.pml4i)) && Present(Read(i.pml3, i.pml3i)) && Present(Read(i.pml2, i.pml2i))
        && Present(Read(i.pml1, i.pml1i))
      then Read(i.pml1, i.pml1i) else 0
    }

    /** `mm_virtual_get_phys` */
    function GetPhys(virt: nat): Page
      reads this
    {
      Addr(LastEntry(virt))
    }

    /** `mm_virtual_get_flags` */
    function GetFlags(virt: nat): nat
      reads this
    {
      FlagsOf(LastEntry(virt))
    }

    /** The lookups agree with the processor. */
    lemma LookupsAgree(virt: nat)
      requires Valid() && Canonical(virt) && I4(PageOf(virt)) != SELF
      ensures LastEntry(virt) == if Present(Map(PageOf(virt))) then Map(PageOf(virt)) else 0
    {
      hide TablesOK, Closed, VirtualIndices, Addr, Mapped;
      IndicesOfPage(virt);
      PointersResolve(virt);
      LookupIs(tab, root, at, PageOf(virt));
      LookupParts(tab, root, PageOf(virt));
    }

    // ----- mm_virtual_map -----

    /** The table missing below the one of `level`, reached through `ptr`, comes from a free page and is cleared
        through the pointer `below`. */
    method NewTable(ptr: nat, i: nat, below: nat, pm: P.Allocator, ghost n: nat, ghost level: nat) returns (ok: bool)
      requires Valid() && Ready(pm) && n < PAGES && I4(n) != SELF && 2 <= level <= 4
      requires PlaceFor(n, level) in at && PlaceFor(n, level - 1) !in at && i == Idx(n, level)
      requires PageOf(ptr) == SelfPage(n, level) && PageOf(below) == SelfPage(n, level - 1)
      modifies this`tab, this`at, pm
      ensures (ok <==> old(pm.own.free) != []) && (!ok ==> pm.own.free == [])
      ensures ok ==> Valid() && Ready(pm) && at.Keys == old(at).Keys + {PlaceFor(n, level - 1)}
      ensures ok ==> (forall m: nat :: Map(m) == old(Map(m))) && Supplied(old(pm.own), pm.own, old(at), at)
    {
      hide TablesOK, Closed, Addr, GoodPage, Mapped, PageOf, SelfPage, Walk, I4, Idx, PlaceFor, P.InOrder;
      ghost var tab0, at0 := tab, at;
      ghost var d := PlaceFor(n, level);
      PlacesBelow(n, level);
      TableFacts(tab, root, at, d);
      SelfEntry(tab, root, at);
      SelfLevel(tab, root, n, level);
      WalkLevels(tab, root, at, n, level);
      FreeIsGood(pm);
      var newTable;
      ghost var turns;
      ok, newTable, turns := pm.Get();
      if ok {
        FreshTable(at, pm, old(pm.own), newTable);
        AddKeeps(tab0, root, at0, d, i, newTable);
        NewReached(tab0, root, at0, n, level, newTable);
        Write(ptr, i, newTable + PRESENT_WRITE);
        Clear(below);
        at := at[PlaceFor(n, level - 1) := newTable];
        assert tab == AddTable(tab0, at0[d], i, newTable);
        UnusedAfter(at0, old(pm.own), pm.own, newTable, at);
      }
    }

    /** The tables for an address exist, each supplied if it is missing. */
    method EnsureTables(virt: nat, pm: P.Allocator) returns (ok: bool)
      requires Valid() && Canonical(virt) && I4(PageOf(virt)) != SELF
      requires Ready(pm) || PlaceFor(PageOf(virt), 1) in at
      modifies this`tab, this`at, pm
      ensures ok ==> Valid() && PlaceFor(PageOf(virt), 1) in at && (old(Ready(pm)) ==> Ready(pm))
      ensures ok ==> (forall m: nat :: Map(m) == old(Map(m))) && Supplied(old(pm.own), pm.own, old(at), at)
      ensures !ok ==> pm.own.free == []
      ensures PlaceFor(PageOf(virt), 1) in old(at) ==> ok && at == old(at) && unchanged(pm)
    {
      PlacesAbove(at, PageOf(virt));
      hide TablesOK, Closed, Addr, GoodPage, Mapped, PageOf, Walk, I4, I3, I2, I1, VirtualIndices, Supplied, P.InOrder;
      ghost var n := PageOf(virt);
      var i := VirtualIndices(virt);
      IndicesOfPage(virt);
      PointersOfPage(virt);
      RootFacts(tab, root, at);
      SuppliedSelf(pm.own, at);
      ok := EnsureTable(i.pml4, i.pml4i, i.pml3, pm, n, 4);
      if !ok {
        return;
      }
      ghost var own1, at1 := pm.own, at;
      ok := EnsureTable(i.pml3, i.pml3i, i.pml2, pm, n, 3);
      if !ok {
        return;
      }
      SuppliedThen(old(pm.own), own1, pm.own, old(at), at1, at);
      ghost var own2, at2 := pm.own, at;
      ok := EnsureTable(i.pml2, i.pml2i, i.pml1, pm, n, 2);
      if ok {
        SuppliedThen(old(pm.own), own2, pm.own, old(at), at2, at);
      }
    }

    /** `if(!(i.pmlX[i.pmlXi] & PAGE_PRESENT)) { ... }` */
    method EnsureTable(ptr: nat, i: nat, below: nat, pm: P.Allocator, ghost n: nat, ghost level: nat) returns (ok: bool)
      requires Valid() && n < PAGES && I4(n) != SELF && 2 <= level <= 4
      requires PlaceFor(n, level) in at && i == Idx(n, level) && (Ready(pm) || PlaceFor(n, level - 1) in at)
      requires PageOf(ptr) == SelfPage(n, level) && PageOf(below) == SelfPage(n, level - 1)
      modifies this`tab, this`at, pm
      ensures ok ==>
                Valid() && PlaceFor(n, level - 1) in at && old(at).Keys <= at.Keys && (old(Ready(pm)) ==> Ready(pm))
      ensures ok ==> (forall m: nat :: Map(m) == old(Map(m))) && Supplied(old(pm.own), pm.own, old(at), at)
      ensures !ok ==> pm.own.free == []
      ensures PlaceFor(n, level - 1) in old(at) ==> ok && at == old(at) && unchanged(pm)
    {
      hide TablesOK, Closed, Addr, GoodPage, Mapped, PageOf, SelfPage, Walk, I4, Idx, PlaceFor, P.InOrder, Supplied;
      ok := true;
      SelfEntry(tab, root, at);
      SelfLevel(tab, root, n, level);
      WalkLevels(tab, root, at, n, level);
      PlacesBelow(n, level);
      OneEntry(tab, root, at, PlaceFor(n, level), i);
      SuppliedSelf(pm.own, at);
      if !Present(Read(ptr, i)) {
        ok := NewTable(ptr, i, below, pm, n, level);
      }
    }

    /** `memset(table, 0, 0x1000)` through a pointer */
    method Clear(ptr: nat)
      requires TableOf(ptr).Leads?
      modifies this`tab
      ensures tab == old(tab)[old(TableOf(ptr)).table := Zeros()]
    {
      tab := tab[TableOf(ptr).table := seq(ENTRIES, _ => 0)];
    }

    /** The last loop of `mm_virtual_map`: the rest of one lowest table is filled, as far as there are pages. */
    method Fill(virt: nat, phys: Page, pages: nat, flags: nat) returns (mapped: nat)
      requires Valid() && Canonical(virt) && Ordinary(PageOf(virt), if pages == 0 then 1 else pages)
      requires PlaceFor(PageOf(virt), 1) in at
      requires FrameAddr(phys) && OnlyFlags(flags)
      modifies this`tab
      ensures Valid() && mapped == (if pages <= ENTRIES - I1(PageOf(virt)) then pages else ENTRIES - I1(PageOf(virt)))
      ensures forall m: nat :: Map(m) == AfterMap(old(Map(m)), PageOf(virt), mapped, phys, flags, m)
    {
      hide TablesOK, Closed, Addr, GoodPage, PageOf, Walk, Walk1, Walk2, Walk3, VirtualIndices, Mapped, Ordinary;
      ghost var n := PageOf(virt);
      var i := VirtualIndices(virt);
      IndicesOfPage(virt);
      OrdinarySlots(n, if pages == 0 then 1 else pages, n);
      IndexBound(n);
      var c := i.pml1i;
      mapped := 0;
      while c < ENTRIES && mapped < pages
        invariant Valid() && c == I1(n) + mapped <= ENTRIES && mapped <= pages
        invariant forall m: nat :: Map(m) == AfterMap(old(Map(m)), n, mapped, phys, flags, m)
      {
        FillOne(virt, c, mapped, MakeEntry(phys + mapped * PAGE, flags));
        c, mapped := c + 1, mapped + 1;
      }
    }

    /** `i.pml1[c] = entry` */
    method FillOne(virt: nat, c: nat, mapped: nat, entry: nat)
      requires Valid() && Canonical(virt) && I4(PageOf(virt)) != SELF && PlaceFor(PageOf(virt), 1) in at
      requires c == I1(PageOf(virt)) + mapped < ENTRIES
      modifies this`tab
      ensures Valid() && forall m: nat :: Map(m) == if m == PageOf(virt) + mapped then entry else old(Map(m))
    {
      hide TablesOK, Closed, Addr, GoodPage, PageOf, Walk, Walk1, Walk2, Walk3, VirtualIndices, Mapped, I4;
      ghost var n := PageOf(virt);
      IndicesOfPage(virt);
      PointersResolve(virt);
      WalkTables(tab, root, at, n);
      SameLowest(n, mapped);
      SetLeaf(tab, root, at, n + mapped, entry);
      Write(VirtualIndices(virt).pml1, c, entry);
    }

    /** `mm_virtual_map`; it fails only when it runs out of pages for tables (the code panics). One page whose
        table exists is mapped whatever the state of the page allocator. */
    method VirtualMap(pm: P.Allocator, phys: Page, virt: nat, pages: nat, flags: nat) returns (ok: bool)
      requires Valid() && Canonical(virt) && virt % PAGE == 0
      requires Ready(pm) || (pages <= 1 && PlaceFor(PageOf(virt), 1) in at)
      requires Ordinary(PageOf(virt), if pages == 0 then 1 else pages)
      requires FrameAddr(phys) && phys + pages * PAGE <= PHYS_LIMIT && OnlyFlags(flags)
      modifies this`tab, this`at, pm
      ensures ok ==> Valid() && Supplied(old(pm.own), pm.own, old(at), at) && (old(Ready(pm)) ==> Ready(pm))
      ensures ok ==> forall m: nat :: Map(m) == AfterMap(old(Map(m)), PageOf(virt), pages, phys, flags, m)
      ensures !ok ==> pm.own.free == []
      ensures pages <= 1 && PlaceFor(PageOf(virt), 1) in old(at) ==> ok && at == old(at) && unchanged(pm)
      decreases pages
    {
      hide TablesOK, Closed, Addr, GoodPage, PageOf, Mapped, Supplied, P.InOrder, I4, I1;
      ghost var n := PageOf(virt);
      OrdinarySlots(n, if pages == 0 then 1 else pages, n);
      ok := EnsureTables(virt, pm);
      if !ok {
        return;
      }
      var mapped := Fill(virt, phys, pages, flags);
      IndexBound(n);
      if mapped < pages {
        ghost var own1, at1 := pm.own, at;
        NextRange(virt, pages, mapped);
        ok := VirtualMap(pm, phys + mapped * PAGE, virt + mapped * PAGE, pages - mapped, flags);
        if ok {
          SuppliedThen(old(pm.own), own1, pm.own, old(at), at1, at);
          forall m: nat ensures Map(m) == AfterMap(old(Map(m)), n, pages, phys, flags, m) {
            MapsJoin(old(Map(m)), n, mapped, pages, phys, flags, m);
          }
        }
      }
    }

    /** What mapping promises of the lookups */
    lemma LookupsAfter(phys: Page, virt: nat, pages: nat, flags: nat, before: nat, m: nat)
      requires Valid() && Canonical(m) && m % PAGE == 0 && I4(PageOf(m)) != SELF && Ordinary(PageOf(virt), pages)
      requires OnlyFlags(flags)
      requires FrameAddr(phys) && phys + pages * PAGE <= PHYS_LIMIT
      requires Map(PageOf(m)) == AfterMap(before, PageOf(virt), pages, phys, flags, PageOf(m))
      ensures PageOf(virt) <= PageOf(m) < PageOf(virt) + pages && Present(flags) ==>
                GetPhys(m) == phys + (PageOf(m) - PageOf(virt)) * PAGE && GetFlags(m) == flags
      ensures PageOf(virt) <= PageOf(m) < PageOf(virt) + pages && !Present(flags) ==>
                GetPhys(m) == 0 && GetFlags(m) == 0
    {
      hide TablesOK, Closed, Mapped, PageOf, VirtualIndices, I4, Addr, FlagsOf, Ordinary;
      LookupsAgree(m);
      NoEntry();
      if PageOf(virt) <= PageOf(m) < PageOf(virt) + pages {
        var k := PageOf(m) - PageOf(virt);
        FrameStep(phys, pages, k);
        EntryParts(phys + k * PAGE, flags);
      }
    }

    /** Pages for tables can be had from the page allocator. */
    ghost predicate Ready(pm: P.Allocator)
      reads this, pm
    {
      pm.Valid() && Unused(pm.own.free)
    }

    /** No free page is a page table. */
    ghost predicate Unused(free: seq<Page>)
      reads this
    {
      forall t | t in free :: t !in at.Values
    }
  }

  /** The entry of page `m` once `pages` pages from `n` on are mapped to `phys` and following */
  function AfterMap(before: nat, n: nat, pages: nat, phys: Page, flags: nat, m: nat): nat
  {
    if n <= m < n + pages then MakeEntry(phys + (m - n) * PAGE, flags) else before
  }

  lemma NoEntry()
    ensures Addr(0) == 0 && FlagsOf(0) == 0
  {
  }

  lemma FrameStep(phys: Page, pages: nat, k: nat)
    requires FrameAddr(phys) && phys + pages * PAGE <= PHYS_LIMIT && k < pages
    ensures FrameAddr(phys + k * PAGE)
  {
  }

  lemma SameLowest(n: nat, mapped: nat)
    requires I1(n) + mapped < ENTRIES
    ensures I1(n + mapped) == I1(n) + mapped && (n + mapped) / 512 == n / 512 && PlaceFor(n, 1) == Place(1, n / 512)
  {
  }

  /** The next table's worth of pages */
  lemma NextRange(virt: nat, pages: nat, mapped: nat)
    requires Canonical(virt) && virt % PAGE == 0 && Ordinary(PageOf(virt), pages) && mapped < pages
    ensures var v := virt + mapped * PAGE;
            Canonical(v) && v % PAGE == 0 && PageOf(v) == PageOf(virt) + mapped && Ordinary(PageOf(v), pages - mapped)
  {
    PageOfParts(virt);
    var v := virt + mapped * PAGE;
    if virt >= HIGHER_HALF {
      assert v % 0x1_0000_0000_0000 == v - HIGHER_HALF + LOW_END;
    }
  }

  lemma MapsJoin(before: nat, n: nat, mapped: nat, pages: nat, phys: Page, flags: nat, m: nat)
    requires mapped <= pages
    ensures AfterMap(AfterMap(before, n, mapped, phys, flags, m), n + mapped, pages - mapped, phys + mapped * PAGE,
            flags, m)
            == AfterMap(before, n, pages, phys, flags, m)
  {
  }

  lemma SuppliedSelf(o: P.Owners, at: Placed)
    ensures Supplied(o, o, at, at)
  {
    assert o.out + (at.Values - at.Values) == o.out;
  }

  lemma SuppliedThen(o: P.Owners, o1: P.Owners, o2: P.Owners, at: Placed, at1: Placed, at2: Placed)
    requires Supplied(o, o1, at, at1) && Supplied(o1, o2, at1, at2)
    ensures Supplied(o, o2, at, at2)
  {
    assert at2.Values - at.Values == (at2.Values - at1.Values) + (at1.Values - at.Values);
  }

  /** Pages that became tables were handed out by the page allocator. */
  ghost predicate Supplied(o: P.Owners, o': P.Owners, at: Placed, at': Placed)
  {
    && o'.supplied == o.supplied && o'.out == o.out + (at'.Values - at.Values) && at.Values <= at'.Values
    && at'.Values - at.Values <= P.Elements(o.free) && P.Elements(o'.free) <= P.Elements(o.free)
  }

  lemma LookupParts(tab: Tables, root: Page, n: nat)
    ensures Lookup(tab, root, n) == match Walk1(tab, root, n) case Missing => 0 case Leads(t) => EntryAt(tab, t, I1(n))
    ensures Walk1(tab, root, n).Leads? ==>
              Walk2(tab, root, n).Leads? && Present(EntryAt(tab, Walk2(tab, root, n).table, I2(n)))
    ensures Walk2(tab, root, n).Leads? ==>
              Walk3(tab, root, n).Leads? && Present(EntryAt(tab, Walk3(tab, root, n).table, I3(n)))
    ensures Walk3(tab, root, n).Leads? ==> Present(EntryAt(tab, root, I4(n)))
    ensures Walk3(tab, root, n).Leads? <==> Present(EntryAt(tab, root, I4(n)))
    ensures Walk3(tab, root, n).Leads? && Present(EntryAt(tab, Walk3(tab, root, n).table, I3(n))) ==>
              Walk2(tab, root, n).Leads?
    ensures Walk2(tab, root, n).Leads? && Present(EntryAt(tab, Walk2(tab, root, n).table, I2(n))) ==>
              Walk1(tab, root, n).Leads?
  {
  }

  /** Where there is a table, there are those above it. */
  lemma PlacesAbove(at: Placed, n: nat)
    requires Closed(at) && n < PAGES
    ensures PlaceFor(n, 1) in at ==> PlaceFor(n, 2) in at && PlaceFor(n, 3) in at
  {
    PlacesBelow(n, 2);
    PlacesBelow(n, 3);
  }

  lemma FreeIsGood(pm: P.Allocator)
    requires pm.Valid()
    ensures forall t | t in pm.own.free :: P.GoodPage(t) && t !in pm.own.out
    ensures P.Distinct(pm.own.free)
  {
    forall t | t in pm.own.free ensures P.GoodPage(t) && t !in pm.own.out {
      assert t in P.Elements(pm.own.free);
      assert t in pm.own.supplied;
    }
  }

  lemma FreshTable(at: Placed, pm: P.Allocator, o: P.Owners, t: Page)
    requires o.free != [] && t == o.free[|o.free| - 1] && (forall x | x in o.free :: P.GoodPage(x) && x !in at.Values)
    ensures GoodPage(t) && t !in at.Values
  {
    assert t in o.free;
  }

  lemma UnusedAfter(at: Placed, o: P.Owners, o': P.Owners, t: Page, at': Placed)
    requires o.free != [] && t == o.free[|o.free| - 1] && P.Distinct(o.free)
    requires (forall x | x in o.free :: x !in at.Values)
    requires o' == P.Popped(o).(frames := o'.frames, left := o'.left) && exists d :: at' == at[d := t] && d !in at
    ensures (forall x | x in o'.free :: x !in at'.Values) && Supplied(o, o', at, at')
  {
    var d :| at' == at[d := t] && d !in at;
    P.PopElements(o.free);
    assert at'.Values == at.Values + {t} by {
      forall x | x in at.Values ensures x in at'.Values {
        var e :| e in at && at[e] == x;
        assert at'[e] == x;
      }
      assert at'[d] == t;
    }
    assert t in o.free;
    forall x | x in o'.free ensures x !in at'.Values && x in o.free {
      assert x in P.Elements(o'.free);
      assert x in P.Elements(o.free);
    }
  }
}
