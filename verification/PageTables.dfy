/** Four-level page tables as the processor reads them. A page number has four indices of nine bits each. */
module PageTables {

  type Page = nat

  const ENTRIES := 512
  const PAGE := 4096
  const PHYS_LIMIT := 0x10_0000_0000_0000
  const WORD := 0x1_0000_0000_0000_0000
  const PAGES := 0x10_0000_0000
  /** The slot of the top table that leads back to the top table. */
  const SELF := 510
  const PRESENT_WRITE := 3

  // ----- Entries -----

  /** `entry & PAGE_PRESENT` */
  predicate Present(e: nat)
  {
    e % 2 == 1
  }

  /** `entry & 0x000FFFFFFFFFF000` */
  function Addr(e: nat): Page
  {
    (e % PHYS_LIMIT) / PAGE * PAGE
  }

  /** `entry & 0xfff0000000000fff` */
  function FlagsOf(e: nat): nat
  {
    e / PHYS_LIMIT * PHYS_LIMIT + e % PAGE
  }

  predicate GoodPage(a: Page)
  {
    0 < a < PHYS_LIMIT && a % PAGE == 0
  }

  /** Page-aligned physical addresses, 0 included */
  predicate FrameAddr(a: Page)
  {
    a < PHYS_LIMIT && a % PAGE == 0
  }

  predicate OnlyFlags(f: nat)
  {
    f < WORD && FlagsOf(f) == f
  }

  /** `phys | flags` */
  function MakeEntry(phys: Page, flags: nat): nat
  {
    phys + flags
  }

  lemma EntryParts(phys: Page, flags: nat)
    requires FrameAddr(phys) && OnlyFlags(flags)
    ensures Addr(MakeEntry(phys, flags)) == phys && FlagsOf(MakeEntry(phys, flags)) == flags
    ensures Present(MakeEntry(phys, flags)) <==> Present(flags)
  {
    var hi, lo := flags / PHYS_LIMIT, flags % PAGE;
    assert flags == hi * PHYS_LIMIT + lo;
    FrameBits(phys, hi, lo);
    OddSum(phys, flags);
  }

  lemma FrameBits(phys: Page, hi: nat, lo: nat)
    requires FrameAddr(phys) && lo < PAGE
    ensures var e := hi * PHYS_LIMIT + lo + phys;
            e % PHYS_LIMIT == phys + lo && e / PHYS_LIMIT == hi && e % PAGE == lo && (phys + lo) / PAGE * PAGE == phys
  {
    assert phys == phys / PAGE * PAGE;
    LowPart(phys / PAGE, hi, lo);
  }

  lemma LowPart(q: nat, hi: nat, lo: nat)
    requires lo < PAGE && q * PAGE < PHYS_LIMIT
    ensures (hi * PHYS_LIMIT + lo + q * PAGE) % PAGE == lo && (q * PAGE + lo) / PAGE == q
    ensures (hi * PHYS_LIMIT + lo + q * PAGE) % PHYS_LIMIT == q * PAGE + lo
    ensures (hi * PHYS_LIMIT + lo + q * PAGE) / PHYS_LIMIT == hi
  {
    assert hi * PHYS_LIMIT + lo + q * PAGE == (hi * 0x100_0000_0000 + q) * PAGE + lo;
  }

  lemma OddSum(phys: Page, flags: nat)
    requires phys % PAGE == 0
    ensures (phys + flags) % 2 == flags % 2
  {
    assert phys == phys / PAGE * 2048 * 2;
  }

  lemma TableEntry(t: Page)
    requires GoodPage(t)
    ensures Addr(t + PRESENT_WRITE) == t && Present(t + PRESENT_WRITE)
  {
    hide Addr, Present;
    assert OnlyFlags(PRESENT_WRITE) && Present(PRESENT_WRITE) by {
      WriteFlags();
    }
    EntryParts(t, PRESENT_WRITE);
  }

  lemma WriteFlags()
    ensures OnlyFlags(PRESENT_WRITE) && Present(PRESENT_WRITE)
  {
  }

  // ----- Page numbers -----

  function I4(n: nat): nat
  {
    n / 512 / 512 / 512
  }

  function I3(n: nat): nat
  {
    n / 512 / 512 % 512
  }

  function I2(n: nat): nat
  {
    n / 512 % 512
  }

  function I1(n: nat): nat
  {
    n % 512
  }

  function Number(i4: nat, i3: nat, i2: nat, i1: nat): nat
  {
    ((i4 * 512 + i3) * 512 + i2) * 512 + i1
  }

  lemma NumberParts(i4: nat, i3: nat, i2: nat, i1: nat)
    requires i4 < 512 && i3 < 512 && i2 < 512 && i1 < 512
    ensures var n := Number(i4, i3, i2, i1); n < PAGES && I4(n) == i4 && I3(n) == i3 && I2(n) == i2 && I1(n) == i1
  {
  }

  lemma PartsNumber(n: nat)
    requires n < PAGES
    ensures I4(n) < 512 && I3(n) < 512 && I2(n) < 512 && I1(n) < 512 && Number(I4(n), I3(n), I2(n), I1(n)) == n
  {
  }

  // ----- Tables -----

  type Tables = map<Page, seq<nat>>

  function EntryAt(tab: Tables, t: Page, i: nat): nat
  {
    if t in tab && i < |tab[t]| then tab[t][i] else 0
  }

  /** A place in the tree of tables: a level, and the indices that lead to it as one number. */
  datatype Place = Place(level: nat, path: nat)

  /** Which page is the table for a place */
  type Placed = map<Place, Page>

  const TOP := Place(4, 0)

  function Below(d: Place, i: nat): Place
    requires d.level > 0
  {
    Place(d.level - 1, d.path * 512 + i)
  }

  /** An entry above the lowest level, but for the self-reference, leads to the table for the place below, if
      there is one, and lets it be written through. */
  predicate EntryOK(tab: Tables, at: Placed, d: Place, i: nat)
    requires d in at
  {
    d.level > 1 && !(d == TOP && i == SELF) ==>
      && (Present(EntryAt(tab, at[d], i)) <==> Below(d, i) in at)
      && (Below(d, i) in at ==> at[Below(d, i)] == Addr(EntryAt(tab, at[d], i)))
      && (Below(d, i) in at ==> EntryAt(tab, at[d], i) == at[Below(d, i)] + PRESENT_WRITE)
  }

  ghost predicate TableOK(tab: Tables, at: Placed, d: Place)
    requires d in at
  {
    && GoodPage(at[d]) && at[d] in tab && |tab[at[d]]| == ENTRIES && 1 <= d.level <= 4 && (d.level == 4 ==> d == TOP)
    && forall i: nat {:trigger EntryOK(tab, at, d, i)} | i < ENTRIES :: EntryOK(tab, at, d, i)
  }

  /** Each table stands in one place of the tree, and slot 510 of the top table leads back to it. */
  ghost predicate TablesOK(tab: Tables, root: Page, at: Placed)
  {
    && TOP in at && at[TOP] == root && EntryAt(tab, root, SELF) == root + PRESENT_WRITE
    && (forall d {:trigger TableOK(tab, at, d)} | d in at :: TableOK(tab, at, d))
    && (forall d, e {:trigger at[d], at[e]} | d in at && e in at && at[d] == at[e] :: d == e)
  }

  // ----- The processor's walk -----

  datatype Found = Missing | Leads(table: Page)

  /** One step of the walk */
  function Step(tab: Tables, f: Found, i: nat): Found
  {
    match f
    case Missing => Missing
    case Leads(t) => if Present(EntryAt(tab, t, i)) then Leads(Addr(EntryAt(tab, t, i))) else Missing
  }

  function Walk3(tab: Tables, root: Page, n: nat): Found
  {
    Step(tab, Leads(root), I4(n))
  }

  function Walk2(tab: Tables, root: Page, n: nat): Found
  {
    Step(tab, Walk3(tab, root, n), I3(n))
  }

  function Walk1(tab: Tables, root: Page, n: nat): Found
  {
    Step(tab, Walk2(tab, root, n), I2(n))
  }

  /** The frame that page `n` is mapped to */
  function Walk(tab: Tables, root: Page, n: nat): Found
  {
    Step(tab, Walk1(tab, root, n), I1(n))
  }

  /** The last entry of the walk; 0, which is not present, if a table is missing */
  function Lookup(tab: Tables, root: Page, n: nat): nat
  {
    match Walk1(tab, root, n)
    case Missing => 0
    case Leads(t) => EntryAt(tab, t, I1(n))
  }

  /** The entry that the walk looks at in a table that it has come to */
  function EntryOn(tab: Tables, f: Found, i: nat): nat
  {
    match f
    case Missing => 0
    case Leads(t) => EntryAt(tab, t, i)
  }

  /** The processor lets a page be written if all four entries of its walk have bit 1, ... */
  predicate MayWrite(tab: Tables, root: Page, n: nat)
  {
    && EntryAt(tab, root, I4(n)) / 2 % 2 == 1 && EntryOn(tab, Walk3(tab, root, n), I3(n)) / 2 % 2 == 1
    && EntryOn(tab, Walk2(tab, root, n), I2(n)) / 2 % 2 == 1 && EntryOn(tab, Walk1(tab, root, n), I1(n)) / 2 % 2 == 1
  }

  /** ... and code in it be executed if none of them has bit 63. */
  predicate MayExecute(tab: Tables, root: Page, n: nat)
  {
    && EntryAt(tab, root, I4(n)) / 0x8000_0000_0000_0000 % 2 == 0
    && EntryOn(tab, Walk3(tab, root, n), I3(n)) / 0x8000_0000_0000_0000 % 2 == 0
    && EntryOn(tab, Walk2(tab, root, n), I2(n)) / 0x8000_0000_0000_0000 % 2 == 0
    && EntryOn(tab, Walk1(tab, root, n), I1(n)) / 0x8000_0000_0000_0000 % 2 == 0
  }

  /** The numbers of the pages through which the tables for page `n` are reached */
  function Self4(): nat
  {
    Number(SELF, SELF, SELF, SELF)
  }

  function Self3(n: nat): nat
  {
    Number(SELF, SELF, SELF, I4(n))
  }

  function Self2(n: nat): nat
  {
    Number(SELF, SELF, I4(n), I3(n))
  }

  function Self1(n: nat): nat
  {
    Number(SELF, I4(n), I3(n), I2(n))
  }

  /** Through the self-reference the walk of those pages stops where the walk of page `n` passes. */
  lemma SelfWalks(tab: Tables, root: Page, n: nat)
    requires EntryAt(tab, root, SELF) == root + PRESENT_WRITE && GoodPage(root) && n < PAGES
    ensures Walk(tab, root, Self4()) == Leads(root) && Walk(tab, root, Self3(n)) == Walk3(tab, root, n)
    ensures Walk(tab, root, Self2(n)) == Walk2(tab, root, n) && Walk(tab, root, Self1(n)) == Walk1(tab, root, n)
  {
    hide Number, I4, I3, I2, I1, Addr, GoodPage;
    PartsNumber(n);
    NumberParts(SELF, SELF, SELF, SELF);
    NumberParts(SELF, SELF, SELF, I4(n));
    NumberParts(SELF, SELF, I4(n), I3(n));
    NumberParts(SELF, I4(n), I3(n), I2(n));
    TableEntry(root);
  }

  lemma SelfEntry(tab: Tables, root: Page, at: Placed)
    requires TablesOK(tab, root, at)
    ensures EntryAt(tab, root, SELF) == root + PRESENT_WRITE && GoodPage(root)
  {
    assert TableOK(tab, at, TOP);
  }

  // ----- Where the walk goes -----

  /** The walk's position in the tree, if the table for place `d` exists */
  function TableAt(at: Placed, d: Place): Found
  {
    if d in at then Leads(at[d]) else Missing
  }

  lemma StepOK(tab: Tables, root: Page, at: Placed, d: Place, i: nat)
    requires TablesOK(tab, root, at) && d.level > 1 && i < ENTRIES && !(d == TOP && i == SELF) && d in at
    ensures Step(tab, Leads(at[d]), i) == TableAt(at, Below(d, i))
  {
    hide Addr;
    assert TableOK(tab, at, d);
    assert EntryOK(tab, at, d, i);
  }

  /** Nothing is below a table that does not exist. */
  ghost predicate Closed(at: Placed)
  {
    forall d: Place, i: nat {:trigger Below(d, i)} | 1 < d.level <= 4 && i < ENTRIES && Below(d, i) in at :: d in at
  }

  /** The walk of a page outside the self-referring slot goes down the tree. */
  lemma WalkTables(tab: Tables, root: Page, at: Placed, n: nat)
    requires TablesOK(tab, root, at) && Closed(at) && n < PAGES && I4(n) != SELF
    ensures Walk3(tab, root, n) == TableAt(at, Place(3, n / 512 / 512 / 512))
    ensures Walk2(tab, root, n) == TableAt(at, Place(2, n / 512 / 512))
    ensures Walk1(tab, root, n) == TableAt(at, Place(1, n / 512))
  {
    hide TablesOK, Addr, Closed, Step;
    PartsNumber(n);
    var d3, d2, d1 := Place(3, n / 512 / 512 / 512), Place(2, n / 512 / 512), Place(1, n / 512);
    assert TOP in at && at[TOP] == root by {
      RootFacts(tab, root, at);
    }
    StepOK(tab, root, at, TOP, I4(n));
    assert Below(TOP, I4(n)) == d3 && Below(d3, I3(n)) == d2 && Below(d2, I2(n)) == d1;
    NextPlace(tab, root, at, d3, I3(n));
    NextPlace(tab, root, at, d2, I2(n));
  }

  lemma NextPlace(tab: Tables, root: Page, at: Placed, d: Place, i: nat)
    requires TablesOK(tab, root, at) && Closed(at) && 1 < d.level < 4 && i < ENTRIES
    ensures Step(tab, TableAt(at, d), i) == TableAt(at, Below(d, i))
  {
    hide TablesOK, Addr, Step;
    if d in at {
      StepOK(tab, root, at, d, i);
    } else {
      assert Below(d, i) !in at;
      StepMissing(tab, i);
    }
  }

  lemma StepMissing(tab: Tables, i: nat)
    ensures Step(tab, Missing, i) == Missing
  {
  }

  lemma RootFacts(tab: Tables, root: Page, at: Placed)
    requires TablesOK(tab, root, at)
    ensures TOP in at && at[TOP] == root && GoodPage(root)
  {
    assert TableOK(tab, at, TOP);
  }

  lemma TableFacts(tab: Tables, root: Page, at: Placed, d: Place)
    requires TablesOK(tab, root, at) && d in at
    ensures GoodPage(at[d]) && at[d] in tab && |tab[at[d]]| == ENTRIES && 1 <= d.level <= 4
    ensures (d.level == 4 ==> d == TOP)
  {
    assert TableOK(tab, at, d);
  }

  lemma SameTable(tab: Tables, root: Page, at: Placed, d: Place, e: Place)
    requires TablesOK(tab, root, at) && d in at && e in at && at[d] == at[e]
    ensures d == e
  {
  }

  // ----- Setting the last entry -----

  function SetEntry(tab: Tables, t: Page, i: nat, e: nat): Tables
    requires t in tab && i < |tab[t]|
  {
    var row: seq<nat> := tab[t][i := e];
    tab[t := row]
  }

  /** Everything that the walks of pages outside the self-referring slot see */
  function Mapped(tab: Tables, at: Placed, n: nat): nat
  {
    if Place(1, n / 512) in at then EntryAt(tab, at[Place(1, n / 512)], I1(n)) else 0
  }

  lemma LookupIs(tab: Tables, root: Page, at: Placed, n: nat)
    requires TablesOK(tab, root, at) && Closed(at) && n < PAGES && I4(n) != SELF
    ensures Lookup(tab, root, n) == Mapped(tab, at, n)
  {
    hide TablesOK, Walk1, I1, I4, Closed;
    WalkTables(tab, root, at, n);
  }

  /** What a table's entry allows */
  lemma EntryRights(tab: Tables, root: Page, at: Placed, d: Place, i: nat)
    requires TablesOK(tab, root, at) && d in at && d.level > 1 && i < ENTRIES && !(d == TOP && i == SELF)
    requires Below(d, i) in at
    ensures EntryAt(tab, at[d], i) / 2 % 2 == 1 && EntryAt(tab, at[d], i) / 0x8000_0000_0000_0000 % 2 == 0
  {
    hide Addr, Present;
    assert TableOK(tab, at, d) && EntryOK(tab, at, d, i) && TableOK(tab, at, Below(d, i));
    TableRights(at[Below(d, i)]);
  }

  lemma TableRights(t: Page)
    requires GoodPage(t)
    ensures (t + PRESENT_WRITE) / 2 % 2 == 1 && (t + PRESENT_WRITE) / 0x8000_0000_0000_0000 == 0
  {
    var q := t / PAGE;
    assert t == q * PAGE;
    assert (t + PRESENT_WRITE) / 2 == 1 + q * 1024 * 2;
    EvenAdded(1, q * 1024);
  }

  lemma EvenAdded(x: nat, y: nat)
    ensures (x + y * 2) % 2 == x % 2
  {
  }

  /** What may be done with a page whose tables exist is a matter of its last entry alone. */
  lemma RightsOf(tab: Tables, root: Page, at: Placed, n: nat)
    requires TablesOK(tab, root, at) && Closed(at) && n < PAGES && I4(n) != SELF && Place(1, n / 512) in at
    ensures MayWrite(tab, root, n) <==> Mapped(tab, at, n) / 2 % 2 == 1
    ensures MayExecute(tab, root, n) <==> Mapped(tab, at, n) / 0x8000_0000_0000_0000 % 2 == 0
  {
    hide TablesOK, Addr, Closed, Walk3, Walk2, Walk1;
    PartsNumber(n);
    var d3, d2, d1 := Place(3, n / 512 / 512 / 512), Place(2, n / 512 / 512), Place(1, n / 512);
    RootFacts(tab, root, at);
    WalkTables(tab, root, at, n);
    assert Below(TOP, I4(n)) == d3 && Below(d3, I3(n)) == d2 && Below(d2, I2(n)) == d1;
    IsBelow(at, d2, I2(n));
    IsBelow(at, d3, I3(n));
    EntryRights(tab, root, at, TOP, I4(n));
    EntryRights(tab, root, at, d3, I3(n));
    EntryRights(tab, root, at, d2, I2(n));
  }

  lemma IsBelow(at: Placed, d: Place, i: nat)
    requires Closed(at) && 1 < d.level <= 4 && i < ENTRIES && Below(d, i) in at
    ensures d in at
  {
  }

  /** An entry of a lowest table is set: one page is mapped differently, no other. */
  lemma SetLeaf(tab: Tables, root: Page, at: Placed, n: nat, e: nat)
    requires TablesOK(tab, root, at) && Place(1, n / 512) in at
    ensures var t := at[Place(1, n / 512)];
            t in tab && |tab[t]| == ENTRIES && I1(n) < ENTRIES && TablesOK(SetEntry(tab, t, I1(n), e), root, at)
    ensures forall m: nat ::
            Mapped(SetEntry(tab, at[Place(1, n / 512)], I1(n), e), at, m) == if m == n then e else Mapped(tab, at, m)
  {
    hide TablesOK, TableOK, I1;
    var d := Place(1, n / 512);
    IndexBound(n);
    TableFacts(tab, root, at, d);
    LeafKeeps(tab, root, at, d, I1(n), e);
    forall m: nat ensures Mapped(SetEntry(tab, at[d], I1(n), e), at, m) == if m == n then e else Mapped(tab, at, m) {
      LeafOther(tab, root, at, n, e, m);
    }
  }

  lemma IndexBound(n: nat)
    ensures I1(n) < ENTRIES
  {
  }

  lemma LeafKeeps(tab: Tables, root: Page, at: Placed, d: Place, i: nat, e: nat)
    requires TablesOK(tab, root, at) && d in at && d.level == 1 && i < ENTRIES && at[d] in tab
    requires |tab[at[d]]| == ENTRIES
    ensures TablesOK(SetEntry(tab, at[d], i, e), root, at)
  {
    hide Addr, GoodPage;
    var tab' := SetEntry(tab, at[d], i, e);
    forall u | u in at ensures TableOK(tab', at, u) {
      assert TableOK(tab, at, u);
      forall j: nat | j < ENTRIES ensures EntryOK(tab', at, u, j) {
        assert EntryOK(tab, at, u, j);
      }
    }
  }

  lemma LeafOther(tab: Tables, root: Page, at: Placed, n: nat, e: nat, m: nat)
    requires TablesOK(tab, root, at) && Place(1, n / 512) in at && I1(n) < ENTRIES
    requires at[Place(1, n / 512)] in tab && |tab[at[Place(1, n / 512)]]| == ENTRIES
    ensures Mapped(SetEntry(tab, at[Place(1, n / 512)], I1(n), e), at, m) == if m == n then e else Mapped(tab, at, m)
  {
    hide TablesOK;
    if Place(1, m / 512) in at && at[Place(1, m / 512)] == at[Place(1, n / 512)] {
      SameTable(tab, root, at, Place(1, m / 512), Place(1, n / 512));
      assert m == m / 512 * 512 + I1(m) && n == n / 512 * 512 + I1(n);
    }
  }

  // ----- Adding a table -----

  function Zeros(): seq<nat>
  {
    seq(ENTRIES, _ => 0)
  }

  function AddTable(tab: Tables, t: Page, i: nat, new_: Page): Tables
    requires t in tab && i < |tab[t]|
  {
    SetEntry(tab, t, i, new_ + PRESENT_WRITE)[new_ := Zeros()]
  }

  /** A place that is empty, below a table; `new_` is not yet a table. */
  predicate MayAdd(at: Placed, d: Place, i: nat, new_: Page)
  {
    d in at && d.level > 1 && i < ENTRIES && !(d == TOP && i == SELF) && Below(d, i) !in at && GoodPage(new_)
      && new_ !in at.Values
  }

  /** A missing table is supplied, empty: no page is mapped differently. */
  lemma AddKeeps(tab: Tables, root: Page, at: Placed, d: Place, i: nat, new_: Page)
    requires TablesOK(tab, root, at) && Closed(at) && MayAdd(at, d, i, new_)
    ensures at[d] in tab && |tab[at[d]]| == ENTRIES
    ensures TablesOK(AddTable(tab, at[d], i, new_), root, at[Below(d, i) := new_]) && Closed(at[Below(d, i) := new_])
    ensures forall m: nat :: Mapped(AddTable(tab, at[d], i, new_), at[Below(d, i) := new_], m) == Mapped(tab, at, m)
  {
    hide TablesOK, TableOK, Addr, GoodPage, Mapped;
    TableFacts(tab, root, at, d);
    var tab', at' := AddTable(tab, at[d], i, new_), at[Below(d, i) := new_];
    AddOK(tab, root, at, d, i, new_);
    forall m: nat ensures Mapped(tab', at', m) == Mapped(tab, at, m) {
      AddMapped(tab, root, at, d, i, new_, m);
    }
  }

  lemma BelowUnique(d: Place, i: nat, e: Place, j: nat)
    requires d.level > 0 && e.level > 0 && i < ENTRIES && j < ENTRIES && Below(d, i) == Below(e, j)
    ensures d == e && i == j
  {
  }

  lemma AddOK(tab: Tables, root: Page, at: Placed, d: Place, i: nat, new_: Page)
    requires TablesOK(tab, root, at) && Closed(at) && MayAdd(at, d, i, new_) && at[d] in tab && |tab[at[d]]| == ENTRIES
    ensures TablesOK(AddTable(tab, at[d], i, new_), root, at[Below(d, i) := new_]) && Closed(at[Below(d, i) := new_])
  {
    hide TablesOK, TableOK, Addr;
    var tab', at' := AddTable(tab, at[d], i, new_), at[Below(d, i) := new_];
    TableFacts(tab, root, at, d);
    TableEntry(new_);
    forall u | u in at' ensures TableOK(tab', at', u) {
      if u == Below(d, i) {
        AddedTable(tab, root, at, d, i, new_);
      } else {
        OldTable(tab, root, at, d, i, new_, u);
      }
    }
    forall u, v | u in at' && v in at' && at'[u] == at'[v] ensures u == v {
      if u in at && v in at && u != Below(d, i) && v != Below(d, i) {
        SameTable(tab, root, at, u, v);
      }
    }
    RootFacts(tab, root, at);
    SelfKept(tab, root, at, d, i, new_);
    AssembleTables(tab', root, at');
    ClosedKept(at, d, i, new_);
  }

  lemma AssembleTables(tab: Tables, root: Page, at: Placed)
    requires TOP in at && at[TOP] == root && EntryAt(tab, root, SELF) == root + PRESENT_WRITE
    requires forall d | d in at :: TableOK(tab, at, d)
    requires forall d, e | d in at && e in at && at[d] == at[e] :: d == e
    ensures TablesOK(tab, root, at)
  {
    hide TableOK;
  }

  lemma SelfKept(tab: Tables, root: Page, at: Placed, d: Place, i: nat, new_: Page)
    requires TablesOK(tab, root, at) && MayAdd(at, d, i, new_) && at[d] in tab && |tab[at[d]]| == ENTRIES
    ensures EntryAt(AddTable(tab, at[d], i, new_), root, SELF) == root + PRESENT_WRITE
  {
    hide TableOK;
    if at[d] == root {
      SameTable(tab, root, at, d, TOP);
    }
  }

  lemma ClosedKept(at: Placed, d: Place, i: nat, new_: Page)
    requires Closed(at) && d in at && 1 < d.level && i < ENTRIES
    ensures Closed(at[Below(d, i) := new_])
  {
    var at' := at[Below(d, i) := new_];
    forall e: Place, j: nat | 1 < e.level <= 4 && j < ENTRIES && Below(e, j) in at' ensures e in at' {
      if Below(e, j) == Below(d, i) {
        BelowUnique(d, i, e, j);
      }
    }
  }

  /** The new table is empty, and nothing is below it. */
  lemma AddedTable(tab: Tables, root: Page, at: Placed, d: Place, i: nat, new_: Page)
    requires TablesOK(tab, root, at) && Closed(at) && MayAdd(at, d, i, new_) && at[d] in tab && |tab[at[d]]| == ENTRIES
    requires d.level <= 4
    ensures TableOK(AddTable(tab, at[d], i, new_), at[Below(d, i) := new_], Below(d, i))
  {
    hide TablesOK, TableOK, Addr;
    var tab', at', b := AddTable(tab, at[d], i, new_), at[Below(d, i) := new_], Below(d, i);
    forall j: nat | j < ENTRIES ensures EntryOK(tab', at', b, j) {
      if b.level > 1 {
        assert Below(b, j) !in at;
        assert Below(b, j) != b;
      }
      assert EntryAt(tab', new_, j) == 0;
    }
    TableParts(tab', at', b);
  }

  lemma TableParts(tab: Tables, at: Placed, d: Place)
    requires d in at && GoodPage(at[d]) && at[d] in tab && |tab[at[d]]| == ENTRIES && 1 <= d.level <= 4
    requires (d.level == 4 ==> d == TOP)
    requires forall i: nat | i < ENTRIES :: EntryOK(tab, at, d, i)
    ensures TableOK(tab, at, d)
  {
    hide EntryOK;
  }

  /** The other tables are as before, but for the one entry. */
  lemma OldTable(tab: Tables, root: Page, at: Placed, d: Place, i: nat, new_: Page, u: Place)
    requires TablesOK(tab, root, at) && MayAdd(at, d, i, new_) && at[d] in tab && |tab[at[d]]| == ENTRIES && u in at
    requires u != Below(d, i)
    requires Addr(new_ + PRESENT_WRITE) == new_ && Present(new_ + PRESENT_WRITE)
    ensures TableOK(AddTable(tab, at[d], i, new_), at[Below(d, i) := new_], u)
  {
    hide TablesOK, TableOK, Addr;
    var tab', at' := AddTable(tab, at[d], i, new_), at[Below(d, i) := new_];
    TableFacts(tab, root, at, u);
    forall j: nat | j < ENTRIES ensures EntryOK(tab', at', u, j) {
      OldEntry(tab, root, at, d, i, new_, u, j);
    }
    TableParts(tab', at', u);
  }

  lemma OldEntry(tab: Tables, root: Page, at: Placed, d: Place, i: nat, new_: Page, u: Place, j: nat)
    requires TablesOK(tab, root, at) && MayAdd(at, d, i, new_) && at[d] in tab && |tab[at[d]]| == ENTRIES && u in at
    requires u != Below(d, i) && j < ENTRIES
    requires Addr(new_ + PRESENT_WRITE) == new_ && Present(new_ + PRESENT_WRITE)
    ensures EntryOK(AddTable(tab, at[d], i, new_), at[Below(d, i) := new_], u, j)
  {
    hide TablesOK, Addr;
    var tab', at' := AddTable(tab, at[d], i, new_), at[Below(d, i) := new_];
    OneEntry(tab, root, at, u, j);
    if u != d && at[u] == at[d] {
      SameTable(tab, root, at, u, d);
    }
    if u.level > 1 && Below(u, j) == Below(d, i) {
      BelowUnique(u, j, d, i);
    }
  }

  lemma OneEntry(tab: Tables, root: Page, at: Placed, d: Place, i: nat)
    requires TablesOK(tab, root, at) && d in at && i < ENTRIES
    ensures EntryOK(tab, at, d, i)
  {
    hide EntryOK;
    assert TableOK(tab, at, d);
  }

  lemma AddMapped(tab: Tables, root: Page, at: Placed, d: Place, i: nat, new_: Page, m: nat)
    requires TablesOK(tab, root, at) && MayAdd(at, d, i, new_) && at[d] in tab && |tab[at[d]]| == ENTRIES
    ensures Mapped(AddTable(tab, at[d], i, new_), at[Below(d, i) := new_], m) == Mapped(tab, at, m)
  {
    hide TablesOK, Addr;
    var p := Place(1, m / 512);
    IndexBound(m);
    if p in at && p != Below(d, i) && at[p] == at[d] {
      SameTable(tab, root, at, p, d);
    }
  }

  // ----- Levels by number -----

  function WalkTo(tab: Tables, root: Page, n: nat, level: nat): Found
  {
    if level == 4 then Leads(root) else if level == 3 then Walk3(tab, root, n)
      else if level == 2 then Walk2(tab, root, n) else Walk1(tab, root, n)
  }

  function Idx(n: nat, level: nat): nat
  {
    if level == 4 then I4(n) else if level == 3 then I3(n) else if level == 2 then I2(n) else I1(n)
  }

  /** The place of the table of a level in the walk of page `n` */
  function PlaceFor(n: nat, level: nat): Place
  {
    if level == 4 then TOP else if level == 3 then Place(3, n / 512 / 512 / 512)
      else if level == 2 then Place(2, n / 512 / 512) else Place(1, n / 512)
  }

  /** The page through which the table of a level in the walk of page `n` is reached */
  function SelfPage(n: nat, level: nat): nat
  {
    if level == 4 then Self4() else if level == 3 then Self3(n) else if level == 2 then Self2(n) else Self1(n)
  }

  lemma PlacesBelow(n: nat, level: nat)
    requires n < PAGES && 2 <= level <= 4
    ensures Below(PlaceFor(n, level), Idx(n, level)) == PlaceFor(n, level - 1) && Idx(n, level) < ENTRIES
    ensures PlaceFor(n, level).level == level && (PlaceFor(n, level) == TOP <==> level == 4)
    ensures I4(n) != SELF && PlaceFor(n, level) == TOP ==> Idx(n, level) != SELF
  {
    PartsNumber(n);
  }

  lemma WalkLevels(tab: Tables, root: Page, at: Placed, n: nat, level: nat)
    requires TablesOK(tab, root, at) && Closed(at) && n < PAGES && I4(n) != SELF && 1 <= level <= 4
    ensures WalkTo(tab, root, n, level) == TableAt(at, PlaceFor(n, level))
    ensures level > 1 ==> WalkTo(tab, root, n, level - 1) == Step(tab, WalkTo(tab, root, n, level), Idx(n, level))
  {
    hide TablesOK, Closed, Step, I4, I3, I2, I1;
    WalkTables(tab, root, at, n);
    RootFacts(tab, root, at);
  }

  lemma SelfLevel(tab: Tables, root: Page, n: nat, level: nat)
    requires EntryAt(tab, root, SELF) == root + PRESENT_WRITE && GoodPage(root) && n < PAGES && 1 <= level <= 4
    ensures Walk(tab, root, SelfPage(n, level)) == WalkTo(tab, root, n, level)
  {
    hide Walk, Self4, Self3, Self2, Self1, GoodPage;
    SelfWalks(tab, root, n);
  }

  /** Once its entry is written, the new table is reached through the self-referring slot. */
  lemma NewReached(tab: Tables, root: Page, at: Placed, n: nat, level: nat, new_: Page)
    requires TablesOK(tab, root, at) && Closed(at) && n < PAGES && I4(n) != SELF && 2 <= level <= 4
    requires PlaceFor(n, level) in at
    requires MayAdd(at, PlaceFor(n, level), Idx(n, level), new_)
    ensures var t := at[PlaceFor(n, level)];
            t in tab && |tab[t]| == ENTRIES
              && Walk(SetEntry(tab, t, Idx(n, level), new_ + PRESENT_WRITE), root, SelfPage(n, level - 1))
              == Leads(new_)
  {
    hide TablesOK, Addr, Present, GoodPage, SelfPage, I4, I3, I2, I1;
    var d := PlaceFor(n, level);
    PlacesBelow(n, level);
    TableFacts(tab, root, at, d);
    RootFacts(tab, root, at);
    SelfEntry(tab, root, at);
    var tab' := SetEntry(tab, at[d], Idx(n, level), new_ + PRESENT_WRITE);
    if at[d] == root {
      SameTable(tab, root, at, d, TOP);
    }
    SelfLevel(tab', root, n, level - 1);
    TableEntry(new_);
    WalkLevels(tab, root, at, n, level);
    WalkLevels(tab, root, at, n, 4);
    WalkLevels(tab, root, at, n, 3);
    Undisturbed(tab, root, at, n, level, new_);
  }

  /** The walk down to the table that is written to is as before. */
  lemma Undisturbed(tab: Tables, root: Page, at: Placed, n: nat, level: nat, new_: Page)
    requires TablesOK(tab, root, at) && Closed(at) && n < PAGES && I4(n) != SELF && 2 <= level <= 4
    requires PlaceFor(n, level) in at
    requires at[PlaceFor(n, level)] in tab && |tab[at[PlaceFor(n, level)]]| == ENTRIES && Idx(n, level) < ENTRIES
    ensures var tab' := SetEntry(tab, at[PlaceFor(n, level)], Idx(n, level), new_ + PRESENT_WRITE);
            WalkTo(tab', root, n, level) == Leads(at[PlaceFor(n, level)])
            && WalkTo(tab', root, n, level - 1) == Step(tab', WalkTo(tab', root, n, level), Idx(n, level))
  {
    hide TablesOK, Addr, Present, I4, I3, I2, I1;
    var d := PlaceFor(n, level);
    var t := at[d];
    RootFacts(tab, root, at);
    WalkLevels(tab, root, at, n, 3);
    WalkLevels(tab, root, at, n, level);
    var d3 := PlaceFor(n, 3);
    if t == root {
      SameTable(tab, root, at, d, TOP);
    }
    if d3 in at && t == at[d3] {
      SameTable(tab, root, at, d, d3);
    }
  }
}
