/** `mmap` and `munmap`, which join the address ranges, the page tables and the free pages. */
module Mmap {
  import opened PageTables
  import opened Virtual
  import L = VmList
  import P = Physical

  // ----- Regions -----

  /** What a mapped region is made of: the flags of its pages and their frames */
  datatype Region = Region(flags: nat, frames: seq<Page>)

  type Regions = map<nat, Region>

  /** Where free ranges are */
  predicate InWindow(start: nat, len: nat)
  {
    L.FREE_START <= start && start + len <= L.SLAB_VM_BASE
  }

  predicate RangeFits(r: L.Range)
  {
    && (L.IsFree(r.flags) ==> InWindow(r.start, r.len)) && (r.start < L.SLAB_VM_BASE ==> r.len > 0)
    && !(L.IsFree(r.flags) && L.IsUsed(r.flags))
  }

  ghost predicate ListOK(rs: seq<L.Range>)
  {
    L.Tiling(rs) && forall i {:trigger rs[i]} | 0 <= i < |rs| :: RangeFits(rs[i])
  }

  /** Range `r` is the region's. */
  predicate Is(r: L.Range, base: nat, len: nat)
  {
    r.start == base && r.len == len && L.IsUsed(r.flags)
  }

  ghost predicate Listed(rs: seq<L.Range>, base: nat, len: nat)
  {
    exists i {:trigger rs[i]} :: 0 <= i < |rs| && Is(rs[i], base, len)
  }

  /** Page `k` of a region */
  predicate PageHeld(tab: Tables, at: Placed, out: set<Page>, base: nat, r: Region, k: nat)
    requires k < |r.frames|
  {
    && Mapped(tab, at, PageOf(base) + k) == MakeEntry(r.frames[k], r.flags)
    && GoodPage(r.frames[k]) && r.frames[k] in out && r.frames[k] !in at.Values
  }

  ghost predicate RegionOK(rs: seq<L.Range>, tab: Tables, at: Placed, out: set<Page>, base: nat, r: Region)
  {
    && r.frames != [] && OnlyFlags(r.flags) && InWindow(base, |r.frames| * PAGE) && Listed(rs, base, |r.frames| * PAGE)
    && forall k: nat {:trigger PageHeld(tab, at, out, base, r, k)} | k < |r.frames| ::
       PageHeld(tab, at, out, base, r, k)
  }

  /** No frame is in two regions or twice in one. */
  ghost predicate Apart(live: Regions)
  {
    forall b, c, k: nat, l: nat {:trigger live[b].frames[k], live[c].frames[l]} |
      b in live && c in live && k < |live[b].frames| && l < |live[c].frames|
        && live[b].frames[k] == live[c].frames[l] :: b == c && k == l
  }

  ghost predicate RegionsOK(rs: seq<L.Range>, tab: Tables, at: Placed, out: set<Page>, live: Regions)
  {
    && ListOK(rs) && Apart(live)
    && forall b {:trigger RegionOK(rs, tab, at, out, b, live[b])} | b in live :: RegionOK(rs, tab, at, out, b, live[b])
  }

  // ----- Ranges taken and given back -----

  lemma SameStart(rs: seq<L.Range>, i: nat, j: nat)
    requires ListOK(rs) && i < |rs| && j < |rs| && rs[i].start == rs[j].start < L.SLAB_VM_BASE
    ensures i == j
  {
    if i < j {
      L.Sorted(rs, i, j);
    } else if j < i {
      L.Sorted(rs, j, i);
    }
  }

  predicate Disjoint(a: nat, n: nat, b: nat, m: nat)
  {
    a + n <= b || b + m <= a
  }

  /** Regions at different addresses do not overlap. */
  lemma ListedApart(rs: seq<L.Range>, b: nat, n: nat, c: nat, m: nat)
    requires ListOK(rs) && Listed(rs, b, n) && Listed(rs, c, m) && b != c
    ensures Disjoint(b, n, c, m)
  {
    var i :| 0 <= i < |rs| && Is(rs[i], b, n);
    var j :| 0 <= j < |rs| && Is(rs[j], c, m);
    if i < j {
      L.Sorted(rs, i, j);
    } else {
      L.Sorted(rs, j, i);
    }
  }

  /** The range that pages are taken from */
  lemma TakenListed(rs: seq<L.Range>, k: nat, size: L.Word)
    requires ListOK(rs) && k < |rs| && L.Fits(rs[k], size) && size > 0 && size % PAGE == 0
    ensures var s := L.Splice(rs, k, L.Taken(rs[k], size));
            && ListOK(s) && InWindow(rs[k].start, size) && Listed(s, rs[k].start, size)
            && (forall b: nat, n: nat {:trigger Listed(rs, b, n)} | Listed(rs, b, n) ::
               Listed(s, b, n) && Disjoint(rs[k].start, size, b, n))
  {
    hide L.Tiling, L.MarkUsed;
    var t := L.Taken(rs[k], size);
    var s := L.Splice(rs, k, t);
    L.RangeAt(rs, k);
    assert RangeFits(rs[k]);
    L.TakenTiles(rs[k], size);
    L.SpliceTiles(rs, k, t);
    L.Marks(rs[k].flags);
    TakenFit(rs, k, size);
    assert Is(s[k], rs[k].start, size);
    forall b: nat, n: nat | Listed(rs, b, n) ensures Listed(s, b, n) && Disjoint(rs[k].start, size, b, n) {
      OthersListed(rs, k, size, b, n);
    }
  }

  lemma TakenFit(rs: seq<L.Range>, k: nat, size: L.Word)
    requires ListOK(rs) && k < |rs| && L.Fits(rs[k], size) && size > 0 && L.RangeOK(rs[k])
    ensures var s := L.Splice(rs, k, L.Taken(rs[k], size)); forall i {:trigger s[i]} | 0 <= i < |s| :: RangeFits(s[i])
  {
    hide L.Tiling, L.MarkUsed;
    var t := L.Taken(rs[k], size);
    var s := L.Splice(rs, k, t);
    assert RangeFits(rs[k]);
    L.Marks(rs[k].flags);
    L.Wraps(rs[k].start + size);
    forall i | 0 <= i < |s| ensures RangeFits(s[i]) {
      if k <= i < k + |t| {
        assert s[i] == t[i - k];
      } else {
        assert s[i] == if i < k then rs[i] else rs[i - |t| + 1];
      }
    }
  }

  lemma OthersListed(rs: seq<L.Range>, k: nat, size: L.Word, b: nat, n: nat)
    requires ListOK(rs) && k < |rs| && L.Fits(rs[k], size) && Listed(rs, b, n)
    ensures Listed(L.Splice(rs, k, L.Taken(rs[k], size)), b, n) && Disjoint(rs[k].start, size, b, n)
  {
    hide L.Tiling, L.MarkUsed;
    var t := L.Taken(rs[k], size);
    var s := L.Splice(rs, k, t);
    var i :| 0 <= i < |rs| && Is(rs[i], b, n);
    assert RangeFits(rs[k]);
    if i < k {
      assert s[i] == rs[i];
      L.Sorted(rs, i, k);
    } else {
      assert i != k;
      assert s[i + |t| - 1] == rs[i];
      L.Sorted(rs, k, i);
    }
  }

  /** The range of a region that is given back */
  lemma FreedListed(rs: seq<L.Range>, k: nat, base: nat, len: nat)
    requires ListOK(rs) && Listed(rs, base, len) && InWindow(base, len) && len > 0 && base < L.WORD && k < |rs|
    requires L.Holds(rs[k], base)
    ensures rs[k].len == len && ListOK(rs[k := L.Freed(rs[k])])
    ensures forall b: nat, n: nat {:trigger Listed(rs, b, n)} | b != base && Listed(rs, b, n) ::
            Listed(rs[k := L.Freed(rs[k])], b, n)
  {
    hide L.Tiling, L.MarkFree;
    var i :| 0 <= i < |rs| && Is(rs[i], base, len);
    SameStart(rs, i, k);
    L.FreedTiles(rs, k);
    L.Marks(rs[k].flags);
    var s := rs[k := L.Freed(rs[k])];
    forall j | 0 <= j < |s| ensures RangeFits(s[j]) {
      assert RangeFits(rs[j]);
    }
    forall b: nat, n: nat | b != base && Listed(rs, b, n) ensures Listed(s, b, n) {
      var j :| 0 <= j < |rs| && Is(rs[j], b, n);
      assert s[j] == rs[j];
    }
  }

  // ----- Addresses of regions -----

  /** The pages of a region are ordinary ones. */
  lemma WindowPages(base: nat, pages: nat)
    requires InWindow(base, pages * PAGE) && pages > 0
    ensures Canonical(base) && Ordinary(PageOf(base), pages)
    ensures PageOf(base) == (base - HIGHER_HALF) / 0x1000 + 0x8_0000_0000
  {
    PageOfParts(base);
  }

  /** Page `k` of a region */
  lemma RegionPage(base: nat, pages: nat, k: nat)
    requires InWindow(base, pages * PAGE) && base % PAGE == 0 && k < pages
    ensures var v := base + k * PAGE;
            Canonical(v) && v % PAGE == 0 && PageOf(v) == PageOf(base) + k && Ordinary(PageOf(v), 1)
            && I4(PageOf(v)) != SELF && PageOf(v) < PAGES
  {
    WindowPages(base, pages);
    if k > 0 {
      NextRange(base, pages, k);
    }
    var v := base + k * PAGE;
    PageOfParts(v);
    OrdinarySlots(PageOf(v), 1, PageOf(v));
  }

  /** What `mmap` maps: a region, or, when there was no range for it, pages from address 0 on */
  predicate Mappable(virt: nat, pages: nat)
  {
    (InWindow(virt, pages * PAGE) && virt % PAGE == 0) || (virt == 0 && pages <= LOW_PAGES)
  }

  /** As many of these pages as there are frames for, if there are `supply` frames at most */
  predicate MappableAsFar(virt: nat, pages: nat, supply: nat)
  {
    Mappable(virt, pages) || (virt == 0 && supply <= LOW_PAGES)
  }

  const LOW_PAGES := 0x8_0000_0000

  lemma MappablePage(virt: nat, pages: nat, k: nat)
    requires Mappable(virt, pages) && k < pages
    ensures var v := virt + k * PAGE;
            Canonical(v) && v % PAGE == 0 && PageOf(v) == PageOf(virt) + k && Ordinary(PageOf(v), 1)
            && I4(PageOf(v)) != SELF && PageOf(v) < PAGES
  {
    if InWindow(virt, pages * PAGE) && virt % PAGE == 0 {
      RegionPage(virt, pages, k);
    } else {
      var v := k * PAGE;
      PageOfParts(v);
      PageOfParts(0);
      OrdinarySlots(PageOf(v), 1, PageOf(v));
    }
  }

  /** Regions that do not overlap have no page in common. */
  lemma PagesApart(a: nat, n: nat, b: nat, m: nat)
    requires InWindow(a, n * PAGE) && InWindow(b, m * PAGE) && n > 0 && m > 0 && Disjoint(a, n * PAGE, b, m * PAGE)
    requires a % PAGE == 0 && b % PAGE == 0
    ensures PageOf(a) + n <= PageOf(b) || PageOf(b) + m <= PageOf(a)
  {
    WindowPages(a, n);
    WindowPages(b, m);
  }

  // ----- Frames taken and given back -----

  /** From `o` and `at` on, the pages in `frames` were taken as frames of a region, and others became tables. */
  ghost predicate Progress(o: P.Owners, o': P.Owners, at: Placed, at': Placed, frames: seq<Page>)
  {
    && o'.supplied == o.supplied && o'.out == o.out + P.Elements(frames) + (at'.Values - at.Values)
       && at.Values <= at'.Values
    && P.Distinct(frames) && P.Elements(frames) !! at'.Values && P.Elements(frames) !! o.out
       && (at'.Values - at.Values) !! o.out
    && forall x | x in frames :: GoodPage(x)
  }

  lemma NoProgress(o: P.Owners, at: Placed)
    ensures Progress(o, o, at, at, [])
  {
    assert o.out + P.Elements([]) + (at.Values - at.Values) == o.out;
  }

  /** There are no more frames than pages. */
  lemma FramesBounded(o: P.Owners, o': P.Owners, at: Placed, at': Placed, frames: seq<Page>)
    requires Progress(o, o', at, at', frames) && P.Partition(o')
    ensures |frames| <= |o.supplied| == |o'.supplied|
  {
    hide GoodPage;
    Cardinal(frames);
    Subset(P.Elements(frames), o.supplied);
  }

  lemma {:induction false} Cardinal(s: seq<Page>)
    requires P.Distinct(s)
    ensures |P.Elements(s)| == |s|
  {
    if s != [] {
      P.PopElements(s);
      Cardinal(s[..|s| - 1]);
    }
  }

  lemma {:induction false} Subset(a: set<Page>, b: set<Page>)
    requires a <= b
    ensures |a| <= |b|
  {
    assert b == a + (b - a);
  }

  lemma LastFree(o: P.Owners, at: Placed)
    requires P.Partition(o) && o.free != [] && forall t | t in o.free :: t !in at.Values
    ensures var x := o.free[|o.free| - 1]; GoodPage(x) && x !in at.Values && x !in o.out && x in o.supplied
  {
    var x := o.free[|o.free| - 1];
    assert x in o.free;
    assert x in P.Elements(o.free);
    assert x in o.supplied;
  }

  /** A frame is taken. */
  lemma ProgressFrame(o: P.Owners, o1: P.Owners, o2: P.Owners, at: Placed, at1: Placed, frames: seq<Page>)
    requires Progress(o, o1, at, at1, frames) && P.Partition(o1) && o1.free != []
    requires forall t | t in o1.free :: t !in at1.Values
    requires o2 == P.Popped(o1).(frames := o2.frames, left := o2.left)
    ensures Progress(o, o2, at, at1, frames + [o1.free[|o1.free| - 1]]) && o2.supplied == o1.supplied
    ensures forall t | t in o2.free :: t !in at1.Values
  {
    var x := o1.free[|o1.free| - 1];
    LastFree(o1, at1);
    hide P.Partition, GoodPage;
    assert P.Elements(frames) <= o1.out && o.out <= o1.out;
    assert x !in P.Elements(frames) && x !in o.out;
    P.PushElements(frames, x);
  }

  /** Pages become tables. */
  lemma ProgressTables(o: P.Owners, o1: P.Owners, o2: P.Owners, at: Placed, at1: Placed, at2: Placed, frames: seq<Page>)
    requires Progress(o, o1, at, at1, frames) && P.Partition(o1) && Supplied(o1, o2, at1, at2)
    ensures Progress(o, o2, at, at2, frames) && o2.supplied == o1.supplied
  {
    hide GoodPage, P.Distinct, P.Elements;
    assert (at2.Values - at1.Values) !! o1.out;
    assert o.out <= o1.out && P.Elements(frames) <= o1.out;
    assert at2.Values - at.Values == (at2.Values - at1.Values) + (at1.Values - at.Values);
  }

  /** The entry of page `m` once the frames are mapped from page `n` on */
  function FramesMapped(before: nat, n: nat, frames: seq<Page>, flags: nat, m: nat): nat
  {
    if n <= m < n + |frames| then MakeEntry(frames[m - n], flags) else before
  }

  lemma OneMore(before: nat, n: nat, frames: seq<Page>, x: Page, flags: nat, m: nat)
    ensures AfterMap(FramesMapped(before, n, frames, flags, m), n + |frames|, 1, x, flags, m)
            == FramesMapped(before, n, frames + [x], flags, m)
  {
  }

  /** A page that was handed out and is marked free */
  lemma Given(o: P.Owners, x: Page)
    requires P.Partition(o) && x in o.out
    ensures P.MayFree(o, x) && x in o.supplied
  {
  }

  lemma GivenBack(o: P.Owners, o': P.Owners, x: Page)
    requires P.Partition(o) && x in o.out
    requires o' == P.Pushed(o, x) || (o.free != [] && o' == P.Pushed(P.Grown(o), x))
    ensures o'.out == o.out - {x} && o'.supplied == o.supplied && forall t | t in o'.free :: t in o.free || t == x
  {
    Given(o, x);
    hide P.Partition;
    assert o.supplied + {x} == o.supplied;
  }

  // ----- What mapping and unmapping keep -----

  lemma MapKeeps(rs: seq<L.Range>, rs': seq<L.Range>, tab: Tables, tab': Tables, at: Placed, at': Placed, o: P.Owners,
      o': P.Owners, live: Regions, base: nat, r: Region)
    requires r.frames != [] && OnlyFlags(r.flags) && InWindow(base, |r.frames| * PAGE) && base % PAGE == 0
    requires ListOK(rs') && Listed(rs', base, |r.frames| * PAGE)
    requires forall b: nat, n: nat {:trigger Listed(rs, b, n)} | Listed(rs, b, n) ::
             Listed(rs', b, n) && Disjoint(base, |r.frames| * PAGE, b, n)
    requires forall m: nat ::
             Mapped(tab', at', m) == FramesMapped(Mapped(tab, at, m), PageOf(base), r.frames, r.flags, m)
    requires Progress(o, o', at, at', r.frames) && RegionsOK(rs, tab, at, o.out, live)
    ensures base !in live && RegionsOK(rs', tab', at', o'.out, live[base := r])
  {
    hide ListOK, Listed, Mapped, MakeEntry, PageOf, InWindow, P.Distinct, OnlyFlags, GoodPage;
    NotLive(rs, tab, at, o.out, live, base, |r.frames| * PAGE);
    var live' := live[base := r];
    forall b | b in live' ensures RegionOK(rs', tab', at', o'.out, b, live'[b]) {
      if b == base {
        forall k: nat | k < |r.frames| ensures PageHeld(tab', at', o'.out, base, r, k) {
          assert r.frames[k] in P.Elements(r.frames);
        }
      } else {
        OtherKept(rs, rs', tab, tab', at, at', o, o', b, live[b], base, r);
      }
    }
    NewApart(rs, tab, at, o.out, live, base, r);
  }

  lemma NotLive(rs: seq<L.Range>, tab: Tables, at: Placed, out: set<Page>, live: Regions, base: nat, len: nat)
    requires RegionsOK(rs, tab, at, out, live) && len > 0
    requires forall b: nat, n: nat {:trigger Listed(rs, b, n)} | Listed(rs, b, n) :: Disjoint(base, len, b, n)
    ensures base !in live
  {
    forall b | b in live ensures b != base {
      assert RegionOK(rs, tab, at, out, b, live[b]);
    }
  }

  lemma OtherKept(rs: seq<L.Range>, rs': seq<L.Range>, tab: Tables, tab': Tables, at: Placed, at': Placed, o: P.Owners,
      o': P.Owners, b: nat, q: Region, base: nat, r: Region)
    requires r.frames != [] && InWindow(base, |r.frames| * PAGE) && base % PAGE == 0 && ListOK(rs')
    requires forall b: nat, n: nat {:trigger Listed(rs, b, n)} | Listed(rs, b, n) ::
             Listed(rs', b, n) && Disjoint(base, |r.frames| * PAGE, b, n)
    requires forall m: nat ::
             Mapped(tab', at', m) == FramesMapped(Mapped(tab, at, m), PageOf(base), r.frames, r.flags, m)
    requires Progress(o, o', at, at', r.frames) && RegionOK(rs, tab, at, o.out, b, q)
    ensures RegionOK(rs', tab', at', o'.out, b, q)
  {
    assert b % PAGE == 0 by {
      assert Listed(rs', b, |q.frames| * PAGE);
      ListedAligned(rs', b, |q.frames| * PAGE);
    }
    hide ListOK, Listed, Mapped, MakeEntry, PageOf, InWindow, P.Distinct, OnlyFlags, GoodPage;
    assert Listed(rs', b, |q.frames| * PAGE);
    PagesApart(base, |r.frames|, b, |q.frames|);
    forall k: nat | k < |q.frames| ensures PageHeld(tab', at', o'.out, b, q, k) {
      assert PageHeld(tab, at, o.out, b, q, k);
    }
  }

  lemma ListedAligned(rs: seq<L.Range>, b: nat, n: nat)
    requires ListOK(rs) && Listed(rs, b, n)
    ensures b % PAGE == 0
  {
    var i :| 0 <= i < |rs| && Is(rs[i], b, n);
    assert L.RangeOK(rs[i]);
  }

  lemma NewApart(rs: seq<L.Range>, tab: Tables, at: Placed, out: set<Page>, live: Regions, base: nat, r: Region)
    requires RegionsOK(rs, tab, at, out, live) && base !in live && P.Distinct(r.frames) && P.Elements(r.frames) !! out
    ensures Apart(live[base := r])
  {
    hide ListOK, Listed, Mapped, MakeEntry, PageOf, InWindow, OnlyFlags, GoodPage;
    var live' := live[base := r];
    forall b, c, k: nat, l: nat | b in live' && c in live' && k < |live'[b].frames| && l < |live'[c].frames|
      && live'[b].frames[k] == live'[c].frames[l]
      ensures b == c && k == l
    {
      if b != base {
        assert RegionOK(rs, tab, at, out, b, live[b]) && PageHeld(tab, at, out, b, live[b], k);
      }
      if c != base {
        assert RegionOK(rs, tab, at, out, c, live[c]) && PageHeld(tab, at, out, c, live[c], l);
      }
      assert b == base ==> r.frames[k] in P.Elements(r.frames);
      assert c == base ==> r.frames[l] in P.Elements(r.frames);
    }
  }

  /** A region is unmapped and its frames are given back. */
  lemma UnmapKeeps(rs: seq<L.Range>, rs': seq<L.Range>, tab: Tables, tab': Tables, at: Placed, out: set<Page>,
      out': set<Page>, live: Regions, base: nat)
    requires base in live && RegionsOK(rs, tab, at, out, live)
    requires ListOK(rs')
    requires forall b: nat, n: nat {:trigger Listed(rs, b, n)} | b != base && Listed(rs, b, n) :: Listed(rs', b, n)
    requires forall m: nat ::
             Mapped(tab', at, m) == if PageOf(base) <= m < PageOf(base) + |live[base].frames| then 0
             else Mapped(tab, at, m)
    requires out - P.Elements(live[base].frames) <= out'
    ensures RegionsOK(rs', tab', at, out', live - {base})
  {
    hide ListOK, Mapped, MakeEntry, PageOf, InWindow, P.Distinct, OnlyFlags, GoodPage;
    var live', r := live - {base}, live[base];
    assert RegionOK(rs, tab, at, out, base, r);
    ListedAligned(rs, base, |r.frames| * PAGE);
    hide Listed;
    forall b | b in live' ensures RegionOK(rs', tab', at, out', b, live'[b]) {
      var q := live[b];
      assert RegionOK(rs, tab, at, out, b, q);
      ListedAligned(rs, b, |q.frames| * PAGE);
      ListedApart(rs, base, |r.frames| * PAGE, b, |q.frames| * PAGE);
      PagesApart(base, |r.frames|, b, |q.frames|);
      forall k: nat | k < |q.frames| ensures PageHeld(tab', at, out', b, q, k) {
        assert PageHeld(tab, at, out, b, q, k);
        assert live[b].frames[k] !in live[base].frames;
      }
    }
    assert forall b | b in live' :: live'[b] == live[b];
  }

  // ----- The operations -----

  /** The flags that `mmap` gives the pages. `PROT_NONE` is 0, so the test for it never holds. */
  function MmapFlags(prot: nat): nat
  {
    (if prot % 2 == 1 then 1 else 0) + (if prot / 2 % 2 == 1 then 2 else 0)
      + (if prot / 4 % 2 == 1 then 0 else 0x8000_0000_0000_0000)
  }

  /** A page is present if and only if it may be read. */
  lemma FlagsFacts(prot: nat)
    ensures OnlyFlags(MmapFlags(prot)) && FlagBits(MmapFlags(prot), prot)
    ensures Present(MmapFlags(prot)) <==> prot % 2 == 1
  {
    var low := (if prot % 2 == 1 then 1 else 0) + (if prot / 2 % 2 == 1 then 2 else 0);
    FewFlags(low);
  }

  /** Bit 0 says that the page may be read, bit 1 that it may be written, bit 63 that no code in it may be executed;
      all other bits are 0. */
  predicate FlagBits(f: nat, prot: nat)
  {
    && f % 2 == prot % 2 && f / 2 % 2 == prot / 2 % 2 && f / 0x8000_0000_0000_0000 == 1 - prot / 4 % 2
    && f % 0x8000_0000_0000_0000 < 4
  }

  /** What the processor finds for page `k` from address `virt` on: the page is present if and only if it may be
      read, may be written and executed as asked for, lies in `frame`, and has no other bit set. */
  predicate PageIs(tab: Tables, root: Page, virt: nat, k: nat, frame: Page, prot: nat)
  {
    var n := virt % 0x1_0000_0000_0000 / 0x1000 + k;
    var e := Lookup(tab, root, n);
    && e % 2 == prot % 2 && e / 2 % 2 == prot / 2 % 2 && e / 0x8000_0000_0000_0000 == 1 - prot / 4 % 2
    && e % 0x1000 < 4 && e / 0x10_0000_0000_0000 % 0x800 == 0
    && e % 0x10_0000_0000_0000 == frame + e % 0x1000 && 0 < frame && frame % 0x1000 == 0
    && Walk(tab, root, n) == (if prot % 2 == 1 then Leads(frame) else Missing)
    && (MayWrite(tab, root, n) <==> prot / 2 % 2 == 1) && (MayExecute(tab, root, n) <==> prot / 4 % 2 == 1)
  }

  /** All pages from `virt` on, in these frames */
  ghost predicate PagesAre(tab: Tables, root: Page, virt: nat, frames: seq<Page>, prot: nat)
  {
    forall k: nat | k < |frames| :: PageIs(tab, root, virt, k, frames[k], prot)
  }

  lemma EntryBits(e: nat, frame: Page, f: nat, prot: nat)
    requires GoodPage(frame) && FlagBits(f, prot) && e == frame + f
    ensures e % 2 == prot % 2 && e / 2 % 2 == prot / 2 % 2 && e / 0x8000_0000_0000_0000 == 1 - prot / 4 % 2
    ensures e % 0x1000 < 4 && e / 0x10_0000_0000_0000 % 0x800 == 0
    ensures e % 0x10_0000_0000_0000 == frame + e % 0x1000 && (Present(e) ==> Addr(e) == frame)
  {
    var hi, low, q := 1 - prot / 4 % 2, f % 0x8000_0000_0000_0000, frame / 0x1000;
    assert f == hi * 0x8000_0000_0000_0000 + low;
    FrameBits(frame, hi * 0x800, low);
    HighBit(hi, frame + low);
    assert frame == q * 2048 * 2;
    EvenAdded(f, q * 2048);
    assert e / 2 == f / 2 + q * 1024 * 2;
    EvenAdded(f / 2, q * 1024);
  }

  lemma HighBit(hi: nat, rest: nat)
    requires rest < PHYS_LIMIT
    ensures (hi * 0x8000_0000_0000_0000 + rest) / 0x8000_0000_0000_0000 == hi
  {
  }

  /** A page whose last entry is made of a frame and these flags */
  lemma PageSeen(space: AddressSpace, virt: nat, k: nat, frame: Page, f: nat, prot: nat)
    requires space.Valid() && GoodPage(frame) && FlagBits(f, prot)
    requires PageOf(virt) + k < PAGES && I4(PageOf(virt) + k) != SELF
    requires Mapped(space.tab, space.at, PageOf(virt) + k) == MakeEntry(frame, f)
    ensures PageIs(space.tab, space.root, virt, k, frame, prot)
  {
    hide TablesOK, Closed, Mapped, Lookup, MayWrite, MayExecute, I4, Addr, FlagBits, Walk, Step, GoodPage;
    var n := PageOf(virt) + k;
    EntryBits(MakeEntry(frame, f), frame, f, prot);
    assert Place(1, n / 512) in space.at by {
      HasTable(space.tab, space.at, n, frame, f);
    }
    LookupIs(space.tab, space.root, space.at, n);
    RightsOf(space.tab, space.root, space.at, n);
    WalkEnds(space.tab, space.root, n);
    IsGood(frame);
  }

  lemma IsGood(frame: Page)
    requires GoodPage(frame)
    ensures 0 < frame && frame % 0x1000 == 0
  {
  }

  /** The walk ends at the last entry. */
  lemma WalkEnds(tab: Tables, root: Page, n: nat)
    ensures Walk(tab, root, n) == if Present(Lookup(tab, root, n)) then Leads(Addr(Lookup(tab, root, n))) else Missing
  {
    hide Walk1, Addr, I1;
  }

  lemma FewFlags(low: nat)
    requires low < 4
    ensures OnlyFlags(low) && OnlyFlags(low + 0x8000_0000_0000_0000) && (low + 0x8000_0000_0000_0000) % 2 == low % 2
  {
    assert (low + 0x8000_0000_0000_0000) / PHYS_LIMIT == 0x800 && (low + 0x8000_0000_0000_0000) % PAGE == low;
  }

  class Memory {
    const list: L.RangeList
    const space: AddressSpace
    const pm: P.Allocator
    ghost var live: Regions

    ghost predicate Valid()
      reads this, list, list.repr, list.spine, space, pm
    {
      Held() && space.Ready(pm)
    }

    /** The ranges, the page tables and the regions are in order. */
    ghost predicate Held()
      reads this, list, list.repr, list.spine, space, pm
    {
      list.Linked() && space.Valid() && RegionsOK(list.Ranges(), space.tab, space.at, pm.own.out, live)
    }

    /** The system as `mm_virtual_init` leaves it */
    constructor (list: L.RangeList, space: AddressSpace, pm: P.Allocator, ghost kernel: L.Word)
      requires list.Valid() && kernel < L.WORD - L.KERNEL_START && list.Ranges() == L.InitialRanges(kernel)
      requires space.Valid() && space.Ready(pm)
      ensures Valid() && live == map[] && this.list == list && this.space == space && this.pm == pm
    {
      this.list, this.space, this.pm, live := list, space, pm, map[];
      new;
      L.KnownMarks();
      hide AddressSpace.Valid, P.Allocator.Valid, L.RangeList.Linked;
    }

    /** No frame of a region is free, no frame is in two places, and the lookup finds the frame of every page
        that may be read. */
    lemma FramesOwned(b: nat, k: nat)
      requires Valid() && b in live && k < |live[b].frames|
      ensures live[b].frames[k] !in pm.own.free && live[b].frames[k] !in pm.own.frames
      ensures live[b].frames[k] in pm.own.supplied
      ensures forall c, l: nat | c in live && l < |live[c].frames| && live[c].frames[l] == live[b].frames[k] ::
              c == b && l == k
      ensures space.GetPhys(b + k * PAGE) == live[b].frames[k] <==> Present(live[b].flags)
    {
      var x := live[b].frames[k];
      FrameHeld(b, k);
      assert x in pm.own.out;
      assert x !in P.Elements(pm.own.free);
      FrameFound(b, k);
    }

    lemma FrameHeld(b: nat, k: nat)
      requires Valid() && b in live && k < |live[b].frames|
      ensures PageHeld(space.tab, space.at, pm.own.out, b, live[b], k)
      ensures InWindow(b, |live[b].frames| * PAGE) && b % PAGE == 0 && OnlyFlags(live[b].flags)
    {
      hide AddressSpace.Valid, P.Allocator.Valid, L.RangeList.Linked;
      assert RegionOK(list.Ranges(), space.tab, space.at, pm.own.out, b, live[b]);
      ListedAligned(list.Ranges(), b, |live[b].frames| * PAGE);
    }

    /** The processor's last entry for the page */
    lemma EntryFound(b: nat, k: nat)
      requires Valid() && b in live && k < |live[b].frames|
      ensures Lookup(space.tab, space.root, PageOf(b) + k) == live[b].frames[k] + live[b].flags
    {
      hide RegionsOK, P.Allocator.Valid, L.RangeList.Linked, TablesOK, Closed, Lookup, Mapped, PageOf, I4;
      FrameHeld(b, k);
      RegionPage(b, |live[b].frames|, k);
      LookupIs(space.tab, space.root, space.at, PageOf(b) + k);
    }

    lemma FrameFound(b: nat, k: nat)
      requires Valid() && b in live && k < |live[b].frames|
      ensures space.GetPhys(b + k * PAGE) == if Present(live[b].flags) then live[b].frames[k] else 0
      ensures live[b].frames[k] != 0
    {
      hide RegionsOK, P.Allocator.Valid, L.RangeList.Linked, Present, Addr, FlagsOf, OnlyFlags;
      FrameHeld(b, k);
      PageFound(space, pm.own.out, b, live[b], k);
    }

    /** The loop of `mmap`: a frame for each page. It stops when there is no free page left (the code panics). */
    method MapPages(virt: nat, pages: nat, f: nat) returns (ok: bool, ghost frames: seq<Page>)
      requires space.Valid() && space.Ready(pm) && OnlyFlags(f)
      requires pages > 0 ==> MappableAsFar(virt, pages, |pm.own.supplied|)
      modifies space, pm
      ensures !ok ==> pm.own.free == []
      ensures ok ==> space.Valid() && space.Ready(pm) && |frames| == pages
                     && Progress(old(pm.own), pm.own, old(space.at), space.at, frames)
      ensures ok ==> forall m: nat :: space.Map(m) == FramesMapped(old(space.Map(m)), PageOf(virt), frames, f, m)
      ensures pages == 0 ==> ok && pm.own == old(pm.own) && space.tab == old(space.tab) && space.at == old(space.at)
    {
      hide AddressSpace.Valid, P.Allocator.Valid, AddressSpace.Map, Progress, FramesMapped, AfterMap, PageOf, OnlyFlags,
        MappableAsFar, MakeEntry;
      ok, frames := true, [];
      NoProgress(pm.own, space.at);
      NothingMapped();
      for i := 0 to pages
        invariant space.Valid() && space.Ready(pm) && |frames| == i && ok && pm.own.supplied == old(pm.own.supplied)
        invariant Progress(old(pm.own), pm.own, old(space.at), space.at, frames)
        invariant forall m: nat :: space.Map(m) == FramesMapped(old(space.Map(m)), PageOf(virt), frames, f, m)
        invariant i == 0 ==> pm.own == old(pm.own) && space.tab == old(space.tab) && space.at == old(space.at)
      {
        ghost var fs := frames;
        var phys;
        ok, phys, frames := MapPage(virt, i, pages, f, frames, old(pm.own), old(space.at));
        if !ok {
          return;
        }
        forall m: nat ensures space.Map(m) == FramesMapped(old(space.Map(m)), PageOf(virt), frames, f, m) {
          OneMore(old(space.Map(m)), PageOf(virt), fs, phys, f, m);
        }
      }
    }

    /** A frame for page `i` */
    method MapPage(virt: nat, i: nat, pages: nat, f: nat, ghost frames: seq<Page>, ghost o: P.Owners, ghost at: Placed)
      returns (ok: bool, phys: Page, ghost frames': seq<Page>)
      requires space.Valid() && space.Ready(pm) && OnlyFlags(f) && Progress(o, pm.own, at, space.at, frames)
      requires |frames| == i < pages && MappableAsFar(virt, pages, |pm.own.supplied|)
      modifies space, pm
      ensures !ok ==> pm.own.free == []
      ensures ok ==>
                space.Valid() && space.Ready(pm) && frames' == frames + [phys]
                && pm.own.supplied == old(pm.own.supplied)
      ensures ok ==> Progress(o, pm.own, at, space.at, frames')
      ensures ok ==> forall m: nat :: space.Map(m) == AfterMap(old(space.Map(m)), PageOf(virt) + i, 1, phys, f, m)
    {
      hide TablesOK, Closed, Ordinary, P.InOrder, P.Partition, GoodPage, PageOf, Canonical, Supplied, I4, OnlyFlags,
        Progress;
      frames' := frames;
      ghost var own0 := pm.own;
      ValidParts(pm);
      if pm.own.free != [] {
        LastFree(own0, space.at);
      }
      ghost var turns;
      ok, phys, turns := pm.Get();
      if ok {
        frames' := frames + [phys];
        ghost var own1, at1 := pm.own, space.at;
        ProgressFrame(o, own0, own1, at, at1, frames);
        ValidParts(pm);
        FramesBounded(o, own1, at, at1, frames');
        MappablePage(virt, if Mappable(virt, pages) then pages else i + 1, i);
        PhysBound(phys);
        ok := space.VirtualMap(pm, phys, virt + i * PAGE, 1, f);
        if ok {
          ProgressTables(o, own1, pm.own, at, at1, space.at, frames');
        }
      }
    }

    /** What the processor finds for the pages that were mapped */
    lemma MappedPages(virt: nat, frames: seq<Page>, f: nat, prot: nat, tab: Tables, at: Placed, own: P.Owners)
      requires space.Valid() && FlagBits(f, prot) && Mappable(virt, |frames|)
      requires Progress(own, pm.own, at, space.at, frames)
      requires forall m: nat ::
               Mapped(space.tab, space.at, m) == FramesMapped(Mapped(tab, at, m), PageOf(virt), frames, f, m)
      ensures PagesAre(space.tab, space.root, virt, frames, prot)
    {
      hide AddressSpace.Valid, FlagBits, Mappable, Mapped, PageOf, GoodPage, I4, PageIs, MakeEntry, P.Distinct,
        P.Elements;
      forall k: nat | k < |frames| ensures PageIs(space.tab, space.root, virt, k, frames[k], prot) {
        MappablePage(virt, |frames|, k);
        PageSeen(space, virt, k, frames[k], f, prot);
      }
    }

    /** All other pages are as before. */
    lemma OthersUnmapped(tab: Tables, at: Placed, virt: nat, frames: seq<Page>, f: nat)
      requires forall m: nat ::
               Mapped(space.tab, space.at, m) == FramesMapped(Mapped(tab, at, m), PageOf(virt), frames, f, m)
      ensures forall m: nat ::
              !(PageOf(virt) <= m < PageOf(virt) + |frames|) ==> space.Map(m) == Mapped(tab, at, m)
    {
      hide Mapped, PageOf, MakeEntry;
    }

    /** Pages that were mapped from address 0 on */
    lemma LostPages(rs: seq<L.Range>, frames: seq<Page>, f: nat, prot: nat, tab: Tables, at: Placed, own: P.Owners)
      requires space.Valid() && pm.Valid() && FlagBits(f, prot) && Progress(own, pm.own, at, space.at, frames)
      requires RegionsOK(rs, tab, at, own.out, live) && (|frames| <= LOW_PAGES || |own.supplied| <= LOW_PAGES)
      requires forall m: nat ::
               Mapped(space.tab, space.at, m) == FramesMapped(Mapped(tab, at, m), PageOf(0), frames, f, m)
      ensures RegionsOK(rs, space.tab, space.at, pm.own.out, live)
      ensures PagesAre(space.tab, space.root, 0, frames, prot)
    {
      hide AddressSpace.Valid, P.Allocator.Valid, FlagBits, PagesAre, Mapped, PageOf, FramesMapped, Progress, RegionsOK;
      ValidParts(pm);
      FramesBounded(own, pm.own, at, space.at, frames);
      LostKeeps(rs, tab, space.tab, at, space.at, own, pm.own, live, frames, f);
      MappedPages(0, frames, f, prot, tab, at, own);
    }

    /** `mmap`; `ok` says that it returns: no assertion fails and there are free pages enough. If no range is large
        enough, which the code does not test, the result is 0, and as many pages are taken and mapped from address
        0 on; they have to be below the end of the lower half, or to run out before. */
    method Map(addr: nat, len: L.Word, prot: nat, flags: nat, fd: int, off: int) returns (ok: bool, virt: nat)
      requires Valid() && (HasRoom(list.Ranges(), len) || len <= LOW_END || |pm.own.supplied| <= LOW_PAGES)
      modifies this, list, list.repr, space, pm
      ensures ok ==> addr == 0 && fd == -1 && AnonymousPrivate(flags) && off == 0
      ensures !ok ==> !(addr == 0 && fd == -1 && AnonymousPrivate(flags) && off == 0) || pm.own.free == []
      ensures (ok ==> Valid()) && fresh(list.repr - old(list.repr))
      ensures ok ==> L.Answered(old(list.Ranges()), list.Ranges(), len / PAGE, virt)
      ensures ok && len < PAGE ==> virt == 0 && live == old(live) && pm.own == old(pm.own) && forall m: nat ::
              space.Map(m) == old(space.Map(m))
      ensures ok && len >= PAGE && old(HasRoom(list.Ranges(), len)) ==>
                && virt !in old(live) && virt in live && live == old(live)[virt := live[virt]] && virt > 0
                && |live[virt].frames| == len / PAGE && InWindow(virt, len / PAGE * PAGE)
                && Progress(old(pm.own), pm.own, old(space.at), space.at, live[virt].frames)
                && FlagBits(live[virt].flags, prot) && PagesAre(space.tab, space.root, virt, live[virt].frames, prot)
      ensures ok && len >= PAGE && !old(HasRoom(list.Ranges(), len)) ==>
                && virt == 0 && live == old(live)
                && exists lost :: Progress(old(pm.own), pm.own, old(space.at), space.at, lost) && |lost| == len / PAGE
                     && PagesAre(space.tab, space.root, 0, lost, prot)
      ensures ok && len >= PAGE ==> forall m: nat ::
              !(PageOf(virt) <= m < PageOf(virt) + len / PAGE) ==> space.Map(m) == old(space.Map(m))
    {
      hide ListOK, Listed, Apart, RegionOK, PageHeld, AddressSpace.Valid, P.Allocator.Valid, AddressSpace.Unused,
        L.RangeList.Linked, L.RangesOf, L.Tiling, L.FirstFit, L.Fits, L.Bytes, L.Taken, L.Splice, L.Low, L.High,
        Progress, Mapped, MakeEntry, PageOf, OnlyFlags, MmapFlags, FlagBits, PagesAre, Present, P.Partition,
        FramesMapped, RegionsOK, L.Answered;
      ghost var rs, tab, at, own := list.Ranges(), space.tab, space.at, pm.own;
      if addr != 0 || fd != -1 || !AnonymousPrivate(flags) || off != 0 {
        return false, 0;
      }
      var f := MmapFlags(prot);
      FlagsFacts(prot);
      var pages := len / PAGE;
      RangesFit(rs, tab, at, own.out, live);
      ghost var k;
      virt, k := list.Alloc(pages);
      if pages > 0 && HasRoom(rs, len) {
        TakenRegion(rs, k, pages, live);
      }
      ghost var frames;
      ok, frames := MapPages(virt, pages, f);
      if ok && pages > 0 {
        forall m: nat
          ensures Mapped(space.tab, space.at, m) == FramesMapped(Mapped(tab, at, m), PageOf(virt), frames, f, m) {
          assert space.Map(m) == FramesMapped(old(space.Map(m)), PageOf(virt), frames, f, m);
        }
        OthersUnmapped(tab, at, virt, frames, f);
        if HasRoom(rs, len) {
          ghost var r := Region(f, frames);
          MapKeeps(rs, list.Ranges(), tab, space.tab, at, space.at, own, pm.own, live, virt, r);
          live := live[virt := r];
          MappedPages(virt, frames, f, prot, tab, at, own);
        } else {
          LostPages(rs, frames, f, prot, tab, at, own);
        }
      }
    }

    /** The loop of `munmap`: each page's frame is looked up, the page is cleared, and the frame is marked free. If
        the pages are not present, the lookup says 0, and that is marked free instead. `garbage` is what the pages
        hold that become stacks of the page allocator. */
    method UnmapPages(addr: nat, pages: nat, garbage: seq<seq<Page>>, ghost r: Region)
      requires space.Valid() && space.Ready(pm)
      requires RegionHeld(space.tab, space.at, pm.own.out, addr, r) && pages <= |r.frames| && P.Distinct(r.frames)
      requires pages <= |garbage| && forall i | 0 <= i < pages :: |garbage[i]| == P.STACK_SIZE
      modifies space, pm
      ensures space.Valid() && pm.Usable() && space.at == old(space.at)
      ensures Present(r.flags) ==> space.Ready(pm) && pm.own.supplied == old(pm.own.supplied)
      ensures !Present(r.flags) && pages > 0 ==> !pm.Valid() && pm.HandsOut(0)
      ensures pm.own.out == old(pm.own.out) - if Present(r.flags) then P.Elements(r.frames[..pages]) else {}
      ensures forall m: nat :: space.Map(m) == if PageOf(addr) <= m < PageOf(addr) + pages then 0 else old(space.Map(m))
    {
      hide AddressSpace.Valid, P.Allocator.Valid, P.Allocator.Usable, P.Allocator.HandsOut, AddressSpace.Unused, Mapped,
        PageHeld, P.Distinct, P.Elements, PageOf, OnlyFlags, Present;
      ghost var n, tab, out := PageOf(addr), space.tab, pm.own.out;
      assert r.frames[..0] == [];
      NoElements(out);
      ValidParts(pm);
      NoZero(pm.own);
      for i := 0 to pages
        invariant space.Valid() && pm.Usable() && space.at == old(space.at)
        invariant Present(r.flags) ==> space.Ready(pm) && pm.own.supplied == old(pm.own.supplied)
        invariant !Present(r.flags) && i > 0 ==> 0 in pm.own.supplied && pm.HandsOut(0)
        invariant pm.own.out == out - if Present(r.flags) then P.Elements(r.frames[..i]) else {}
        invariant forall m: nat :: space.Map(m) == if n <= m < n + i then 0 else old(space.Map(m))
      {
        ghost var own := pm.own;
        StillHeld(out, own.out, r.frames, i);
        HeldPage(tab, space.at, out, addr, r, i);
        assert space.Map(n + i) == old(space.Map(n + i));
        UnmapPage(addr, i, garbage[i], r, tab, out);
        NextOut(out, r.frames, i);
      }
      if !Present(r.flags) && pages > 0 {
        NoPageZero(pm);
      }
    }

    /** Page `i` */
    method UnmapPage(addr: nat, i: nat, garbage: seq<Page>, ghost r: Region, ghost tab: Tables, ghost out: set<Page>)
      requires space.Valid() && pm.Usable()
      requires InWindow(addr, |r.frames| * PAGE) && addr % PAGE == 0 && OnlyFlags(r.flags) && i < |r.frames|
      requires Present(r.flags) ==> space.Ready(pm) && r.frames[i] in pm.own.out
      requires PageHeld(tab, space.at, out, addr, r, i) && |garbage| == P.STACK_SIZE
      requires space.Map(PageOf(addr) + i) == Mapped(tab, space.at, PageOf(addr) + i)
      modifies space, pm
      ensures space.Valid() && pm.Usable() && space.at == old(space.at)
      ensures Present(r.flags) ==> space.Ready(pm) && pm.own.supplied == old(pm.own.supplied)
      ensures !Present(r.flags) ==> 0 in pm.own.supplied && pm.HandsOut(0)
      ensures pm.own.out == old(pm.own.out) - {if Present(r.flags) then r.frames[i] else 0}
      ensures forall m: nat :: space.Map(m) == if m == PageOf(addr) + i then 0 else old(space.Map(m))
    {
      hide AddressSpace.Valid, P.Allocator.Valid, P.Allocator.Usable, P.Allocator.HandsOut, Mapped, AfterMap, MakeEntry,
        PageOf, OnlyFlags, Present, Canonical, Ordinary, I4, P.MayFree, P.Partition, AddressSpace.GetPhys,
        AddressSpace.LastEntry, PlaceFor, P.Pushed, P.Grown, P.Elements;
      RegionPage(addr, |r.frames|, i);
      var virt := addr + i * PAGE;
      PageHeldNow(tab, space.tab, space.at, out, addr, r, i);
      PageFound(space, out, addr, r, i);
      HasTable(space.tab, space.at, PageOf(addr) + i, r.frames[i], r.flags);
      var phys := space.GetPhys(virt);
      NoFlags();
      ghost var own := pm.own;
      if Present(r.flags) {
        OutOK(pm, phys);
      }
      var ok := space.VirtualMap(pm, 0, virt, 1, 0);
      pm.MarkFree(phys, garbage);
      if Present(r.flags) {
        GivenBack(own, pm.own, phys);
      }
      Cleared();
    }

    /** `munmap` of a region: it passes the assertion on the length if and only if the length is the region's. All
        is in order afterwards if and only if the region may be read: of others the frames stay handed out, and
        the next page that is handed out is page 0. */
    method Unmap(addr: nat, len: L.Word, garbage: seq<seq<Page>>) returns (ok: bool, ret: int)
      requires Valid() && addr < L.WORD
      requires addr == 0 || addr % 1024 != 0 || len == 0 || (addr in live && len / PAGE <= |live[addr].frames|)
      requires len / PAGE <= |garbage| && forall g | g in garbage :: |g| == P.STACK_SIZE
      modifies this, list.repr, space, pm
      ensures addr == 0 || addr % 1024 != 0 || len == 0 ==>
                ok && ret == -1 && Valid() && live == old(live) && pm.own == old(pm.own) && forall m: nat ::
                  space.Map(m) == old(space.Map(m))
      ensures !(addr == 0 || addr % 1024 != 0 || len == 0) ==>
                (ok <==> len == |old(live)[addr].frames| * PAGE) && (ok ==> ret == 0)
      ensures ok && ret == 0 ==> addr in old(live) && Held() && live == old(live) - {addr} && space.at == old(space.at)
      ensures ok && ret == 0 ==> L.GivenBack(old(list.Ranges()), list.Ranges(), addr, len)
      ensures ok && ret == 0 ==> (Valid() <==> Present(old(live)[addr].flags))
      ensures ok && ret == 0 && Present(old(live)[addr].flags) ==>
                pm.own.out == old(pm.own.out) - P.Elements(old(live)[addr].frames)
                  && pm.own.supplied == old(pm.own.supplied)
      ensures ok && ret == 0 && !Present(old(live)[addr].flags) ==>
                pm.own.out == old(pm.own.out) && pm.Usable() && pm.HandsOut(0)
      ensures ok && ret == 0 ==> forall m: nat ::
                space.Map(m) == if PageOf(addr) <= m < PageOf(addr) + len / PAGE then 0 else old(space.Map(m))
    {
      hide ListOK, Listed, Apart, RegionOK, RegionHeld, AddressSpace.Valid, P.Allocator.Valid, P.Allocator.Usable,
        P.Allocator.HandsOut, AddressSpace.Unused, L.RangeList.Linked, L.RangesOf, L.Tiling, L.Holds, L.Freed,
        L.GivenBack, Mapped, PageOf, OnlyFlags, P.Elements, P.Distinct, Present;
      if addr == 0 || addr % 1024 != 0 || len == 0 {
        return true, -1;
      }
      ghost var rs, tab, r, out := list.Ranges(), space.tab, live[addr], pm.own.out;
      var pages := len / PAGE;
      RegionParts(rs, tab, space.at, out, live, addr);
      GarbageOK(garbage);
      UnmapPages(addr, pages, garbage, r);
      ListTiles(rs);
      ghost var k;
      var region;
      region, k := list.Free(addr);
      FreedRegion(rs, k, addr, |r.frames| * PAGE);
      ok, ret := region == len, 0;
      if ok {
        assert r.frames[..pages] == r.frames;
        forall m: nat
          ensures Mapped(space.tab, space.at, m) == if PageOf(addr) <= m < PageOf(addr) + |r.frames| then 0
          else Mapped(tab, space.at, m) {
          assert space.Map(m) == if PageOf(addr) <= m < PageOf(addr) + pages then 0 else old(space.Map(m));
        }
        UnmapKeeps(rs, list.Ranges(), tab, space.tab, space.at, out, pm.own.out, live, addr);
        live := live - {addr};
      }
    }

    ghost function Now(): Moment
      reads this, list, list.repr, list.spine, space, pm
    {
      Moment(list.Ranges(), live, pm.own, space.at, space.tab, space.root)
    }

    /** One call; it does not return if the free pages run out. `held` is what the caller knows of its regions,
        `filler` what pages hold that become stacks. */
    method Do(c: Call, held: map<nat, L.Word>, filler: seq<Page>) returns (ok: bool, base: nat, held': map<nat, L.Word>)
      requires Valid() && Knows(held, live) && |filler| == P.STACK_SIZE
      modifies this, list, list.repr, space, pm
      ensures if ok then Valid() && Knows(held', live) && Done(c, old(Now()), Now(), base) else pm.own.free == []
      ensures fresh(list.repr - old(list.repr))
    {
      hide Valid, L.RangeList.Linked, L.RangesOf, HasRoom, Progress, Knows, PageOf, FlagBits, PagesAre,
        L.Answered, L.GivenBack, Present, AddressSpace.Map, P.Elements;
      ok, base, held' := true, 0, held;
      ghost var before := live;
      match c
      case Mapping(len, prot) =>
        if len <= LOW_END {
          ok, base := Map(0, len, prot, 3, -1, 0);
          if ok {
            NewKnown(held, before, live, base, len, prot);
            if base != 0 && prot % 2 == 1 {
              held' := held[base := len / PAGE * PAGE];
            }
          }
        }
      case Unmapping(at) =>
        WhatIsKnown(held, live, at);
        if at in held {
          RegionBase(at);
          var pages := held[at] / PAGE;
          var r;
          ok, r := Unmap(at, held[at], seq(pages, _ => filler));
          StillKnown(held, before, live, at);
          held' := held - {at};
        }
    }

    lemma RegionBase(b: nat)
      requires Valid() && b in live
      ensures 0 < b < L.WORD && b % 1024 == 0 && |live[b].frames| * PAGE > 0
    {
      hide AddressSpace.Valid, P.Allocator.Valid, L.RangeList.Linked;
      assert RegionOK(list.Ranges(), space.tab, space.at, pm.own.out, b, live[b]);
      ListedAligned(list.Ranges(), b, |live[b].frames| * PAGE);
    }

    /** Any run of mappings and unmappings: it stops early only when the free pages run out, and at every moment
        no frame of a region is free, a table, or in a second place. */
    method Run(calls: seq<Call>, filler: seq<Page>) returns (ok: bool, answers: seq<nat>, ghost moments: seq<Moment>)
      requires Valid() && live == map[] && |filler| == P.STACK_SIZE
      modifies this, list, list.repr, space, pm
      ensures |answers| <= |calls| && Happened(calls[..|answers|], answers, moments) && moments[0] == old(Now())
      ensures if ok then Valid() && |answers| == |calls| && moments[|calls|] == Now() else pm.own.free == []
      ensures fresh(list.repr - old(list.repr))
    {
      hide Valid, Now, Knows, Done, InOrder;
      ok, answers, moments := true, [], [Now()];
      var held: map<nat, L.Word> := map[];
      NothingKnown(live);
      OrderNow();
      for i := 0 to |calls|
        invariant ok && Valid() && Knows(held, live) && fresh(list.repr - old(list.repr))
        invariant Happened(calls[..i], answers, moments) && moments[0] == old(Now()) && moments[i] == Now()
      {
        var base;
        ok, base, held := Do(calls[i], held, filler);
        if !ok {
          return;
        }
        OrderNow();
        OneCall(calls[..i], answers, moments, calls[i], base, Now());
        answers, moments := answers + [base], moments + [Now()];
        assert calls[..i + 1] == calls[..i] + [calls[i]];
      }
      assert calls[..|calls|] == calls;
    }

    lemma OrderNow()
      requires Valid()
      ensures InOrder(Now())
    {
      hide AddressSpace.Valid, L.RangeList.Linked;
      forall b, k: nat | b in live && k < |live[b].frames| ensures FrameKept(Now(), b, k) {
        FrameHeld(b, k);
        assert live[b].frames[k] in pm.own.out;
        assert live[b].frames[k] !in P.Elements(pm.own.free);
        EntryFound(b, k);
      }
    }
  }

  datatype Call = Mapping(len: L.Word, prot: nat) | Unmapping(base: nat)

  /** The ranges, the regions, the free and handed-out pages, and the page tables at one moment */
  datatype Moment = Moment(rs: seq<L.Range>, live: Regions, own: P.Owners, at: Placed, tab: Tables, root: Page)

  /** A frame of a region is handed out, not free, and no page table, and the processor finds it with the region's
      flags. */
  predicate FrameKept(b: Moment, base: nat, k: nat)
    requires base in b.live && k < |b.live[base].frames|
  {
    var x := b.live[base].frames[k];
    && x in b.own.out && x !in b.own.free && x !in b.at.Values
    && Lookup(b.tab, b.root, base % 0x1_0000_0000_0000 / 0x1000 + k) == x + b.live[base].flags
  }

  ghost predicate InOrder(b: Moment)
  {
    && ListOK(b.rs) && P.Partition(b.own) && Apart(b.live)
    && forall base, k: nat {:trigger FrameKept(b, base, k)} | base in b.live && k < |b.live[base].frames| ::
       FrameKept(b, base, k)
  }

  /** There is a new region, with new frames, that the processor finds with the rights that were asked for. */
  ghost predicate RegionMade(b: Moment, e: Moment, base: nat, pages: nat, prot: nat)
  {
    && base > 0 && base !in b.live && base in e.live && e.live == b.live[base := e.live[base]]
    && |e.live[base].frames| == pages && FlagBits(e.live[base].flags, prot)
    && PagesAre(e.tab, e.root, base, e.live[base].frames, prot)
    && Progress(b.own, e.own, b.at, e.at, e.live[base].frames)
  }

  /** What a call that returns has done */
  ghost predicate Done(c: Call, b: Moment, e: Moment, answer: nat)
  {
    match c
    case Mapping(len, prot) =>
      if len > LOW_END then e == b && answer == 0
      else
        && L.Answered(b.rs, e.rs, len / PAGE, answer)
        && (len < PAGE ==> e.live == b.live && e.own == b.own)
        && (!HasRoom(b.rs, len) ==> e.live == b.live)
        && (len >= PAGE && HasRoom(b.rs, len) ==> RegionMade(b, e, answer, len / PAGE, prot))
    case Unmapping(base) =>
      && answer == 0
      && if base in b.live && Present(b.live[base].flags)
         then e.live == b.live - {base} && e.own.out == b.own.out - P.Elements(b.live[base].frames)
           && e.own.supplied == b.own.supplied && e.at == b.at
           && L.GivenBack(b.rs, e.rs, base, |b.live[base].frames| * PAGE)
         else e == b
  }

  /** Every call leads from one moment to the next, and all of them are in order. */
  ghost predicate Happened(calls: seq<Call>, answers: seq<nat>, moments: seq<Moment>)
  {
    && |answers| == |calls| && |moments| == |calls| + 1
    && (forall i {:trigger moments[i]} | 0 <= i < |moments| :: InOrder(moments[i]))
    && forall i: nat {:trigger Turn(calls, answers, moments, i)} | i < |calls| :: Turn(calls, answers, moments, i)
  }

  ghost predicate Turn(calls: seq<Call>, answers: seq<nat>, moments: seq<Moment>, i: nat)
    requires i < |calls| == |answers| && |moments| == |calls| + 1
  {
    Done(calls[i], moments[i], moments[i + 1], answers[i])
  }

  lemma OneCall(calls: seq<Call>, answers: seq<nat>, moments: seq<Moment>, c: Call, answer: nat, e: Moment)
    requires Happened(calls, answers, moments) && InOrder(e) && Done(c, moments[|calls|], e, answer)
    ensures Happened(calls + [c], answers + [answer], moments + [e])
  {
    hide InOrder, Done;
    var cs, as_, ms := calls + [c], answers + [answer], moments + [e];
    forall i: nat | i < |cs| ensures Turn(cs, as_, ms, i) {
      if i < |calls| {
        assert Turn(calls, answers, moments, i);
      }
    }
  }

  /** The caller knows its regions that may be read, and their lengths. */
  ghost predicate Knows(held: map<nat, L.Word>, live: Regions)
  {
    && (forall b | b in held :: b in live && held[b] == |live[b].frames| * PAGE && Present(live[b].flags))
    && forall b | b in live && Present(live[b].flags) :: b in held
  }

  lemma NothingKnown(live: Regions)
    requires live == map[]
    ensures Knows(map[], live)
  {
  }

  lemma NewKnown(held: map<nat, L.Word>, before: Regions, live: Regions, base: nat, len: L.Word, prot: nat)
    requires Knows(held, before)
    requires if base == 0 then live == before else
               base !in before && base in live && live == before[base := live[base]]
                 && |live[base].frames| == len / PAGE && FlagBits(live[base].flags, prot)
    ensures 0 <= len / PAGE * PAGE < L.WORD
    ensures Knows(if base != 0 && prot % 2 == 1 then held[base := len / PAGE * PAGE] else held, live)
  {
    assert base != 0 ==> (Present(live[base].flags) <==> prot % 2 == 1);
    hide FlagBits, Present;
  }

  lemma WhatIsKnown(held: map<nat, L.Word>, live: Regions, base: nat)
    requires Knows(held, live)
    ensures base in held <==> base in live && Present(live[base].flags)
    ensures base in held ==> held[base] == |live[base].frames| * PAGE && held[base] / PAGE == |live[base].frames|
  {
  }

  lemma StillKnown(held: map<nat, L.Word>, before: Regions, live: Regions, base: nat)
    requires Knows(held, before) && live == before - {base}
    ensures Knows(held - {base}, live)
  {
  }

  lemma GarbageOK(garbage: seq<seq<Page>>)
    requires forall g | g in garbage :: |g| == P.STACK_SIZE
    ensures forall i | 0 <= i < |garbage| :: |garbage[i]| == P.STACK_SIZE
  {
  }

  lemma RegionParts(rs: seq<L.Range>, tab: Tables, at: Placed, out: set<Page>, live: Regions, base: nat)
    requires RegionsOK(rs, tab, at, out, live) && base in live
    ensures var r := live[base];
            RegionHeld(tab, at, out, base, r) && P.Distinct(r.frames) && |r.frames| > 0
            && Listed(rs, base, |r.frames| * PAGE)
    ensures InWindow(base, |live[base].frames| * PAGE)
  {
    var r := live[base];
    assert RegionOK(rs, tab, at, out, base, r);
    ListedAligned(rs, base, |r.frames| * PAGE);
    forall i, j | 0 <= i < j < |r.frames| ensures r.frames[i] != r.frames[j] {
      assert live[base].frames[i] != live[base].frames[j];
    }
  }

  /** Freeing a region's range finds it. */
  lemma FreedRegion(rs: seq<L.Range>, k: nat, base: nat, len: nat)
    requires ListOK(rs) && Listed(rs, base, len) && InWindow(base, len) && len > 0 && base < L.WORD
    ensures exists j: nat :: j < |rs| && L.Holds(rs[j], base)
    ensures k < |rs| && L.Holds(rs[k], base) ==>
              && rs[k].len == len && ListOK(rs[k := L.Freed(rs[k])])
              && (forall b: nat, n: nat {:trigger Listed(rs, b, n)} | b != base && Listed(rs, b, n) ::
                 Listed(rs[k := L.Freed(rs[k])], b, n))
  {
    var i :| 0 <= i < |rs| && Is(rs[i], base, len);
    assert L.Holds(rs[i], base);
    if k < |rs| && L.Holds(rs[k], base) {
      FreedListed(rs, k, base, len);
    }
  }

  /** All that concerns a region's pages */
  ghost predicate RegionHeld(tab: Tables, at: Placed, out: set<Page>, base: nat, r: Region)
  {
    && InWindow(base, |r.frames| * PAGE) && base % PAGE == 0 && OnlyFlags(r.flags)
    && forall k: nat {:trigger PageHeld(tab, at, out, base, r, k)} | k < |r.frames| ::
       PageHeld(tab, at, out, base, r, k)
  }

  lemma HeldPage(tab: Tables, at: Placed, out: set<Page>, base: nat, r: Region, k: nat)
    requires RegionHeld(tab, at, out, base, r) && k < |r.frames|
    ensures PageHeld(tab, at, out, base, r, k) && r.frames[k] in out
  {
  }

  lemma PageHeldNow(tab: Tables, tab': Tables, at: Placed, out: set<Page>, base: nat, r: Region, k: nat)
    requires k < |r.frames| && PageHeld(tab, at, out, base, r, k)
    requires Mapped(tab', at, PageOf(base) + k) == Mapped(tab, at, PageOf(base) + k)
    ensures PageHeld(tab', at, out, base, r, k)
  {
  }

  lemma NoElements(out: set<Page>)
    ensures out - P.Elements([]) == out
  {
  }

  /** The frames not yet given back are still held. */
  lemma StillHeld(out: set<Page>, out': set<Page>, frames: seq<Page>, i: nat)
    requires i < |frames| && P.Distinct(frames)
    ensures frames[i] in out && out' == out - P.Elements(frames[..i]) ==> frames[i] in out'
  {
  }

  lemma NextOut(out: set<Page>, frames: seq<Page>, i: nat)
    requires i < |frames|
    ensures out - P.Elements(frames[..i]) - {frames[i]} == out - P.Elements(frames[..i + 1])
  {
    assert frames[..i + 1] == frames[..i] + [frames[i]];
  }

  lemma HasTable(tab: Tables, at: Placed, n: nat, frame: Page, flags: nat)
    requires Mapped(tab, at, n) == MakeEntry(frame, flags) && GoodPage(frame)
    ensures PlaceFor(n, 1) in at
  {
  }

  lemma NoFlags()
    ensures OnlyFlags(0)
  {
  }

  /** A cleared entry */
  lemma Cleared()
    ensures forall before: nat, n: nat, m: nat :: AfterMap(before, n, 1, 0, 0, m) == if m == n then 0 else before
  {
  }

  /** Page 0 is never supplied as long as all is in order. */
  lemma NoPageZero(pm: P.Allocator)
    requires 0 in pm.own.supplied
    ensures !pm.Valid()
  {
    assert !GoodPage(0);
  }

  lemma NoZero(o: P.Owners)
    requires P.Partition(o)
    ensures 0 !in o.out
  {
    assert 0 in o.out ==> 0 in o.supplied;
  }

  lemma OutOK(pm: P.Allocator, x: Page)
    requires pm.Valid() && x in pm.own.out
    ensures P.Partition(pm.own) && P.MayFree(pm.own, x) && x != pm.root
  {
    Given(pm.own, x);
  }

  /** `flags & MAP_ANONYMOUS && flags & MAP_PRIVATE` */
  predicate AnonymousPrivate(flags: nat)
  {
    flags % 2 == 1 && flags / 2 % 2 == 1
  }

  /** A free range is large enough for the pages. */
  ghost predicate HasRoom(rs: seq<L.Range>, len: L.Word)
  {
    exists j: nat {:trigger rs[j]} | j < |rs| :: L.Fits(rs[j], L.Bytes(len / PAGE))
  }

  /** Pages mapped from address 0 on are in no region. */
  lemma LostKeeps(rs: seq<L.Range>, tab: Tables, tab': Tables, at: Placed, at': Placed, o: P.Owners, o': P.Owners,
      live: Regions, lost: seq<Page>, f: nat)
    requires RegionsOK(rs, tab, at, o.out, live) && Progress(o, o', at, at', lost) && |lost| <= LOW_PAGES
    requires forall m: nat :: Mapped(tab', at', m) == FramesMapped(Mapped(tab, at, m), PageOf(0), lost, f, m)
    ensures RegionsOK(rs, tab', at', o'.out, live)
  {
    hide ListOK, Listed, Mapped, MakeEntry, P.Distinct, OnlyFlags, GoodPage;
    PageOfParts(0);
    forall b | b in live ensures RegionOK(rs, tab', at', o'.out, b, live[b]) {
      var q := live[b];
      assert RegionOK(rs, tab, at, o.out, b, q);
      WindowPages(b, |q.frames|);
      forall k: nat | k < |q.frames| ensures PageHeld(tab', at', o'.out, b, q, k) {
        assert PageHeld(tab, at, o.out, b, q, k);
      }
    }
  }

  lemma ListTiles(rs: seq<L.Range>)
    ensures ListOK(rs) ==> L.Tiling(rs)
  {
  }

  lemma RangesFit(rs: seq<L.Range>, tab: Tables, at: Placed, out: set<Page>, live: Regions)
    requires RegionsOK(rs, tab, at, out, live)
    ensures ListOK(rs) && L.Tiling(rs)
  {
  }

  /** The range that `mmap` takes */
  lemma TakenRegion(rs: seq<L.Range>, k: nat, pages: nat, live: Regions)
    requires ListOK(rs) && 0 < pages < L.WORD / PAGE && L.FirstFit(rs, k, L.Bytes(pages))
    ensures L.Bytes(pages) == pages * PAGE
    ensures var s := L.Splice(rs, k, L.Taken(rs[k], L.Bytes(pages)));
            && ListOK(s) && InWindow(rs[k].start, pages * PAGE) && Listed(s, rs[k].start, pages * PAGE)
               && rs[k].start % PAGE == 0 && rs[k].start > 0
            && (forall b: nat, n: nat {:trigger Listed(rs, b, n)} | Listed(rs, b, n) ::
               Listed(s, b, n) && Disjoint(rs[k].start, pages * PAGE, b, n))
  {
    L.Wraps(pages * PAGE);
    assert L.RangeOK(rs[k]);
    TakenListed(rs, k, L.Bytes(pages));
  }

  lemma ValidParts(pm: P.Allocator)
    requires pm.Valid()
    ensures P.Partition(pm.own) && pm.Usable()
  {
    hide P.Partition;
    pm.CurrentIsLast();
  }

  lemma PhysBound(phys: Page)
    requires GoodPage(phys)
    ensures FrameAddr(phys) && phys + 1 * PAGE <= PHYS_LIMIT
  {
  }

  lemma NothingMapped()
    ensures forall before: nat, n: nat, flags: nat, m: nat :: FramesMapped(before, n, [], flags, m) == before
  {
  }

  /** The lookup of a region's page: its frame is found if the page is present, and only then. */
  lemma PageFound(space: AddressSpace, out: set<Page>, b: nat, r: Region, k: nat)
    requires space.Valid() && k < |r.frames| && PageHeld(space.tab, space.at, out, b, r, k)
    requires InWindow(b, |r.frames| * PAGE) && b % PAGE == 0 && OnlyFlags(r.flags)
    ensures space.GetPhys(b + k * PAGE) == (if Present(r.flags) then r.frames[k] else 0) && r.frames[k] != 0
  {
    hide AddressSpace.Valid, Present, Addr, FlagsOf, OnlyFlags, Mapped, MakeEntry, PageOf, AddressSpace.LastEntry;
    RegionPage(b, |r.frames|, k);
    space.LookupsAgree(b + k * PAGE);
    EntryParts(r.frames[k], r.flags);
    NoEntry();
  }
}
