/** The physical page allocator: page-sized stacks of free pages, chained through free pages themselves. */
module Physical {

  type Page = nat

  const STACK_SIZE := 509
  const PAGE_SIZE := 0x1000
  const PHYS_LIMIT := 0x10_0000_0000_0000
  const PRESENT_WRITE := 3

  /** A page of memory in use as a stack. */
  datatype Frame = Frame(prev: Page, next: Page, used: nat, data: seq<Page>)

  type Frames = map<Page, Frame>

  /** An address that a page-table entry can hold; 0 stands for the end of the chain. */
  predicate GoodPage(a: Page)
  {
    0 < a < PHYS_LIMIT && a % PAGE_SIZE == 0
  }

  /** The start of any page, page 0 included */
  predicate PageStart(a: nat)
  {
    a < PHYS_LIMIT && a % PAGE_SIZE == 0
  }

  /** `entry & 0x000FFFFFFFFFF000` */
  function AddressOf(entry: nat): Page
  {
    (entry % PHYS_LIMIT) / PAGE_SIZE * PAGE_SIZE
  }

  lemma AddressRecovered(a: Page)
    requires PageStart(a)
    ensures AddressOf(a + PRESENT_WRITE) == a
  {
  }

  function FrameAt(at: Frames, p: Page): Frame
  {
    if p in at then at[p] else Frame(0, 0, 0, [])
  }

  /** The current frame of a chain */
  function Top(at: Frames, chain: seq<Page>): Frame
  {
    if chain == [] then Frame(0, 0, 0, []) else FrameAt(at, chain[|chain| - 1])
  }

  /** A frame of the chain, at position `i` of `n`: all but the current one hold one page less than is possible. */
  predicate FrameOK(at: Frames, chain: seq<Page>, i: nat)
    requires i < |chain|
  {
    && GoodPage(chain[i]) && chain[i] in at
    && |at[chain[i]].data| == STACK_SIZE && at[chain[i]].used <= STACK_SIZE
    && at[chain[i]].prev == (if i == 0 then 0 else chain[i - 1])
    && (i + 1 < |chain| ==> at[chain[i]].used == STACK_SIZE - 1)
  }

  /** Frames from the first to the current one, linked by `prev` */
  ghost predicate ChainOK(at: Frames, chain: seq<Page>)
  {
    && chain != []
    && (forall i: nat {:trigger FrameOK(at, chain, i)} | i < |chain| :: FrameOK(at, chain, i))
    && (forall i: nat, j: nat | i < j < |chain| :: chain[i] != chain[j])
  }

  /** The free pages, the one to be handed out next last. */
  function Free(at: Frames, chain: seq<Page>): seq<Page>
  {
    if chain == [] then [] else
      var c := chain[|chain| - 1];
      Free(at, chain[..|chain| - 1]) + if c in at && at[c].used <= |at[c].data| then at[c].data[..at[c].used] else []
  }

  lemma {:induction false} FreeSame(at: Frames, at': Frames, chain: seq<Page>)
    requires forall i | 0 <= i < |chain| ::
             chain[i] in at && chain[i] in at' && at'[chain[i]].used == at[chain[i]].used
             && at'[chain[i]].data == at[chain[i]].data
    ensures Free(at', chain) == Free(at, chain)
  {
    if chain != [] {
      FreeSame(at, at', chain[..|chain| - 1]);
    }
  }

  /** Only the current frame changes. */
  lemma CurrentChanged(at: Frames, chain: seq<Page>, f: Frame)
    requires ChainOK(at, chain) && |f.data| == STACK_SIZE && f.used <= STACK_SIZE && f.prev == Top(at, chain).prev
    ensures ChainOK(at[chain[|chain| - 1] := f], chain)
    ensures Free(at[chain[|chain| - 1] := f], chain) == Free(at, chain[..|chain| - 1]) + f.data[..f.used]
  {
    var c := chain[|chain| - 1];
    var at' := at[c := f];
    forall i: nat | i < |chain| ensures FrameOK(at', chain, i) {
      assert FrameOK(at, chain, i);
    }
    var rest := chain[..|chain| - 1];
    forall i | 0 <= i < |rest| ensures rest[i] in at && at'[rest[i]] == at[rest[i]] {
      assert FrameOK(at, chain, i);
    }
    FreeSame(at, at', rest);
  }

  /** The current frame is left for the one before it. */
  lemma Shorter(at: Frames, chain: seq<Page>)
    requires ChainOK(at, chain) && |chain| > 1
    ensures ChainOK(at, chain[..|chain| - 1]) && Top(at, chain[..|chain| - 1]).used == STACK_SIZE - 1
    ensures Top(at, chain).prev == chain[|chain| - 2] > 0
  {
    var rest := chain[..|chain| - 1];
    forall i: nat | i < |rest| ensures FrameOK(at, rest, i) {
      assert FrameOK(at, chain, i);
    }
    assert FrameOK(at, chain, |chain| - 1) && FrameOK(at, chain, |chain| - 2);
  }

  /** A page becomes the new current frame; the old one holds one page less than is possible. */
  lemma Longer(at: Frames, chain: seq<Page>, x: Page, f: Frame)
    requires ChainOK(at, chain) && Top(at, chain).used == STACK_SIZE - 1 && GoodPage(x) && x !in chain
    requires |f.data| == STACK_SIZE && f.used <= STACK_SIZE && f.prev == chain[|chain| - 1]
    ensures ChainOK(at[x := f], chain + [x]) && Free(at[x := f], chain + [x]) == Free(at, chain) + f.data[..f.used]
  {
    var at', chain' := at[x := f], chain + [x];
    forall i: nat | i < |chain'| ensures FrameOK(at', chain', i) {
      if i < |chain| {
        assert FrameOK(at, chain, i);
      }
    }
    forall i | 0 <= i < |chain| ensures chain[i] in at && at'[chain[i]] == at[chain[i]] {
      assert FrameOK(at, chain, i);
    }
    FreeSame(at, at', chain);
    assert chain'[..|chain'| - 1] == chain;
  }

  lemma CurrentFrame(at: Frames, chain: seq<Page>)
    requires ChainOK(at, chain)
    ensures chain[|chain| - 1] in at && GoodPage(chain[|chain| - 1])
    ensures var f := Top(at, chain);
            f.used <= |f.data| == STACK_SIZE && Free(at, chain) == Free(at, chain[..|chain| - 1]) + f.data[..f.used]
    ensures Top(at, chain).prev == 0 <==> |chain| == 1
  {
    assert FrameOK(at, chain, |chain| - 1);
    if |chain| > 1 {
      Shorter(at, chain);
    }
  }

  /** Where pages are: free, handed out, in use as frames, or as frames that have been left for good. */
  datatype Owners = Owners(free: seq<Page>, out: set<Page>, frames: set<Page>, left: set<Page>, supplied: set<Page>)

  predicate Distinct(s: seq<Page>)
  {
    forall i, j | 0 <= i < j < |s| :: s[i] != s[j]
  }

  function Elements(s: seq<Page>): set<Page>
  {
    set x | x in s
  }

  /** The four kinds partition the pages ever supplied. */
  ghost predicate Partition(o: Owners)
  {
    && o.supplied == Elements(o.free) + o.out + o.frames + o.left
    && Distinct(o.free) && Elements(o.free) !! o.out && Elements(o.free) !! o.frames && Elements(o.free) !! o.left
    && o.out !! o.frames && o.out !! o.left && o.frames !! o.left
    && forall x | x in o.supplied :: GoodPage(x)
  }

  lemma PopElements(s: seq<Page>)
    requires s != [] && Distinct(s)
    ensures Distinct(s[..|s| - 1]) && Elements(s) == Elements(s[..|s| - 1]) + {s[|s| - 1]}
    ensures s[|s| - 1] !in Elements(s[..|s| - 1])
  {
    assert s == s[..|s| - 1] + [s[|s| - 1]];
  }

  lemma PushElements(s: seq<Page>, x: Page)
    requires Distinct(s) && x !in Elements(s)
    ensures Distinct(s + [x]) && Elements(s + [x]) == Elements(s) + {x}
  {
  }

  /** The last free page is handed out. */
  function Popped(o: Owners): Owners
    requires o.free != []
  {
    o.(free := o.free[..|o.free| - 1], out := o.out + {o.free[|o.free| - 1]})
  }

  function Pushed(o: Owners, x: Page): Owners
  {
    o.(free := o.free + [x], out := o.out - {x}, supplied := o.supplied + {x})
  }

  /** The last free page becomes a frame. */
  function Grown(o: Owners): Owners
    requires o.free != []
  {
    o.(free := o.free[..|o.free| - 1], frames := o.frames + {o.free[|o.free| - 1]})
  }

  lemma PoppedKeeps(o: Owners)
    requires Partition(o) && o.free != []
    ensures Partition(Popped(o)) && Partition(Grown(o)) && o.free[|o.free| - 1] in o.supplied
    ensures o.free[|o.free| - 1] !in o.frames
    ensures GoodPage(o.free[|o.free| - 1]) && o.free[|o.free| - 1] !in o.out
  {
    hide GoodPage;
    PopElements(o.free);
  }

  /** A page that may be marked free: handed out before, or new. */
  predicate MayFree(o: Owners, x: Page)
  {
    GoodPage(x) && x !in Elements(o.free) && x !in o.frames && x !in o.left
  }

  lemma PushedKeeps(o: Owners, x: Page)
    requires Partition(o)
    ensures Partition(Pushed(o, x)) <==> MayFree(o, x)
  {
    hide GoodPage;
    LastElement(o.free, x);
    if MayFree(o, x) {
      PushElements(o.free, x);
    }
  }

  lemma LastElement(s: seq<Page>, x: Page)
    ensures x in Elements(s + [x]) && (x in Elements(s) ==> !Distinct(s + [x]))
  {
    var t := s + [x];
    assert t[|s|] == x;
    if x in Elements(s) {
      var i :| 0 <= i < |s| && s[i] == x;
      assert t[i] == t[|s|];
    }
  }

  lemma StillMayFree(o: Owners, x: Page)
    requires Partition(o) && o.free != []
    ensures MayFree(Grown(o), x) <==> MayFree(o, x)
  {
    hide GoodPage;
    PopElements(o.free);
  }

  lemma LeftKeeps(o: Owners, c: Page)
    requires Partition(o) && c in o.frames
    ensures Partition(o.(frames := o.frames - {c}, left := o.left + {c}))
  {
    hide GoodPage, Elements;
  }

  // ----- The allocator's state as values -----

  /** A stack whose pages could be addresses in a page-table entry */
  predicate Shaped(f: Frame)
  {
    |f.data| == STACK_SIZE && f.used <= STACK_SIZE && forall k: nat | k < f.used :: PageStart(f.data[k])
  }

  /** The chain of stacks is linked, and holds just the pages that are free. */
  ghost predicate InOrder(at: Frames, entry: nat, root: Page, chain: seq<Page>, o: Owners)
  {
    && ChainOK(at, chain) && chain[0] == root && entry == chain[|chain| - 1] + PRESENT_WRITE
    && o.free == Free(at, chain) && o.frames == Elements(chain[1..]) && root !in o.supplied
    && Partition(o)
  }

  /** The current stack */
  lemma CurrentIs(at: Frames, entry: nat, root: Page, chain: seq<Page>, o: Owners)
    requires InOrder(at, entry, root, chain, o)
    ensures var c := AddressOf(entry);
            c == chain[|chain| - 1] && c in at && at[c] == Top(at, chain) && GoodPage(c) && Shaped(at[c])
    ensures var f := at[AddressOf(entry)];
            f.used <= |f.data| == STACK_SIZE && o.free == Free(at, chain[..|chain| - 1]) + f.data[..f.used]
    ensures at[AddressOf(entry)].prev == 0 <==> |chain| == 1
  {
    hide ChainOK, Partition, GoodPage, Elements, Free;
    CurrentFrame(at, chain);
    GoodStarts(chain[|chain| - 1]);
    AddressRecovered(chain[|chain| - 1]);
    var f := at[AddressOf(entry)];
    forall k: nat | k < f.used ensures PageStart(f.data[k]) {
      assert f.data[..f.used][k] == f.data[k];
      assert o.free[|Free(at, chain[..|chain| - 1])| + k] == f.data[k];
      FreeIsGood(o, f.data[k]);
      GoodStarts(f.data[k]);
    }
  }

  lemma GoodStarts(a: Page)
    requires GoodPage(a)
    ensures PageStart(a) && a > 0
  {
  }

  lemma FreeIsGood(o: Owners, x: Page)
    requires Partition(o) && x in o.free
    ensures GoodPage(x)
  {
    assert x in Elements(o.free);
    assert x in o.supplied;
  }

  /** The last page is taken off the current stack. */
  lemma PopOrder(at: Frames, entry: nat, root: Page, chain: seq<Page>, o: Owners)
    requires InOrder(at, entry, root, chain, o) && AddressOf(entry) in at
    requires 0 < at[AddressOf(entry)].used <= STACK_SIZE == |at[AddressOf(entry)].data|
    ensures o.free != []
    ensures var c := AddressOf(entry); var n := at[c].used;
            && at[c].data[n - 1] == o.free[|o.free| - 1]
            && InOrder(at[c := at[c].(data := at[c].data[n - 1 := 0], used := n - 1)], entry, root, chain, Popped(o))
  {
    hide GoodPage, Partition, ChainOK, Free, Elements;
    CurrentIs(at, entry, root, chain, o);
    var c := AddressOf(entry);
    var n := at[c].used;
    var frame := at[c].(data := at[c].data[n - 1 := 0], used := n - 1);
    CurrentChanged(at, chain, frame);
    assert at[c].data[..n] == at[c].data[..n - 1] + [at[c].data[n - 1]];
    assert frame.data[..n - 1] == at[c].data[..n - 1];
    assert o.free[..|o.free| - 1] == Free(at, chain[..|chain| - 1]) + at[c].data[..n - 1];
    PoppedKeeps(o);
  }

  /** A page is put on the current stack: all is in order then if and only if it may be free. */
  lemma PushOrder(at: Frames, entry: nat, root: Page, chain: seq<Page>, o: Owners, x: Page)
    requires InOrder(at, entry, root, chain, o) && AddressOf(entry) in at
    requires at[AddressOf(entry)].used < STACK_SIZE == |at[AddressOf(entry)].data|
    ensures var c := AddressOf(entry); var n := at[c].used;
            InOrder(at[c := at[c].(data := at[c].data[n := x], used := n + 1)], entry, root, chain, Pushed(o, x)) <==>
                MayFree(o, x) && x != root
  {
    hide GoodPage, Partition, ChainOK, Free, Elements, MayFree;
    CurrentIs(at, entry, root, chain, o);
    var c := AddressOf(entry);
    var n := at[c].used;
    var frame := at[c].(data := at[c].data[n := x], used := n + 1);
    CurrentChanged(at, chain, frame);
    assert frame.data[..n + 1] == at[c].data[..n] + [x];
    assert o.free + [x] == Free(at, chain[..|chain| - 1]) + (at[c].data[..n] + [x]);
    PushedKeeps(o, x);
  }

  /** The page that was popped, the last free one of `o`, becomes the current stack. */
  lemma LinkOrder(at: Frames, entry: nat, root: Page, chain: seq<Page>, o: Owners, garbage: seq<Page>)
    requires o.free != [] && Partition(o) && root !in o.supplied && InOrder(at, entry, root, chain, Popped(o))
    requires |garbage| == STACK_SIZE
    requires AddressOf(entry) in at && at[AddressOf(entry)].used == STACK_SIZE - 1
    ensures var c, x := AddressOf(entry), o.free[|o.free| - 1];
            && c != x && InOrder(at[x := Frame(c, 0, 0, garbage)][c := at[c].(next := x)], x + PRESENT_WRITE, root,
               chain + [x], Grown(o))
  {
    hide GoodPage, Partition, ChainOK, FrameOK, Free, Elements;
    CurrentIs(at, entry, root, chain, Popped(o));
    PoppedKeeps(o);
    var c, x := AddressOf(entry), o.free[|o.free| - 1];
    NotInChain(chain, x);
    var f := at[c].(next := x);
    CurrentChanged(at, chain, f);
    Longer(at[c := f], chain, x, Frame(c, 0, 0, garbage));
    assert at[x := Frame(c, 0, 0, garbage)][c := f] == at[c := f][x := Frame(c, 0, 0, garbage)];
    FreshFrame(chain, x);
    assert garbage[..0] == [];
    assert at[c].data[..f.used] == f.data[..f.used];
  }

  class Allocator {
    /** Contents of the pages in use as stacks, by their physical addresses. */
    var at: Frames
    /** The page-table entry through which the current stack is reached. */
    var entry: nat
    const root: Page
    ghost var chain: seq<Page>
    ghost var own: Owners

    ghost predicate Valid()
      reads this
    {
      InOrder(at, entry, root, chain, own) && Current() in at
    }

    /** Whatever the pages are, the current stack is there. */
    ghost predicate Usable()
      reads this
    {
      Current() in at && Shaped(at[Current()])
    }

    /** The first stack is static memory. */
    constructor (rootPhys: Page, zeros: seq<Page>)
      requires GoodPage(rootPhys) && |zeros| == STACK_SIZE
      ensures Valid() && own == Owners([], {}, {}, {}, {}) && root == rootPhys
    {
      at := map[rootPhys := Frame(0, 0, 0, zeros)];
      entry := rootPhys + PRESENT_WRITE;
      root := rootPhys;
      chain := [rootPhys];
      own := Owners([], {}, {}, {}, {});
      new;
      assert FrameOK(at, chain, 0);
      assert chain[..0] == [];
    }

    /** `stack`: the page that is mapped as the current stack */
    function Current(): Page
      reads this
    {
      AddressOf(entry)
    }

    lemma CurrentIsLast()
      requires Valid()
      ensures Current() == chain[|chain| - 1] && at[Current()] == Top(at, chain) && GoodPage(Current()) && Usable()
      ensures var f := at[Current()];
              f.used <= |f.data| == STACK_SIZE && own.free == Free(at, chain[..|chain| - 1]) + f.data[..f.used]
      ensures at[Current()].prev == 0 <==> |chain| == 1
    {
      hide InOrder;
      CurrentIs(at, entry, root, chain, own);
    }

    /** The page that `mm_physical_get` hands out next */
    predicate HandsOut(x: Page)
      reads this
    {
      Current() in at && 0 < at[Current()].used <= |at[Current()].data|
        && at[Current()].data[at[Current()].used - 1] == x
    }

    /** `mm_physical_next_stack` */
    method NextStack(addr: Page)
      modifies this`entry
      ensures entry == addr + 3 && entry == addr + PRESENT_WRITE
    {
      entry := addr + PRESENT_WRITE;
    }

    /** The last page of the current stack is taken from it. */
    method Pop() returns (ret: Page)
      requires Usable() && at[Current()].used > 0
      modifies this`at, this`own
      ensures Usable() && at[Current()].used == old(at[Current()].used) - 1
      ensures old(HandsOut(ret)) && PageStart(ret)
      ensures old(Valid()) ==>
                Valid() && old(own.free) != [] && own == Popped(old(own)) && ret == old(own.free)[|old(own.free)| - 1]
      ensures !old(Valid()) ==> own == old(own)
    {
      hide InOrder, PageStart;
      ghost var ordered := Valid();
      if ordered {
        PopOrder(at, entry, root, chain, own);
      }
      var c := Current();
      var n := at[c].used;
      ret := at[c].data[n - 1];
      at := at[c := at[c].(data := at[c].data[n - 1 := 0], used := n - 1)];
      if ordered {
        own := Popped(own);
      }
    }

    /** A page is put on the current stack. */
    method Push(addr: Page)
      requires Usable() && at[Current()].used < STACK_SIZE && PageStart(addr)
      modifies this`at, this`own
      ensures Usable() && HandsOut(addr) && own == Pushed(old(own), addr)
      ensures old(Valid()) ==> (Valid() <==> MayFree(old(own), addr) && addr != root)
    {
      hide InOrder, PageStart, MayFree;
      if Valid() {
        PushOrder(at, entry, root, chain, own, addr);
      }
      var c := Current();
      var n := at[c].used;
      at := at[c := at[c].(data := at[c].data[n := addr], used := n + 1)];
      own := Pushed(own, addr);
    }

    /** The emptied frame is left; nothing leads back to it. */
    ghost method LeaveFrame()
      requires ChainOK(at, chain) && |chain| > 1 && chain[0] == root && entry == chain[|chain| - 2] + PRESENT_WRITE
      requires Top(at, chain).used == 0 && own.free == Free(at, chain) && own.frames == Elements(chain[1..])
      requires root !in own.supplied && Partition(own)
      modifies this`chain, this`own
      ensures Valid() && chain == old(chain[..|chain| - 1])
      ensures own == old(own).(frames := own.frames, left := own.left)
      ensures own.frames + own.left == old(own.frames + own.left)
    {
      hide GoodPage, ChainOK, Partition, Elements, Free;
      Shorter(at, chain);
      CurrentFrame(at, chain);
      assert Top(at, chain).data[..0] == [];
      var c := chain[|chain| - 1];
      ChainDistinct(at, chain);
      LastOfFrames(chain);
      LeftKeeps(own, c);
      chain := chain[..|chain| - 1];
      CurrentFrame(at, chain);
      AddressRecovered(chain[|chain| - 1]);
      own := own.(frames := own.frames - {c}, left := own.left + {c});
    }

    /** `mm_physical_get`: the page handed out, or nothing if there is none (the code panics). `turns` counts
        the calls that this one makes of itself. */
    method Get() returns (ok: bool, ret: Page, ghost turns: nat)
      requires Valid()
      modifies this
      ensures Valid() && turns <= 1 && (old(at[Current()].used) > 0 ==> turns == 0)
      ensures ok <==> old(own.free) != []
      ensures ok ==>
                ret == old(own.free)[|old(own.free)| - 1]
                && own == Popped(old(own)).(frames := own.frames, left := own.left)
      ensures own.frames + own.left == old(own.frames + own.left) && (!ok ==> own == old(own))
      decreases |chain|
    {
      hide GoodPage, Partition, ChainOK, Free, Elements;
      CurrentIsLast();
      var c := Current();
      if at[c].used > 0 {
        ret := Pop();
        ok, turns := true, 0;
      } else if at[c].prev != 0 {
        Shorter(at, chain);
        NextStack(at[c].prev);
        LeaveFrame();
        CurrentIsLast();
        ok, ret, turns := Get();
        turns := turns + 1;
      } else {
        OnlyRoot(at, chain);
        ok, ret, turns := false, 0, 0;
      }
    }

    /** `mm_physical_create_stack`: the page `phys`, whatever it holds beyond its first words, links back to the
        current stack. */
    method CreateStack(phys: Page, garbage: seq<Page>)
      modifies this`at
      ensures at == old(at)[phys := Frame(Current(), 0, 0, garbage)]
    {
      var current := AddressOf(entry);
      at := at[phys := Frame(current, 0, 0, garbage)];
    }

    /** `mm_physical_mark_free` of any page; `garbage` is what the page that becomes a stack, if one is needed,
        holds. All is in order afterwards if and only if the page was handed out before, or is a new one. */
    method MarkFree(addr: Page, garbage: seq<Page>)
      requires Usable() && PageStart(addr) && |garbage| == STACK_SIZE
      modifies this
      ensures Usable() && HandsOut(addr)
      ensures own.out == old(own.out) - {addr} && own.supplied == old(own.supplied) + {addr}
      ensures old(Valid()) ==> (Valid() <==> MayFree(old(own), addr) && addr != root)
      ensures old(Valid()) ==> if old(at[Current()].used) < 509 then own == Pushed(old(own), addr)
                               else old(own.free) != [] && own == Pushed(Grown(old(own)), addr)
    {
      hide InOrder, PageStart, MayFree;
      if at[Current()].used < STACK_SIZE {
        Push(addr);
      } else {
        ghost var own0, ordered := own, Valid();
        Grow(garbage);
        if ordered {
          OrderParts(at, entry, root, chain, own);
          StillMayFree(own0, addr);
        }
        Push(addr);
      }
    }

    /** `stack->next = mm_physical_create_stack(mm_physical_get()); mm_physical_next_stack(stack->next)` */
    method Grow(garbage: seq<Page>)
      requires Usable() && at[Current()].used == STACK_SIZE && |garbage| == STACK_SIZE
      modifies this
      ensures Usable() && at[Current()].used == 0
      ensures old(Valid()) ==> Valid() && Partition(old(own)) && old(own.free) != [] && own == Grown(old(own))
      ensures !old(Valid()) ==> own == old(own)
    {
      hide InOrder, PageStart;
      ghost var own0, ordered := own, Valid();
      if ordered {
        OrderParts(at, entry, root, chain, own);
      }
      var page := Pop();
      if ordered {
        LinkOrder(at, entry, root, chain, own0, garbage);
      }
      var c := Current();
      CreateStack(page, garbage);
      at := at[c := at[c].(next := page)];
      NextStack(at[c].next);
      AddressRecovered(page);
      if ordered {
        chain := chain + [page];
        own := Grown(own0);
      }
    }
  }

  lemma OrderParts(at: Frames, entry: nat, root: Page, chain: seq<Page>, o: Owners)
    requires InOrder(at, entry, root, chain, o)
    ensures Partition(o) && root !in o.supplied
  {
  }

  lemma ChainDistinct(at: Frames, chain: seq<Page>)
    requires ChainOK(at, chain)
    ensures forall i: nat, j: nat | i < j < |chain| :: chain[i] != chain[j]
  {
  }

  /** The chain's last frame is among those that are not the first one. */
  lemma LastOfFrames(chain: seq<Page>)
    requires |chain| > 1 && forall i: nat, j: nat | i < j < |chain| :: chain[i] != chain[j]
    ensures Elements(chain[1..]) == Elements(chain[..|chain| - 1][1..]) + {chain[|chain| - 1]}
    ensures chain[|chain| - 1] !in Elements(chain[..|chain| - 1][1..])
  {
    assert chain[1..] == chain[..|chain| - 1][1..] + [chain[|chain| - 1]];
  }

  lemma NotInChain(chain: seq<Page>, x: Page)
    requires chain != [] && x !in Elements(chain[1..]) && x != chain[0]
    ensures x !in chain
  {
    assert chain == [chain[0]] + chain[1..];
  }

  lemma FreshFrame(chain: seq<Page>, x: Page)
    requires chain != []
    ensures Elements((chain + [x])[1..]) == Elements(chain[1..]) + {x}
  {
    assert (chain + [x])[1..] == chain[1..] + [x];
  }

  lemma OnlyRoot(at: Frames, chain: seq<Page>)
    requires ChainOK(at, chain) && Top(at, chain).used == 0 && |chain| == 1
    ensures Free(at, chain) == []
  {
    CurrentFrame(at, chain);
    assert chain[..0] == [];
  }
}
