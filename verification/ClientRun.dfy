/** Whole runs: a client that passes only pointers it owns, and a system that answers with unmapped memory. */
module ClientRun {
  import opened Words
  import opened BoundaryTags
  import opened HeapState
  import opened MallocState
  import opened HandOut
  import opened Requests
  import opened SegmentOps
  import opened SystemAlloc
  import opened Promises
  import opened Malloc
  import opened Trim
  import opened Freeing
  import opened Payload
  import opened Realloc
  import opened Memalign
  import opened BulkFree
  import A = Alignment
  import TreeIndex
  import SB = SmallBins
  import TB = TreeBins

  /** What a client remembers of a word that it has written. */
  datatype Note = Note(block: Addr, value: nat)

  type Notes = map<Addr, Note>

  predicate NoteOK(st: State, owned: set<Addr>, notes: Notes, w: Addr)
    requires w in notes
  {
    notes[w].block in owned && InPayload(st, notes[w].block, w) && st.tags.W(w) == notes[w].value
  }

  /** Every word that was written is still there. */
  ghost predicate Intact(st: State, owned: set<Addr>, notes: Notes)
  {
    forall w | w in notes :: NoteOK(st, owned, notes, w)
  }

  /** The notes on all blocks but those in `D` */
  function Without(notes: Notes, D: set<Addr>): Notes
  {
    map w | w in notes && notes[w].block !in D :: notes[w]
  }

  lemma StaysIntact(st: State, st': State, owned: set<Addr>, owned': set<Addr>, notes: Notes, D: set<Addr>)
    requires Intact(st, owned, notes) && OthersKept(st, st', D) && owned - D <= owned' && Inv(st, {}, {})
    requires Inv(st', {}, {})
    ensures Intact(st', owned', Without(notes, D))
  {
    hide Inv, OthersKept, InPayload;
    var notes' := Without(notes, D);
    forall w | w in notes' ensures NoteOK(st', owned', notes', w) {
      var p := notes[w].block;
      assert NoteOK(st, owned, notes, w);
      KeptOf(st, st', D, p);
      PayloadKept(st, st', p, w);
    }
  }

  lemma KeptOf(st: State, st': State, D: set<Addr>, p: Addr)
    requires OthersKept(st, st', D) && p !in D
    ensures BlockKept(st, st', p)
  {
  }

  lemma PayloadKept(st: State, st': State, p: Addr, w: Addr)
    requires BlockKept(st, st', p) && InPayload(st, p, w) && Inv(st, {}, {}) && Inv(st', {}, {})
    ensures InPayload(st', p, w) && st'.tags.W(w) == st.tags.W(w)
  {
    hide Inv, BlockKept;
    SourceKept(st, st', p, w - p - 16);
    UsableKept(st, st', p);
    KeptMember(st, st', p, 0);
  }

  /** Requests, with the system's answers in case it is asked */
  datatype Request =
    | Malloc(bytes: nat, direct: Addr, mp: Addr)
    | Free(mem: Addr, refuse: set<Addr>)
    | Realloc(mem: Addr, bytes: nat, direct: Addr, mp: Addr, refuse: set<Addr>)
    | Memalign(alignment: nat, bytes: nat, direct: Addr, mp: Addr)
    | Trim(pad: nat, refuse: set<Addr>)
    | BulkFree(mems: seq<Addr>, refuse: set<Addr>)
    | Write(mem: Addr, offset: nat, value: nat)

  // ----- What a request comes to -----

  /** A client's view at one moment: the heap, the blocks it owns, what it has written */
  datatype Moment = Moment(st: State, owned: set<Addr>, notes: Notes)

  /** A request that a client may make: it passes only what it owns. */
  predicate Allowed(r: Request, owned: set<Addr>, st: State)
  {
    match r
    case Malloc(bytes, _, _) => bytes < WORD_MODULUS
    case Free(mem, _) => mem == 0 || (mem >= 16 && mem - 16 in owned)
    case Realloc(mem, bytes, _, _, _) => bytes < WORD_MODULUS && (mem == 0 || (mem >= 16 && mem - 16 in owned))
    case Memalign(alignment, bytes, _, _) => bytes < WORD_MODULUS && alignment <= 0x8000_0000_0000_0000
    case Trim(_, _) => true
    case BulkFree(mems, _) => OwnedBlocks(mems, owned)
    case Write(mem, offset, _) => mem >= 16 && mem - 16 in owned && offset < Usable(st, mem - 16)
  }

  /** What the request has done to the heap; `mem` is the answer. */
  ghost predicate Served(r: Request, st: State, st': State, mem: Addr)
  {
    match r
    case Malloc(bytes, _, _) =>
      && HeapAnswer(st, st', bytes, mem)
      && if mem == 0 then st' == st
         else mem >= 16 && bytes < MAX_REQUEST && Granted(st, st', mem - 16, RequestSize(bytes))
    case Free(old_, refuse) => mem == 0 && if old_ < 16 then st' == st else FreedBlock(st, st', old_ - 16, refuse)
    case Realloc(old_, bytes, _, _, refuse) =>
      && (if old_ >= 16 then HeapResize(st, st', bytes, old_, mem) else HeapAnswer(st, st', bytes, mem))
      && if mem == 0 then st' == st
         else if old_ < 16 then mem >= 16 && bytes < MAX_REQUEST && Granted(st, st', mem - 16, RequestSize(bytes))
         else mem >= 16 && bytes < MAX_REQUEST &&
              if mem != old_ then MovedTo(st, st', old_ - 16, mem - 16, bytes, refuse)
              else if old_ - 16 in st.maps then st' == st else InPlace(st, st', old_ - 16, RequestSize(bytes))
    case Memalign(alignment, bytes, _, _) =>
      && (exists a: nat, k: nat ::
            A.LeastPower(a, k, alignment) && mem % a == 0 && HeapAligns(st, st', bytes, a, mem))
      && if mem == 0 then st' == st
         else mem >= 16 && bytes < MAX_REQUEST && AlignedOut(st, st', mem - 16, RequestSize(bytes))
    case Trim(_, _) => mem == 0 && ClientsKept(st, st')
    case BulkFree(mems, refuse) => mem == 0 && Progress(st, st', [], Chunks(mems), refuse)
    case Write(at, offset, value) => mem == 0 && st' == Stored(st, at + offset, value)
  }

  /** The blocks that are taken from the client, or given other contents */
  function Touched(r: Request, mem: Addr): set<Addr>
  {
    match r
    case Malloc(_, _, _) => if mem >= 16 then {mem - 16} else {}
    case Free(old_, _) => if old_ >= 16 then {old_ - 16} else {}
    case Realloc(old_, _, _, _, _) => if mem < 16 then {} else if old_ < 16 then {mem - 16} else {old_ - 16, mem - 16}
    case Memalign(_, _, _, _) => if mem >= 16 then {mem - 16} else {}
    case Trim(_, _) => {}
    case BulkFree(mems, _) => Chunks(mems)
    case Write(_, _, _) => {}
  }

  /** The block that the client gets */
  function Gained(r: Request, mem: Addr): set<Addr>
  {
    if (r.Malloc? || r.Realloc? || r.Memalign?) && mem >= 16 then {mem - 16} else {}
  }

  function NotesAfter(r: Request, notes: Notes, mem: Addr): Notes
  {
    if r.Write? && r.mem >= 16 then notes[r.mem + r.offset := Note(r.mem - 16, r.value)]
      else Without(notes, Touched(r, mem))
  }

  /** From one moment to the next */
  ghost predicate Outcome(r: Request, b: Moment, e: Moment, mem: Addr)
  {
    if Allowed(r, b.owned, b.st) then
      Served(r, b.st, e.st, mem) && e.owned == b.owned - Touched(r, mem) + Gained(r, mem)
        && e.notes == NotesAfter(r, b.notes, mem)
    else e == b && mem == 0
  }

  lemma NoneTouched(notes: Notes, owned: set<Addr>)
    ensures Without(notes, {}) == notes && owned - {} + {} == owned
  {
  }

  /** A client, the chunks of the blocks that it owns, and those that the system has kept mapped for it. */
  class Client {
    const m: MState
    var owned: set<Addr>
    var held: set<Addr>
    ghost var notes: Notes

    ghost predicate Valid()
      reads this, m, m.small, m.trees
    {
      && Good(m) && owned <= held && held == m.layout.live + m.layout.maps.Keys && Intact(m.S(), owned, notes)
    }

    ghost function Now(): Moment
      reads this, m, m.small, m.trees
    {
      Moment(m.S(), owned, notes)
    }

    constructor (limit: nat)
      ensures Valid() && owned == {} && notes == map[] && fresh(m) && fresh(m.small) && fresh(m.trees)
    {
      hide Inv, SB.SmallBins.Valid, TB.TreeBins.Valid, OK, SegsOK, MapsOK, UsedOK, BinsMatch, DvTopOK, FootprintOK,
        LeastOK;
      EmptyInv();
      m := new MState(limit);
      owned, held, notes := {}, {}, map[];
    }

    /** Memory that is not mapped, as the system sees it: it knows the segments, and mapped chunks by their heads. */
    predicate Unmapped(base: Addr, size: nat)
      reads this, m
    {
      && base > 0 && base % 4096 == 0 && size > 0 && size % 4096 == 0 && base + size <= TreeIndex.SIZE_MODULUS
      && m.footprint + size < TreeIndex.INDEX_LIMIT
      && (forall k | 0 <= k < |m.segs| :: SegApart(m.segs[k], base, size))
      && (forall p | p in held && IsMmapped(m.HeadOf(p)) :: MapApart(MappingAt(p), base, size))
    }

    function MappingAt(p: Addr): Mapping
      reads m
    {
      Mapping(if m.W(p) <= p then p - m.W(p) else 0, m.HeadOf(p) + m.W(p) + MMAP_FOOT_PAD)
    }

    lemma UnmappedIsVacant(base: Addr, size: nat)
      requires Valid() && Unmapped(base, size)
      ensures Vacant(m.S(), base, size)
    {
      hide Inv, Intact;
      forall p | p in m.layout.maps ensures MapApart(m.layout.maps[p], base, size) {
        MappedWords(m.S(), p);
        assert MappingAt(p) == m.layout.maps[p];
      }
    }

    /** The answer `a` to a request for `size` bytes, or failure if the system would not answer so. */
    method Answered(a: Addr, size: nat) returns (r: Addr)
      requires Valid()
      ensures Answer(m.S(), r, size)
    {
      hide Intact, Inv, Vacant;
      r := CMFAIL;
      if Unmapped(a, size) {
        UnmappedIsVacant(a, size);
        r := a;
      }
    }

    method DoMalloc(bytes: nat, direct: Addr, mp: Addr) returns (ok: bool, mem: Addr)
      requires Valid() && bytes < WORD_MODULUS
      modifies this, m, m.small, m.trees
      ensures ok && Valid() && Outcome(Malloc(bytes, direct, mp), old(Now()), Now(), mem)
    {
      hide Outcome, Without, Inv, Intact, Answer, Granted, OthersKept, SB.SmallBins.Valid, TB.TreeBins.Valid, Allocated,
        HeapAnswer, Promises.Placed, SB.SmallBins.Contents, TB.TreeBins.Contents, MmapSize, SegmentSize, ChunkSizeFor,
        RequestSize;
      ghost var st, limit, before, r := m.S(), m.footprintLimit, Now(), Malloc(bytes, direct, mp);
      var d := Answered(direct, MmapSize(ChunkSizeFor(bytes)));
      var b := Answered(mp, SegmentSize(ChunkSizeFor(bytes)));
      NoneTouched(notes, owned);
      ok, mem := Dlmalloc(m, bytes, d, b);
      HeapDecides(st, m.S(), limit, bytes, d, b, mem);
      if mem != 0 {
        GrantedFacts(st, m.S(), mem - 16, RequestSize(bytes));
        StaysIntact(st, m.S(), owned, owned + {mem - 16}, notes, {mem - 16});
        owned, held := owned + {mem - 16}, held + {mem - 16};
        notes := Without(notes, {mem - 16});
      }
      Got(before, m.S(), r, mem);
    }

    method DoFree(mem: Addr, refuse: set<Addr>) returns (ok: bool)
      requires Valid() && (mem == 0 || (mem >= 16 && mem - 16 in owned))
      modifies this, m, m.small, m.trees
      ensures ok && Valid() && Outcome(Free(mem, refuse), old(Now()), Now(), 0)
    {
      hide Inv, Intact, FreedBlock, OthersKept, SB.SmallBins.Valid, TB.TreeBins.Valid, IsMmapped,
        SB.SmallBins.Contents, TB.TreeBins.Contents, FreedThen;
      ghost var st := m.S();
      var stuck := false;
      NoneTouched(notes, owned);
      if mem != 0 {
        NextWords(st, mem - 16);
        stuck := IsMmapped(m.HeadOf(mem - 16)) && MappingAt(mem - 16).base in refuse;
        if mem - 16 in m.layout.maps {
          MappedWords(st, mem - 16);
        }
      }
      ok := Dlfree(m, mem, refuse);
      if mem != 0 {
        var p := mem - 16;
        FreedOthers(st, m.S(), p, refuse);
        KeptButOne(st, m.S(), p);
        StaysIntact(st, m.S(), owned, owned - {p}, notes, {p});
        owned := owned - {p};
        if !stuck {
          held := held - {p};
        }
        notes := Without(notes, {p});
      }
    }

    method DoRealloc(mem: Addr, bytes: nat, direct: Addr, mp: Addr, refuse: set<Addr>) returns (ok: bool, r: Addr)
      requires Valid() && bytes < WORD_MODULUS && mem >= 16 && mem - 16 in owned
      modifies this, m, m.small, m.trees
      ensures ok && Valid() && Outcome(Realloc(mem, bytes, direct, mp, refuse), old(Now()), Now(), r)
    {
      hide Inv, Intact, Answer, InPlace, MovedTo, OthersKept, SB.SmallBins.Valid, TB.TreeBins.Valid, IsMmapped, Outcome,
        Without, FitsInPlace, Granted, Reallocated, HeapResize, MmapSize, SegmentSize, ChunkSizeFor, RequestSize,
        AlignUp, SizeOf, SB.SmallBins.Contents, TB.TreeBins.Contents;
      ghost var st, before, r0 := m.S(), Now(), Realloc(mem, bytes, direct, mp, refuse);
      ghost var limit := m.footprintLimit;
      var p := mem - 16;
      var d := Answered(direct, MmapSize(ChunkSizeFor(bytes)));
      var b := Answered(mp, SegmentSize(ChunkSizeFor(bytes)));
      NextWords(st, p);
      var stuck := IsMmapped(m.HeadOf(p)) && MappingAt(p).base in refuse;
      if p in m.layout.maps {
        MappedWords(st, p);
      }
      ok, r := Dlrealloc(m, mem, bytes, d, b, refuse);
      HeapResizes(st, m.S(), limit, bytes, d, b, mem, r);
      if r == mem {
        ReallocInPlace(st, m.S(), p, bytes);
        StaysIntact(st, m.S(), owned, owned, notes, {p});
        notes := Without(notes, {p});
        Resized(before, m.S(), r0, r);
      } else if r != 0 {
        var q := r - 16;
        MovedFacts(st, m.S(), p, q, bytes, refuse);
        StaysIntact(st, m.S(), owned, owned - {p} + {q}, notes, {p, q});
        owned := owned - {p} + {q};
        held := held + {q} - (if stuck then {} else {p});
        notes := Without(notes, {p, q});
        Resized(before, m.S(), r0, r);
      } else {
        Resized(before, m.S(), r0, r);
      }
    }

    method DoReallocNull(bytes: nat, direct: Addr, mp: Addr, refuse: set<Addr>) returns (ok: bool, mem: Addr)
      requires Valid() && bytes < WORD_MODULUS
      modifies this, m, m.small, m.trees
      ensures ok && Valid() && Outcome(Realloc(0, bytes, direct, mp, refuse), old(Now()), Now(), mem)
    {
      hide Outcome, Without, Inv, Intact, Answer, Granted, OthersKept, SB.SmallBins.Valid, TB.TreeBins.Valid,
        Reallocated, HeapAnswer, SB.SmallBins.Contents, TB.TreeBins.Contents, FitsInPlace, InPlace, MovedTo, MmapSize,
        SegmentSize, ChunkSizeFor, RequestSize;
      ghost var st, limit, before, r := m.S(), m.footprintLimit, Now(), Realloc(0, bytes, direct, mp, refuse);
      var d := Answered(direct, MmapSize(ChunkSizeFor(bytes)));
      var b := Answered(mp, SegmentSize(ChunkSizeFor(bytes)));
      NoneTouched(notes, owned);
      ok, mem := Dlrealloc(m, 0, bytes, d, b, refuse);
      HeapResizes(st, m.S(), limit, bytes, d, b, 0, mem);
      if mem != 0 {
        GrantedFacts(st, m.S(), mem - 16, RequestSize(bytes));
        StaysIntact(st, m.S(), owned, owned + {mem - 16}, notes, {mem - 16});
        owned, held := owned + {mem - 16}, held + {mem - 16};
        notes := Without(notes, {mem - 16});
      }
      Got(before, m.S(), r, mem);
    }

    method DoMemalign(alignment: nat, bytes: nat, direct: Addr, mp: Addr) returns (ok: bool, mem: Addr)
      requires Valid() && bytes < WORD_MODULUS && alignment <= 0x8000_0000_0000_0000
      modifies this, m, m.small, m.trees
      ensures ok && Valid() && Outcome(Memalign(alignment, bytes, direct, mp), old(Now()), Now(), mem)
    {
      hide Outcome, Without, Inv, Intact, Answer, AlignedOut, OthersKept, A.LeastPower, SB.SmallBins.Valid,
        TB.TreeBins.Valid, SB.SmallBins.Contents, TB.TreeBins.Contents, MmapSize, SegmentSize, ChunkSizeFor,
        NoneAligned, HeapAligns, Promises.Holds, RequestSize, AskFor;
      ghost var st, limit, before, r := m.S(), m.footprintLimit, Now(), Memalign(alignment, bytes, direct, mp);
      var a;
      ghost var k;
      a, k := A.RoundAlignment(alignment);
      var d, b := CMFAIL, CMFAIL;
      if AskFor(a, bytes) < WORD_MODULUS {
        d := Answered(direct, MmapSize(ChunkSizeFor(AskFor(a, bytes))));
        b := Answered(mp, SegmentSize(ChunkSizeFor(AskFor(a, bytes))));
      }
      OnlyAnswer(st, a, k, alignment, bytes, d, b);
      NoneTouched(notes, owned);
      var a2;
      ghost var k2;
      ok, mem, a2, k2 := InternalMemalign(m, alignment, bytes, d, b);
      HeapAlignsIt(st, m.S(), limit, bytes, a2, d, b, mem);
      PowerFound(st, m.S(), bytes, alignment, a2, k2, mem);
      if mem != 0 {
        AlignedFacts(st, m.S(), mem - 16, RequestSize(bytes));
        StaysIntact(st, m.S(), owned, owned + {mem - 16}, notes, {mem - 16});
        owned, held := owned + {mem - 16}, held + {mem - 16};
        notes := Without(notes, {mem - 16});
      }
      Got(before, m.S(), r, mem);
    }

    method DoTrim(pad: nat, refuse: set<Addr>) returns (ok: bool)
      requires Valid()
      modifies this, m, m.small, m.trees
      ensures ok && Valid() && Outcome(Trim(pad, refuse), old(Now()), Now(), 0)
    {
      hide Inv, Intact, OthersKept, SB.SmallBins.Valid, TB.TreeBins.Valid;
      ghost var st := m.S();
      var released;
      ok, released := SysTrim(m, pad, refuse);
      StaysIntact(st, m.S(), owned, owned, notes, {});
      notes := Without(notes, {});
    }

    method DoBulkFree(mems: seq<Addr>, refuse: set<Addr>) returns (ok: bool)
      requires Valid() && OwnedBlocks(mems, owned)
      modifies this, m, m.small, m.trees
      ensures ok && Valid() && Outcome(BulkFree(mems, refuse), old(Now()), Now(), 0)
    {
      hide Inv, Intact, Progress, OthersKept, Owned, OwnedBlocks, Chunks, SB.SmallBins.Valid, TB.TreeBins.Valid,
        IsMmapped, Outcome, Without, SB.SmallBins.Contents, TB.TreeBins.Contents;
      ghost var st, before := m.S(), Now();
      var D := Chunks(mems);
      OwnedAre(mems, owned, st.live, st.maps);
      MappedOnes(st, D);
      var stuck := set p | p in D && IsMmapped(m.HeadOf(p)) && MappingAt(p).base in refuse;
      var pointers := new Addr[|mems|](i requires 0 <= i < |mems| => mems[i]);
      assert pointers[..] == mems;
      ok := InternalBulkFree(m, pointers, refuse);
      BulkFacts(st, m.S(), D, refuse);
      StaysIntact(st, m.S(), owned, owned - D, notes, D);
      owned, held := owned - D, (held - D) + stuck;
      notes := Without(notes, D);
      BulkFreed(before, m.S(), mems, refuse);
    }

    method DoWrite(mem: Addr, offset: nat, value: nat)
      requires Valid() && mem >= 16 && mem - 16 in owned && offset < Usable(m.S(), mem - 16)
      modifies this, m
      ensures Valid() && Outcome(Write(mem, offset, value), old(Now()), Now(), 0)
    {
      hide Inv, Intact, OthersKept, UsableEnd, SB.SmallBins.Valid, TB.TreeBins.Valid;
      ghost var st := m.S();
      var p, w := mem - 16, mem + offset;
      assert InPayload(st, p, w);
      Store(m, w, value, p);
      WriteNoted(st, m.S(), owned, notes, p, w, value);
      notes := notes[w := Note(p, value)];
    }

    /** One request, unless the client may not make it */
    method Serve(r: Request) returns (ok: bool, mem: Addr)
      requires Valid()
      modifies this, m, m.small, m.trees
      ensures ok && Valid() && Outcome(r, old(Now()), Now(), mem)
    {
      hide Inv, Intact, OthersKept, UsableEnd, SB.SmallBins.Valid, TB.TreeBins.Valid, SizeOf, IsMmapped, Served,
        OwnedBlocks, Chunks, Touched, NotesAfter;
      ok, mem := true, 0;
      match r
      case Malloc(bytes, direct, mp) =>
        if bytes < WORD_MODULUS {
          ok, mem := DoMalloc(bytes, direct, mp);
        }
      case Free(old_, refuse) =>
        if old_ == 0 || (old_ >= 16 && old_ - 16 in owned) {
          ok := DoFree(old_, refuse);
        }
      case Realloc(old_, bytes, direct, mp, refuse) =>
        if bytes < WORD_MODULUS && old_ == 0 {
          ok, mem := DoReallocNull(bytes, direct, mp, refuse);
        } else if bytes < WORD_MODULUS && old_ >= 16 && old_ - 16 in owned {
          ok, mem := DoRealloc(old_, bytes, direct, mp, refuse);
        }
      case Memalign(alignment, bytes, direct, mp) =>
        if bytes < WORD_MODULUS && alignment <= 0x8000_0000_0000_0000 {
          ok, mem := DoMemalign(alignment, bytes, direct, mp);
        }
      case Trim(pad, refuse) =>
        ok := DoTrim(pad, refuse);
      case BulkFree(mems, refuse) =>
        if OwnedBlocks(mems, owned) {
          ok := DoBulkFree(mems, refuse);
        }
      case Write(at, offset, value) =>
        if at >= 16 && at - 16 in owned {
          OldSize(m.S(), at - 16);
          if offset < SizeOf(m.HeadOf(at - 16)) - (if IsMmapped(m.HeadOf(at - 16)) then 16 else 8) {
            DoWrite(at, offset, value);
          }
        }
    }

    /** Any run of requests: no check ever fails, every request does what it is for, the heap stays in order, and
        every word written stays until its block is freed or resized. `moments` are those between the requests. */
    method Run(requests: seq<Request>) returns (ok: bool, answers: seq<Addr>, ghost moments: seq<Moment>)
      requires Valid()
      modifies this, m, m.small, m.trees
      ensures ok && Valid() && |answers| == |requests| && Happened(requests, answers, moments)
      ensures moments[0] == old(Now()) && moments[|requests|] == Now()
    {
      hide Valid, Now, InOrder, Outcome;
      ok, answers, moments := true, [], [Now()];
      StartsInOrder();
      for i := 0 to |requests|
        invariant ok && Valid() && |answers| == i && Happened(requests[..i], answers, moments)
        invariant moments[0] == old(Now()) && moments[i] == Now()
      {
        var mem;
        ok, mem := Serve(requests[i]);
        StartsInOrder();
        OneMore(requests[..i], answers, moments, requests[i], mem, Now());
        answers, moments := answers + [mem], moments + [Now()];
        assert requests[..i + 1] == requests[..i] + [requests[i]];
      }
      assert requests[..|requests|] == requests;
    }

    lemma StartsInOrder()
      requires Valid()
      ensures InOrder(Now())
    {
    }
  }

  /** A block that holds as many bytes may be written to at each of them. */
  lemma AllWritable(st: State, owned: set<Addr>, mem: Addr, bytes: nat, offset: nat, value: nat)
    requires mem >= 16 && mem - 16 in owned && Promises.Holds(st, mem - 16, bytes) && offset < bytes
    ensures Allowed(Write(mem, offset, value), owned, st)
  {
  }

  /** A request that leaves the block and the word alone */
  predicate Leaves(r: Request, mem: Addr, block: Addr, w: Addr)
  {
    block !in Touched(r, mem) && (r.Write? ==> r.mem + r.offset != w)
  }

  /** What a client has written into a block is still there, however many requests later, as long as the block is
      neither freed nor resized and the word is not written again. All that time no link of a bin and no field of
      a segment record is in its place. */
  lemma WordStays(requests: seq<Request>, answers: seq<Addr>, moments: seq<Moment>, i: nat, j: nat)
    requires Happened(requests, answers, moments) && i < j <= |requests|
    requires requests[i].Write? && Allowed(requests[i], moments[i].owned, moments[i].st)
    requires forall k | i < k < j ::
             Leaves(requests[k], answers[k], requests[i].mem - 16, requests[i].mem + requests[i].offset)
    ensures var w := requests[i].mem + requests[i].offset;
            forall k: nat | i < k <= j ::
              moments[k].st.tags.W(w) == requests[i].value && !LinkWord(moments[k].st, {}, w)
  {
    hide Inv, InPayload, Served, Touched, OwnedBlocks, LinkWord;
    var w := requests[i].mem + requests[i].offset;
    forall k: nat | i < k <= j ensures moments[k].st.tags.W(w) == requests[i].value && !LinkWord(moments[k].st, {}, w) {
      NoteStays(requests, answers, moments, i, k);
      assert InOrder(moments[k]);
      assert NoteOK(moments[k].st, moments[k].owned, moments[k].notes, w);
      NotedApart(moments[k], w);
    }
  }

  lemma NotedApart(b: Moment, w: Addr)
    requires InOrder(b) && w in b.notes
    ensures !LinkWord(b.st, {}, w)
  {
    hide Inv, InPayload, LinkWord;
    assert NoteOK(b.st, b.owned, b.notes, w);
    if LinkWord(b.st, {}, w) {
      LinksApart(b.st, {}, {}, b.notes[w].block, w);
    }
  }

  lemma {:induction false} NoteStays(requests: seq<Request>, answers: seq<Addr>, moments: seq<Moment>, i: nat, j: nat)
    requires Happened(requests, answers, moments) && i < j <= |requests|
    requires requests[i].Write? && Allowed(requests[i], moments[i].owned, moments[i].st)
    requires forall k | i < k < j ::
             Leaves(requests[k], answers[k], requests[i].mem - 16, requests[i].mem + requests[i].offset)
    ensures var w := requests[i].mem + requests[i].offset;
            w in moments[j].notes && moments[j].notes[w] == Note(requests[i].mem - 16, requests[i].value)
    decreases j
  {
    hide InOrder, Served, Touched, OwnedBlocks, Usable;
    assert Turn(requests, answers, moments, j - 1);
    if i < j - 1 {
      NoteStays(requests, answers, moments, i, j - 1);
      assert Leaves(requests[j - 1], answers[j - 1], requests[i].mem - 16, requests[i].mem + requests[i].offset);
    }
  }

  /** A new block, or none */
  lemma Got(b: Moment, st': State, r: Request, mem: Addr)
    requires (r.Malloc? || r.Memalign? || (r.Realloc? && r.mem == 0)) && Allowed(r, b.owned, b.st)
    requires Served(r, b.st, st', mem) && (mem == 0 || mem >= 16)
    ensures if mem == 0 then Outcome(r, b, Moment(st', b.owned, b.notes), 0)
            else Outcome(r, b, Moment(st', b.owned + {mem - 16}, Without(b.notes, {mem - 16})), mem)
  {
    hide Served, Without;
    NoneTouched(b.notes, b.owned);
    if mem != 0 {
      assert b.owned - {mem - 16} + {mem - 16} == b.owned + {mem - 16};
    }
  }

  lemma PowerFound(st: State, st': State, bytes: nat, alignment: nat, a: nat, k: nat, mem: Addr)
    requires A.LeastPower(a, k, alignment) && HeapAligns(st, st', bytes, a, mem) && (mem != 0 ==> mem % a == 0)
    ensures exists c: nat, j: nat ::
              A.LeastPower(c, j, alignment) && mem % c == 0 && HeapAligns(st, st', bytes, c, mem)
  {
    hide HeapAligns;
    assert a > 0;
    assert A.LeastPower(a, k, alignment) && mem % a == 0;
  }

  /** What reallocation comes to for the client */
  lemma Resized(b: Moment, st': State, r: Request, mem: Addr)
    requires r.Realloc? && r.mem >= 16 && Allowed(r, b.owned, b.st)
    requires (mem == 0 || (mem >= 16 && r.bytes < MAX_REQUEST))
    requires mem == 0 ==> st' == b.st
    requires HeapResize(b.st, st', r.bytes, r.mem, mem)
    requires mem != 0 && mem == r.mem ==>
               if r.mem - 16 in b.st.maps then st' == b.st else InPlace(b.st, st', r.mem - 16, RequestSize(r.bytes))
    requires mem != 0 && mem != r.mem ==> MovedTo(b.st, st', r.mem - 16, mem - 16, r.bytes, r.refuse)
    ensures var p, q := r.mem - 16, if mem >= 16 then mem - 16 else 0;
            if mem == 0 then Outcome(r, b, b, 0)
            else if mem == r.mem then Outcome(r, b, Moment(st', b.owned, Without(b.notes, {p})), mem)
            else Outcome(r, b, Moment(st', b.owned - {p} + {q}, Without(b.notes, {p, q})), mem)
  {
    hide InPlace, MovedTo, Without, HeapResize;
    NoneTouched(b.notes, b.owned);
    var p, q := r.mem - 16, if mem >= 16 then mem - 16 else 0;
    assert {p, p} == {p} && b.owned - {p} + {p} == b.owned && b.owned - {p, q} + {q} == b.owned - {p} + {q};
  }

  lemma BulkFreed(b: Moment, st': State, mems: seq<Addr>, refuse: set<Addr>)
    requires OwnedBlocks(mems, b.owned) && Progress(b.st, st', [], Chunks(mems), refuse)
    ensures Outcome(BulkFree(mems, refuse), b, Moment(st', b.owned - Chunks(mems), Without(b.notes, Chunks(mems))), 0)
  {
    hide OwnedBlocks, Progress, Chunks, Without;
  }

  /** The heap is in order, and what was written is there. */
  ghost predicate InOrder(b: Moment)
  {
    Inv(b.st, {}, {}) && b.owned <= b.st.live + b.st.maps.Keys && Intact(b.st, b.owned, b.notes)
  }

  /** Every request leads from one moment to the next, and all of them are in order. */
  ghost predicate Happened(requests: seq<Request>, answers: seq<Addr>, moments: seq<Moment>)
  {
    && |answers| == |requests| && |moments| == |requests| + 1
    && (forall i: nat {:trigger InOrder(moments[i])} | i < |moments| :: InOrder(moments[i]))
    && forall i: nat {:trigger Turn(requests, answers, moments, i)} | i < |requests| ::
       Turn(requests, answers, moments, i)
  }

  ghost predicate Turn(requests: seq<Request>, answers: seq<Addr>, moments: seq<Moment>, i: nat)
    requires i < |requests| == |answers| && |moments| == |requests| + 1
  {
    Outcome(requests[i], moments[i], moments[i + 1], answers[i])
  }

  lemma OneMore(requests: seq<Request>, answers: seq<Addr>, moments: seq<Moment>, r: Request, mem: Addr, e: Moment)
    requires Happened(requests, answers, moments) && InOrder(e) && Outcome(r, moments[|requests|], e, mem)
    ensures Happened(requests + [r], answers + [mem], moments + [e])
  {
    hide InOrder, Outcome;
    var rs, as_, ms := requests + [r], answers + [mem], moments + [e];
    forall i: nat | i < |ms| ensures InOrder(ms[i]) {
      if i < |moments| {
        assert ms[i] == moments[i];
      }
    }
    forall i: nat | i < |rs| ensures Turn(rs, as_, ms, i) {
      if i < |requests| {
        assert Turn(requests, answers, moments, i);
      }
    }
  }

  /** Pointers to different blocks of the client, and null pointers */
  predicate OwnedBlocks(s: seq<Addr>, owned: set<Addr>)
  {
    s == [] || (OwnedBlocks(s[1..], owned)
      && (s[0] == 0 || (s[0] >= 16 && Chunk(s[0]) in owned && Chunk(s[0]) !in Chunks(s[1..]))))
  }

  lemma {:induction false} OwnedAre(s: seq<Addr>, owned: set<Addr>, live: set<Addr>, maps: map<Addr, Mapping>)
    requires OwnedBlocks(s, owned) && owned <= live + maps.Keys
    ensures Owned(s, live, maps) && Chunks(s) <= owned
    decreases |s|
  {
    if s != [] {
      OwnedAre(s[1..], owned, live, maps);
    }
  }

  /** The client's blocks know whether they are mapped, and with what. */
  lemma MappedOnes(st: State, D: set<Addr>)
    requires Inv(st, {}, {}) && D <= st.live + st.maps.Keys
    ensures forall p | p in D :: IsMmapped(st.tags.HeadOf(p)) <==> p in st.maps
    ensures forall p | p in D && p in st.maps :: p >= st.tags.W(p) && st.maps[p].base == p - st.tags.W(p)
  {
    hide Inv, IsMmapped;
    forall p | p in D
      ensures (IsMmapped(st.tags.HeadOf(p)) <==> p in st.maps)
      && (p in st.maps ==> p >= st.tags.W(p) && st.maps[p].base == p - st.tags.W(p)) {
      NextWords(st, p);
      if p in st.maps {
        MappedWords(st, p);
      }
    }
  }

  lemma BulkFacts(st: State, st': State, D: set<Addr>, refuse: set<Addr>)
    requires Progress(st, st', [], D, refuse) && D <= st.live + st.maps.Keys
    ensures OthersKept(st, st', D)
    ensures st'.live + st'.maps.Keys == (st.live + st.maps.Keys - D)
            + (set p | p in D && p in st.maps && st.maps[p].base in refuse)
  {
    assert D - Chunks([]) == D;
  }

  lemma ReallocInPlace(st: State, st': State, p: Addr, bytes: nat)
    requires (if p in st.maps then st' == st else InPlace(st, st', p, RequestSize(bytes))) && Inv(st, {}, {})
    ensures OthersKept(st, st', {p}) && st'.live == st.live && st'.maps == st.maps
  {
    hide Inv;
    KeptSelf(st, {p});
    hide BlockKept;
  }

  lemma MovedFacts(st: State, st': State, p: Addr, q: Addr, bytes: nat, refuse: set<Addr>)
    requires MovedTo(st, st', p, q, bytes, refuse)
    ensures OthersKept(st, st', {p, q}) && q !in st.live && q !in st.maps
    ensures st'.live + st'.maps.Keys == (st.live + st.maps.Keys + {q})
            - (if p in st.maps && st.maps[p].base in refuse then {} else {p})
  {
    hide OthersKept;
  }

  lemma AlignedFacts(st: State, st': State, p: Addr, nb: nat)
    requires AlignedOut(st, st', p, nb)
    ensures OthersKept(st, st', {p}) && st'.live + st'.maps.Keys == st.live + st.maps.Keys + {p}
  {
    hide OthersKept;
  }

  /** The rounded alignment is unique, so the answers for one serve for all. */
  lemma OnlyAnswer(st: State, a: nat, k: nat, alignment: nat, bytes: nat, d: Addr, b: Addr)
    requires A.LeastPower(a, k, alignment) && bytes < WORD_MODULUS
    requires AskFor(a, bytes) < WORD_MODULUS ==>
               Answer(st, d, MmapSize(ChunkSizeFor(AskFor(a, bytes))))
               && Answer(st, b, SegmentSize(ChunkSizeFor(AskFor(a, bytes))))
    ensures forall c: nat, j: nat {:trigger A.LeastPower(c, j, alignment)} | A.LeastPower(c, j, alignment) ::
              c == a && (AskFor(c, bytes) < WORD_MODULUS ==>
                Answer(st, d, MmapSize(ChunkSizeFor(AskFor(c, bytes))))
                  && Answer(st, b, SegmentSize(ChunkSizeFor(AskFor(c, bytes)))))
  {
    hide Answer, ChunkSizeFor, MmapSize, SegmentSize;
    forall c: nat, j: nat | A.LeastPower(c, j, alignment) ensures c == a {
      assert a <= c && c <= a;
    }
  }

  lemma WriteNoted(st: State, st': State, owned: set<Addr>, notes: Notes, p: Addr, w: Addr, value: nat)
    requires Intact(st, owned, notes) && p in owned && InPayload(st, p, w) && st' == Stored(st, w, value)
    requires Inv(st, {}, {})
    ensures Intact(st', owned, notes[w := Note(p, value)])
  {
    hide Inv, BlockKept, UsableEnd;
    var notes' := notes[w := Note(p, value)];
    StoreKeeps(st, p, w, value);
    forall x | x in notes' ensures NoteOK(st', owned, notes', x) {
      if x != w {
        assert NoteOK(st, owned, notes, x);
        StoredEnds(st, w, value, p, notes[x].block);
      } else {
        StoredEnds(st, w, value, p, p);
      }
    }
  }

  /** Writing into one block does not change how much of any block may be used. */
  lemma StoredEnds(st: State, w: Addr, value: nat, p: Addr, q: Addr)
    requires InPayload(st, p, w) && (q in st.live || q in st.maps) && Inv(st, {}, {})
    ensures UsableEnd(Stored(st, w, value), q) == UsableEnd(st, q)
  {
    hide Inv, BlockKept;
    if q != p {
      StoreKeeps(st, p, w, value);
      UsableKept(st, Stored(st, w, value), q);
    }
  }
}
