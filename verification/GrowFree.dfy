/** A block grows over free chunks and leaves the rest of them free. */
module GrowFree {
  import opened Words
  import opened BoundaryTags
  import opened Retiling
  import opened HeapState
  import opened HeapSteps
  import opened HeapOps
  import opened HeapOps2

  /** `p` takes [p, r); the rest of [p, b) is one free chunk that is not dv. */
  function GrownLoose(st: State, p: Addr, r: Addr, b: Addr, X: set<Addr>): State
    requires p <= r <= b && (r - p) % 16 == 0 && (b - r) % 16 == 0
  {
    var h := st.tags;
    TwoIn(st, p, r, b, X,
      h.mem[p + 8 := Head(r - p, true, Pin(h.HeadOf(p)))][r + 8 := Head(b - r, false, true)][b := b - r]
        [b + 8 := ClearPin(h.HeadOf(b))], false)
  }

  lemma GrowIntoLoose(st: State, k: nat, p: Addr, r: Addr, b: Addr, X: set<Addr>, L: set<Addr>, Y: set<Addr>,
      st': State)
    requires p + MIN_CHUNK_SIZE <= r && r + MIN_CHUNK_SIZE <= b && (r - p) % 16 == 0 && (b - r) % 16 == 0
    requires st' == GrownLoose(st, p, r, b, X)
    requires b in st.tags.ch && b in st.tags.used && st.tags.top !in X && OnlyUsed(st, X, p) && p in st.live
    requires st.dv !in X
    requires Taken(st, k, p, b, X) && Inv(st, L, Y)
    ensures Inv(st', L - X + {r}, Y) && IsFree(st'.tags, st'.dv, r)
    ensures forall q | q != p :: BlockKept(st, st', q)
    ensures p in st'.tags.ch && forall n: nat | n <= r - p && p + n + 8 <= b :: SameBlock(st.tags, st'.tags, p, n)
  {
    hide OK, MapsOK, FootprintOK, LeastOK, SegsOK, BlockKept, SizeOf, Pin, Cin, TwoChunks, BinsMatch, Records;
    var h := st.tags;
    NotFence(st, L, Y, b);
    ChunkFactsAt(st, L, Y, b);
    NewPlace(st, k, p, r, b, X, L, Y);
    RegionAligned(h, p, b, X);
    assert TwoChunks(h, st'.tags, p, r, b, X, true, false) by {
      GrowDvTags(h, p, r, b, X, st'.tags);
    }
    TakenNoBlocks(st, k, p, b, X, p, L, Y);
    UsedOnce(st, L, Y, p);
    hide Taken;
    GrowLooseRest(st, p, r, b, X, L, Y, st');
    StepTwo(st, st', k, p, r, b, X, true, false, L, L - X + {r}, Y, Y);
    forall q | q != p ensures BlockKept(st, st', q) {
      if q in X {
        NotABlock(st, st', L, Y, q);
      }
    }
  }

  lemma GrowLooseRest(st: State, p: Addr, r: Addr, b: Addr, X: set<Addr>, L: set<Addr>, Y: set<Addr>, st': State)
    requires p < r < b && (r - p) % 16 == 0 && (b - r) % 16 == 0 && st' == GrownLoose(st, p, r, b, X)
    requires st.tags.top !in X && OnlyUsed(st, X, p)
    requires p in st.live && st.dv !in X && (forall x | x in X && x != p :: x !in st.live && x !in Y)
    requires r != st.tags.top
    requires (r in st.live || r in Records(st.segs) || r in Y ==> r in X) && (r in st.tags.ch || r == st.dv ==> r in X)
    requires Inv(st, L, Y)
    ensures SameRest(st, st') && NextLoose(st, st', X, {p, r}, L, L - X + {r}) && DvTopOK(st') && UsedOK(st', Y)
    ensures IsFree(st'.tags, st'.dv, r)
  {
    hide OK, MapsOK, FootprintOK, LeastOK, SegsOK, BinsMatch, Records;
    UsedOnce(st, L, Y, p);
    RestUnused(st, r, X, L, Y, p);
  }

  lemma RestUnused(st: State, r: Addr, X: set<Addr>, L: set<Addr>, Y: set<Addr>, p: Addr)
    requires (r in st.tags.ch ==> r in X) && r != p && OnlyUsed(st, X, p) && Inv(st, L, Y)
    ensures r !in st.tags.used
  {
    hide MapsOK, FootprintOK, LeastOK, SegsOK, BinsMatch, Records;
    UsedAreChunks(st, L, Y);
  }
}
