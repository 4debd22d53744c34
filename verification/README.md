# Memory management of Vineyard, verified

A Dafny model of the memory-management stack of the kernel, from the allocator down to the physical pages, and of
the conversions of `vcbprintf`. `dafny verify dfyconfig.toml` checks all of it.

**The allocator** (`lib/stdlib/dlmalloc.c`, as configured in `kernel/include/mm/malloc.h`: mmap only, no footers,
16-byte alignment, 64 KiB granularity, runtime checks on). Memory is a map from addresses to words; heads, `prev_foot`
words and the clients' contents are all words of it. `HeapState.Inv` is the invariant that the file writes down as
`do_check_malloc_state`: chunks tile each segment, sizes agree with the `PINUSE`/`CINUSE` bits and `prev_foot` words
of the neighbours, no two free chunks are neighbours, every free chunk but `dv` and top is in the one bin for its size,
mapped chunks know their mappings, the footprint is the sum of all of it. `MallocState.MState` is `struct malloc_state`; every
operation is a method that changes it as the code does, and every method proves that no corruption or usage error
action is reached (`ok`). The layout of the chunks is a ghost record, which every write keeps up to date.

- `Bits`, `TreeIndex`, `BinMap`: the index and bitmap macros.
- `TriePath`, `Trie`, `Rings`, `TreeBins`, `TreeSearch`: the tree bins. `SmallBins`: the small bins.
- `Words`, `BoundaryTags`, `Retiling`, `HeapState`, `HeapSteps`, `HeapOps`, `HeapOps2`, `GrowFree`, `HeapBins`: the heap as a
  value, and what each kind of step does to it.
- `MallocState`, `HandOut`, `Requests`, `TreeMalloc`, `Exhaustion`, `Malloc`: allocation. `Promises`: what allocation and
  resizing promise, in plain numbers of bytes. `SegmentOps`, `SegmentGrow`,
  `SegmentFront`, `SegmentNew`, `SegmentDrop`, `Prepend`, `SystemAlloc`: memory from the system.
- `Consolidate`, `Dispose`, `Trim`, `Freeing`: giving back. `Payload`, `Realloc`, `Alignment`, `Memalign`, `BulkFree`: what is built on top.
- `HeapFacts`: what the invariant means. `ClientRun`: whole runs of a client that passes only pointers it owns.

**The kernel.** `Physical` is the chain of page-sized stacks, `PageTables` the four-level tables as the processor reads
them (4-level paging, section 4.5 of the Intel SDM, Volume 3A), `Virtual` the code that reaches them through slot 510, `VmList` the list of
address ranges, `Mmap` what joins the three, `Slab` the slab for the list's nodes.

**Printing.** `Printf` is the conversion of integers, `PrintfFormat` the format string and the whole call, `PrintfLaws` what each
conversion specification emits.

Where the code does not do what its surroundings expect of it, the model keeps the code, and says exactly when it does:

- The tree index is computed in 32 bits: it is right exactly below 2^40 or where the cut value still selects the last bin (`TreeIndexExact`, `TreeIndexWraps`).
- A segment that was sealed with a top of 16 bytes is never released, although all of it may be free: the record is then not where
  the test of `release_unused_segments` expects it (`TestExact`, `SealedTest`, `MissedStays`).
- The loop that rounds an alignment up ends exactly for alignments up to 2^63 (`DoublingReaches`).
- A set range keeps the tiling exactly if it does not wrap around (`SetTiles`, `WrappingBreaks`).
- `munmap` finds the frames of a region exactly if it was mapped with `PROT_READ` (`FlagsFacts`, `FramesOwned`); of other regions
  it marks page 0 free for each page and keeps the frames (`Memory.Unmap`).
- `mmap` without a free range takes frames and maps them from address 0 on, in no region (`Memory.Map`).
- The digits fit `buf[21]` in base 8 exactly below 2^60 (`BufferFits`); the prefix fits `prefix[3]` exactly if a sign and `0x` do not come together (`PrefixFits`);
  padding is right exactly if it is not on both sides (`EmittedLength`); the count that is returned leaves out padding, prefixes and
  the zeros of the precision (`CountExact`).

## Model

| member | source | states |
|---|---|---|
| TreeIndex.TreeIndexRange | lib/stdlib/dlmalloc.c:1406-1417 | below 2^40 the index is that of the bin whose size range holds the size |
| TreeIndex.TreeIndexUnique | lib/stdlib/dlmalloc.c:1478-1480 | and no other bin's range does, the last one being open |
| TreeIndex.TreeIndexMono | lib/stdlib/dlmalloc.c:1406-1417 | larger sizes have no smaller index |
| TreeIndex.TreeIndexExact | lib/stdlib/dlmalloc.c:1408 | for all 64-bit sizes, exactly when the 32-bit `X` gives the right bin |
| TreeIndex.TreeIndexWraps | lib/stdlib/dlmalloc.c:1408 | a size of 2^40 is put in bin 0 |
| TriePath.SignIsDir | lib/stdlib/dlmalloc.c:1473-1475 | after d shifts the register's sign bit is the d-th bit in which sizes of the bin can differ |
| TriePath.SameBinSamePrefix | lib/stdlib/dlmalloc.c:1473-1475 | sizes of one bin agree on all bits before the first of these |
| TriePath.DepthBound | lib/stdlib/dlmalloc.c:2231-2236 | different sizes that agree so far leave a bit to look at, so the descent is bounded by the bin's bits |
| BinMap.ZeroUnmarked | lib/stdlib/dlmalloc.c:1486-1495 | a map is zero if and only if no bin is marked |
| BinMap.LeastBitIsLowest | lib/stdlib/dlmalloc.c:1498 | `least_bit` keeps the lowest mark and nothing else |
| BinMap.LeftBitsAbove | lib/stdlib/dlmalloc.c:1501 | `left_bits` of a bin's bit selects exactly the bins above it |
| BinMap.LeastBitIndex | lib/stdlib/dlmalloc.c:1509-1514 | counting trailing zeros is the same with and without `least_bit` |
| BinMap.ShiftedLowBits | lib/stdlib/dlmalloc.c:3148-3152 | the two low bits of the shifted map are the marks of the request's bin and the next |
| BinMap.ShiftedBack | lib/stdlib/dlmalloc.c:3168 | shifting down and up again clears exactly the bins below |
| Trie.Descend | lib/stdlib/dlmalloc.c:1869-1918 | what lies under a node is the node, or lies under the child on the side that its size says |
| Trie.Replace | lib/stdlib/dlmalloc.c:2314-2352 | a leaf of the subtree put in a node's place keeps the trie |
| Trie.CutLeaf | lib/stdlib/dlmalloc.c:2303-2308 | cutting off a leaf keeps the trie |
| Rings.ReachesHead | lib/stdlib/dlmalloc.c:1883-1897 | all chunks of one size are on one ring: from each, `fd` leads to the one with a parent |
| Rings.Leave | lib/stdlib/dlmalloc.c:2287-2293 | linking a chunk out keeps the rings, also if the head is replaced by the chunk before it |
| TreeBins.TreeBins.Insert | lib/stdlib/dlmalloc.c:2216-2265 | reports no corruption, keeps trie, rings and map, and adds exactly the chunk with its size |
| TreeBins.TreeBins.Unlink | lib/stdlib/dlmalloc.c:2284-2353 | in all its cases the same, and removes exactly the chunk |
| TreeBins.TreeBins.RightmostLeaf | lib/stdlib/dlmalloc.c:2300-2306 | ends at a leaf below the chunk, with the slot that holds it |
| TreeBins.TreeBins.UnlinkMember | lib/stdlib/dlmalloc.c:2287-2297 | a chunk that shares its size with others is removed, its ring closes, a head is succeeded |
| TreeBins.TreeBins.UnlinkOnly | lib/stdlib/dlmalloc.c:2298-2313 | the only chunk of its size is removed, a leaf or nothing taking its place |
| TreeBins.TreeBins.TakePlace | lib/stdlib/dlmalloc.c:2314-2352 | the slot above, the parent link and both children pass to the replacement; the map bit goes with the last chunk of a bin |
| TreeSearch.WrapNeverBetter | lib/stdlib/dlmalloc.c:3014-3019 | the remainder of a chunk that is too small wraps around and never beats the best so far |
| TreeSearch.LeftmostCovers | lib/stdlib/dlmalloc.c:3041-3048 | once a node has been looked at, the subtree of its leftmost child holds the least of the rest |
| TreeSearch.SearchBin | lib/stdlib/dlmalloc.c:3008-3030 | the deepest right subtree left aside, or the best chunk seen, covers the request's bin |
| TreeSearch.NextBin | lib/stdlib/dlmalloc.c:3031-3039 | otherwise the lowest non-empty bin above covers all bins |
| TreeSearch.ScanLeftmost | lib/stdlib/dlmalloc.c:3041-3048 | the loop down the leftmost path finds the least fitting chunk of all |
| TreeSearch.FindLeast | lib/stdlib/dlmalloc.c:3003-3048 | the chunk found has the least size of all tree chunks that hold the request; none is found if and only if none does |
| TreeSearch.FindSmallest | lib/stdlib/dlmalloc.c:3074-3088 | the chunk found is a least one of all tree chunks |
| SmallBins.ReachesLast | lib/stdlib/dlmalloc.c:1931-1952 | from every chunk of a small bin `fd` leads to the last one before the header: each bin is one list |
| SmallBins.RemoveLastKeeps | lib/stdlib/dlmalloc.c:2165-2167 | only the bit tells that a bin is empty: clearing it is enough, the header's links may stay |
| SmallBins.SmallBins.Insert | lib/stdlib/dlmalloc.c:2138-2154 | no corruption is reported, exactly the chunk is added |
| SmallBins.SmallBins.Unlink | lib/stdlib/dlmalloc.c:2157-2180 | no corruption is reported, exactly the chunk is removed |
| SmallBins.SmallBins.UnlinkFirst | lib/stdlib/dlmalloc.c:2183-2198 | of a marked bin, removes and returns a chunk of that bin's size |
| BoundaryTags.Retile | lib/stdlib/dlmalloc.c:1832-1853 | replacing the chunks of a stretch of memory by others that agree at its ends keeps all boundary tags |
| Retiling.ToOne | lib/stdlib/dlmalloc.c:1622-1633 | a run of chunks may become one chunk, in use or free |
| Retiling.ToTwo | lib/stdlib/dlmalloc.c:1622-1633 | or two, not both free |
| HeapSteps.Step | lib/stdlib/dlmalloc.c:2023-2049 | a step that changes only the chunks of one stretch keeps the whole invariant and the contents of all other blocks |
| HeapOps.GiveWhole | lib/stdlib/dlmalloc.c:3215-3220 | handing out a free chunk as a whole keeps invariant and blocks |
| HeapOps.GiveFront | lib/stdlib/dlmalloc.c:3209-3214 | so does handing out its front |
| HeapOps.GiveTop | lib/stdlib/dlmalloc.c:3226-3236 | and the front of top |
| HeapOps2.MakeFree | lib/stdlib/dlmalloc.c:2978-2992 | a run with one chunk in use becomes one free chunk |
| HeapOps2.MakeTop | lib/stdlib/dlmalloc.c:2962-2971 | or is joined to top |
| HeapOps2.CutUsed | lib/stdlib/dlmalloc.c:3391-3396 | a block, perhaps grown, is cut in two: its contents up to the cut stay |
| HeapOps2.GrowIntoDv | lib/stdlib/dlmalloc.c:3415-3423 | a block grows into dv and keeps its contents |
| HeapOps2.GrowIntoTop | lib/stdlib/dlmalloc.c:3400-3409 | or into top |
| GrowFree.GrowIntoLoose | lib/stdlib/dlmalloc.c:3433-3449 | or into a free chunk, the rest of which is free |
| HeapBins.ChunkBelowLimit | lib/stdlib/dlmalloc.c:1408 | below the footprint's limit no chunk is so large that its tree index would be wrong |
| MallocState.InsertChunk | lib/stdlib/dlmalloc.c:2357-2359 | a free chunk goes to the bin for its size, nothing else changes |
| MallocState.UnlinkChunk | lib/stdlib/dlmalloc.c:2361-2363 | and out of it |
| MallocState.ReplaceDv | lib/stdlib/dlmalloc.c:2202-2211 | the old dv goes to its small bin, the new one is dv |
| Requests.RequestFits | kernel/include/mm/dlmalloc.h:617-675 | a padded request is a multiple of 16, holds the bytes and one word, and wastes less than 24 bytes or is minimal; the small requests are those below 256 |
| Requests.AlignedEnough | lib/stdlib/dlmalloc.c:2395-2401 | a rounded size that is larger than the request has not wrapped around and has room for the padding |
| SegmentOps.MapNew | lib/stdlib/dlmalloc.c:2402-2416 | a chunk mapped for itself keeps the invariant, the footprint included, and all blocks |
| SegmentOps.UnmapOne | lib/stdlib/dlmalloc.c:2936-2941 | so does unmapping one |
| SegmentOps.ShiftMapped | lib/stdlib/dlmalloc.c:3498-3501 | and moving its start inside its mapping, which stays known by the words |
| SegmentGrow.FirstSegment | lib/stdlib/dlmalloc.c:2744-2757 | the first segment is tiled by top |
| SegmentGrow.ResizeTop | lib/stdlib/dlmalloc.c:2771-2777 | the segment with top grows or shrinks at its end |
| SegmentFront.AddFront | lib/stdlib/dlmalloc.c:2784-2791 | a segment grows at its front, by a chunk in use |
| SegmentNew.AddSegment | lib/stdlib/dlmalloc.c:2550-2600 | the old segment is sealed with its record and fenceposts, the new one is tiled by top |
| SegmentDrop.DropSegment | lib/stdlib/dlmalloc.c:2830-2846 | a segment that is free as a whole goes with its record and fenceposts |
| Prepend.PrependAlloc | lib/stdlib/dlmalloc.c:2508-2547 | hands out the front of new memory before a segment, the rest joins the segment's first chunk if that is free |
| SystemAlloc.MmapAlloc | lib/stdlib/dlmalloc.c:2394-2423 | maps a chunk for itself if and only if the size does not wrap, the limit allows it and the system gives memory |
| SystemAlloc.AddSegmentTo | lib/stdlib/dlmalloc.c:2550-2600 | no block changes, top is the new memory |
| SystemAlloc.Append | lib/stdlib/dlmalloc.c:2771-2777 | no block changes, top grows |
| SystemAlloc.SysAlloc | lib/stdlib/dlmalloc.c:2605-2811 | gives a chunk of the right size whenever the system gives memory within the limit, or changes nothing; the chunk is mapped for itself if and only if the request is large, there is a segment and its own mapping is given; other memory extends the segment that it touches or is a new one |
| TreeMalloc.TmallocLarge | lib/stdlib/dlmalloc.c:3002-3070 | hands out a least tree chunk that holds the request and is tighter than dv; 0 exactly if there is none |
| TreeMalloc.TmallocSmall | lib/stdlib/dlmalloc.c:3073-3108 | hands out a least chunk of all tree bins |
| Exhaustion.SmallerBins | lib/stdlib/dlmalloc.c:3148-3164 | if no small bin from the request's on is marked, all chunks in small bins are smaller than the request |
| Exhaustion.NothingLeft | lib/stdlib/dlmalloc.c:3206-3238 | if no bin, dv or top serves, no free chunk of the whole heap does |
| Malloc.NextSmallBin | lib/stdlib/dlmalloc.c:3168-3170 | the bin found is the lowest marked one above |
| Malloc.SmallRequest | lib/stdlib/dlmalloc.c:3143-3194 | a small request is served from the bins, or the bins cannot serve it unless dv can |
| Malloc.TakeDv | lib/stdlib/dlmalloc.c:3206-3224 | dv serves the request: a new block of the right size or less than 32 bytes more |
| Malloc.Dlmalloc | lib/stdlib/dlmalloc.c:3112-3246 | below 2^64 - 128 bytes it is null only if no free chunk holds the bytes and 8 more, top does not hold 24 more, and the system does not give 128 more in units of 64 KiB; what the heap can serve comes from the chunk that fits best by the rules for small and large requests; a block has room for the bytes and, unless mapped for itself, less than 56 to spare or less than 64 in all; no other block changes, and with null nothing does |
| Consolidate.JoinsTop | lib/stdlib/dlmalloc.c:2962-2971 | a chunk given back in front of top joins it |
| Consolidate.JoinsFree | lib/stdlib/dlmalloc.c:2972-2987 | in front of a free chunk, they become one, dv if one of them was |
| Consolidate.JoinsNone | lib/stdlib/dlmalloc.c:2989-2992 | otherwise it is free by itself or with the one before it |
| Dispose.GiveBack | lib/stdlib/dlmalloc.c:2931-2997 | exactly the chunk stops being in use, all is coalesced and binned again, no block changes |
| Trim.TestExact | lib/stdlib/dlmalloc.c:2830 | of the segments that are free as a whole, the test finds exactly those whose record lies at the segment's end |
| Trim.SealedTest | lib/stdlib/dlmalloc.c:2552-2558 | the record lies there if and only if the segment was sealed with a top that could hold a chunk; with a top of 16 bytes it takes top's place |
| Trim.MissedStays | lib/stdlib/dlmalloc.c:2816-2861 | a heap with a segment that is free as a whole and stays |
| Trim.ReleaseUnusedSegments | lib/stdlib/dlmalloc.c:2816-2861 | exactly the segments go that are free as a whole, were sealed with a top of at least 32 bytes, and that the system unmaps; the others stay in their order; the footprint falls by what is released; no block changes |
| Trim.TrimTop | lib/stdlib/dlmalloc.c:2869-2914 | top gives up a multiple of 64 KiB so that, unless the system refuses, 1 to 65536 bytes are left beyond the pad and its foot |
| Trim.SysTrim | lib/stdlib/dlmalloc.c:2863-2926 | the same, then exactly the segments go that can |
| Trim.HasSegmentLink | lib/stdlib/dlmalloc.c:1280-1288 | no segment record ever lies in the segment with top |
| Trim.SegmentHoldingTop | lib/stdlib/dlmalloc.c:1269-1277 | top is always in the first segment |
| Freeing.MappedWords | lib/stdlib/dlmalloc.c:3273-3279 | the words of a mapped chunk give exactly the base and length of its mapping |
| Freeing.FreeMapped | lib/stdlib/dlmalloc.c:3273-3279 | freeing it unmaps just that, and the footprint falls by the length |
| Freeing.Dlfree | lib/stdlib/dlmalloc.c:3250-3357 | exactly the block is freed, the contents of all others stay, no error is reported; it joins what is free beside it, top is trimmed if it grows beyond the threshold, and every 4095th large chunk, or later if there are more segments, has segments released |
| Payload.StoreKeeps | lib/stdlib/dlmalloc.c:852-860 | a client may write every word of its block, the next chunk's `prev_foot` included, without changing any head, any `prev_foot` that counts, or a word of another block |
| Payload.LinksApart | lib/stdlib/dlmalloc.c:964-976 | no link of a binned chunk, of one about to be binned, and no field of a segment record is in the memory of any block, mapped or not |
| Realloc.MmapResize | lib/stdlib/dlmalloc.c:2426-2458 | a mapped chunk stays if and only if the request is large, it holds it, and it is not too large |
| Realloc.TryRealloc | lib/stdlib/dlmalloc.c:3379-3456 | a block is resized in place if and only if it, with the free memory right behind it, is large enough; it keeps its contents |
| Realloc.ExtendIntoTop | lib/stdlib/dlmalloc.c:3399-3410 | the path into top |
| Realloc.ExtendIntoDv | lib/stdlib/dlmalloc.c:3411-3432 | the path into dv |
| Realloc.ExtendIntoFree | lib/stdlib/dlmalloc.c:3433-3450 | the path into another free chunk |
| Realloc.Shrink | lib/stdlib/dlmalloc.c:3389-3398 | the path that gives a remainder back |
| Realloc.CopyBytes | lib/stdlib/dlmalloc.c:3789 | copying gives the new block the old one's first bytes and changes nothing else in memory |
| Realloc.BytesMoved | lib/stdlib/dlmalloc.c:3789 | byte by byte, as many as both blocks have |
| Realloc.Dlrealloc | lib/stdlib/dlmalloc.c:3753-3796 | it stays where it is if and only if it, with the free memory right behind it, holds the bytes; in place or moved, every byte up to the smaller size is kept, and all other blocks; null below 2^64 - 128 bytes only if neither the heap nor the system can serve the request, and then the old block is as it was |
| Alignment.PowerOfTwoTest | lib/stdlib/dlmalloc.c:3462 | `(a & (a-1)) == 0` holds exactly for powers of two |
| Alignment.HighMask | lib/stdlib/dlmalloc.c:3489-3491 | masking with `-a` rounds down to a multiple of a |
| Alignment.RoundAlignment | lib/stdlib/dlmalloc.c:3460-3466 | the alignment used is the least power of two from 32 on that is at least the one asked for |
| Alignment.DoublingReaches | lib/stdlib/dlmalloc.c:3464 | the doubling loop ends if and only if the alignment is at most 2^63 |
| Alignment.SpotAligned | lib/stdlib/dlmalloc.c:3489-3495 | the spot is aligned and leaves a leader of at least 32 bytes |
| Memalign.SpotRoom | lib/stdlib/dlmalloc.c:3489-3496 | and at least the request behind it |
| Memalign.MappedRoom | lib/stdlib/dlmalloc.c:3498-3501 | also in a mapped chunk, which stays larger than a small one |
| Memalign.GiveLeader | lib/stdlib/dlmalloc.c:3502-3506 | the leader is given back, the rest is the client's block, no other block changes |
| Memalign.InternalMemalign | lib/stdlib/dlmalloc.c:3458-3530 | a non-null result is a multiple of the alignment and a new block that holds the bytes; null means that nothing changed and that neither the heap nor the system has room for the bytes, the alignment and 56 more |
| BulkFree.MergeBlocks | lib/stdlib/dlmalloc.c:3686-3690 | joining two blocks of the array that are neighbours keeps the invariant and all other blocks |
| BulkFree.InternalBulkFree | lib/stdlib/dlmalloc.c:3665-3705 | all entries end null, exactly their blocks are freed, all others and their contents stay; top is trimmed as after any free |
| BulkFree.FreedOneByOne | lib/stdlib/dlmalloc.c:3658-3664 | freeing the blocks one by one, in any order, meets the same promise |
| BulkFree.FreedTheSame | lib/stdlib/dlmalloc.c:3658-3664 | any two ways to meet it that leave the same segments end with the same chunks, of the same sizes, the same of them free, and the same mapped ones |
| BulkFree.AsOneByOne | lib/stdlib/dlmalloc.c:3658-3664 | so the bulk operation ends with the heap that freeing one by one ends with |
| HeapFacts.Tiling | lib/stdlib/dlmalloc.c:1991-2020 | every address of a segment before its end is in exactly one chunk |
| HeapFacts.NoFreeNeighbours | lib/stdlib/dlmalloc.c:1832-1853 | no two free chunks are neighbours |
| HeapFacts.OneBin | lib/stdlib/dlmalloc.c:1955-1988 | a free chunk is dv, top, or in exactly the bin for its size, and bins hold nothing else |
| HeapFacts.FreeRuns | lib/stdlib/dlmalloc.c:2931-2997 | the segments and the chunks in use determine the free chunks, so freeing in any order ends with the same |
| HeapFacts.BlocksApart | lib/stdlib/dlmalloc.c:1855-1866 | memory of blocks is 16-aligned and never shared |
| ClientRun.Client.Serve | lib/stdlib/dlmalloc.c:3112-3357 | one request of a client, whatever it is, does what it is for and reports no error |
| ClientRun.Client.Run | lib/stdlib/dlmalloc.c:2023-2049 | over any run of malloc, free, realloc, memalign, bulk free, trim and writes by a client that passes only blocks it owns: no error action is reached, each request leads from one heap to the next as its own contract says (what the heap can serve is served, contents are kept), and in all of them the invariant holds and every word noted as written is there |
| ClientRun.WordStays | lib/stdlib/dlmalloc.c:852-860 | so a word written into a block is there at every later moment until the block is freed or resized or the word written again, and no link or segment record is ever in its place |
| ClientRun.AllWritable | lib/stdlib/dlmalloc.c:852-860 | every byte that was asked for may be written |
| Physical.CurrentFrame | kernel/mm/physical.c:113-129 | the chain's stacks together are one sequence that ends in the current stack |
| Physical.Allocator.Pop | kernel/mm/physical.c:114-119 | takes the last free page |
| Physical.Allocator.Get | kernel/mm/physical.c:113-129 | hands out the last free page, fails if and only if there is none, calls itself at most once; emptied stacks are never reached again |
| Physical.Allocator.Grow | kernel/mm/physical.c:135-137 | the last free page becomes the current stack |
| Physical.Allocator.MarkFree | kernel/mm/physical.c:131-140 | any page becomes the last free one; if the stack of 509 was full, the last free page before it has become a stack; free, handed-out, stack and abandoned pages keep partitioning all pages if and only if the page was handed out or is new, and is not page 0 |
| PageTables.EntryParts | kernel/mm/virtual.c:84 | address and flags of an entry are recovered by the masks |
| PageTables.SelfWalks | kernel/include/mm/virtual.h:18-21 | through the slot that leads back, the walks of four pages stop at the tables of any page |
| PageTables.WalkTables | kernel/mm/virtual.c:34-52 | the processor's walk goes down the tree of tables |
| PageTables.SetLeaf | kernel/mm/virtual.c:84 | setting a last entry maps one page differently and no other |
| PageTables.AddKeeps | kernel/mm/virtual.c:59-64 | supplying a missing table changes no page's translation |
| PageTables.NewReached | kernel/mm/virtual.c:59-64 | the new table is what the next pointer leads to, so clearing goes to it |
| PageTables.RightsOf | kernel/mm/virtual.c:59-64 | what the processor allows with a page depends on its last entry alone: all tables above may be written through and executed from |
| Virtual.IndicesOfPage | kernel/mm/virtual.c:34-44 | the four indices of every canonical address are those the processor uses |
| Virtual.IndicesDetermine | kernel/mm/virtual.c:34-44 | indices and offset determine the address |
| Virtual.PointersOfPage | kernel/mm/virtual.c:46-49 | where the four pointers lie |
| Virtual.AddressSpace.PointersResolve | kernel/mm/virtual.c:46-49 | the four pointers resolve to exactly the tables that the walk of the address uses |
| Virtual.AddressSpace.LookupsAgree | kernel/mm/virtual.c:94-118 | the lookups see what the processor sees |
| Virtual.AddressSpace.EnsureTable | kernel/mm/virtual.c:59-78 | a table exists afterwards, no page's translation changes, and the pages used come from the free ones |
| Virtual.AddressSpace.Fill | kernel/mm/virtual.c:80-85 | one table's worth of pages is mapped, no other page |
| Virtual.AddressSpace.VirtualMap | kernel/mm/virtual.c:54-92 | exactly the pages asked for are mapped to consecutive frames, all others as before, over any number of lowest tables; it fails only when the free pages run out |
| Virtual.AddressSpace.LookupsAfter | kernel/mm/virtual.c:94-118 | present pages are then found with their frame and flags, others as 0 |
| VmList.Sorted | kernel/mm/virtual.c:15-31 | ranges of the list do not overlap and are in order |
| VmList.Covered | kernel/mm/virtual.c:15-31 | and leave no gap |
| VmList.FirstIsLowest | kernel/mm/virtual.c:297-302 | the first range that fits has the lowest address of all that fit |
| VmList.SplitTiles | kernel/mm/virtual.c:213-267 | the pieces of a split tile the range if and only if the new one does not wrap around |
| VmList.SetTiles | kernel/mm/virtual.c:179-277 | a set range keeps the tiling of the interval if and only if it does not wrap around (and the interval is not the empty one at 0) |
| VmList.WrappingBreaks | kernel/mm/virtual.c:213-215 | one that does is accepted and breaks it |
| VmList.TookBy | kernel/mm/virtual.c:308-342 | address by address: taking makes just [addr, addr + size) used and no longer free |
| VmList.GaveBy | kernel/mm/virtual.c:349-355 | freeing makes just the range's addresses free and no longer used |
| VmList.SetBy | kernel/mm/virtual.c:179-277 | setting gives just its addresses the flags |
| VmList.RangeList.InsertAfter | kernel/mm/virtual.c:120-136 | links, head, tail and count stay consistent, the node stands right behind |
| VmList.RangeList.Alloc | kernel/mm/virtual.c:285-343 | answers the lowest address of a free range that is large enough; an address is free afterwards if and only if it was and is not in the new range, and used if and only if it was or is; 0 and no change if nothing is asked for or none fits |
| VmList.RangeList.Free | kernel/mm/virtual.c:345-392 | the first used range that starts at the address is free, all other addresses are as they were, and its length is the answer; 0 and no change if there is none |
| VmList.RangeList.RangeSet | kernel/mm/virtual.c:179-277 | returns if and only if it splits the last range without ending where that ends, or the list is empty; the branch for ranges that do not overlap is never reached |
| VmList.RangeList.Init | kernel/mm/virtual.c:396-409 | the eight ranges that the system starts with, and which addresses are free and used in them |
| VmList.RangeList.Do | kernel/mm/virtual.c:179-392 | one operation, with its answer; it panics exactly if it is a set range that cannot be split off |
| VmList.RangeList.Run | kernel/mm/virtual.c:179-392 | over any run of the three operations, ranges not wrapping around, up to one that panics: each does to every address what it should, and at all moments the ranges tile the same interval |
| Mmap.TakenListed | kernel/mm/virtual.c:308-342 | a new region overlaps no region that is listed |
| Mmap.FreedListed | kernel/mm/virtual.c:349-355 | a region's base leads to its range and no other |
| Mmap.FlagsFacts | lib/sys/mman/mmap.c:13-30 | bit 0 of the flags is `PROT_READ`, bit 1 `PROT_WRITE`, bit 63 the opposite of `PROT_EXEC`, and no other is set |
| Mmap.PageSeen | lib/sys/mman/mmap.c:13-38 | what the processor finds for a mapped page: the frame if it may be read, and just the rights that were asked for |
| Mmap.Memory.FramesOwned | lib/sys/mman/mmap.c:32-40 | no frame of a region is free or in a second place; the lookup finds it if and only if the page is present |
| Mmap.Memory.Map | lib/sys/mman/mmap.c:7-41 | a new region at the lowest free address, with a frame of its own for each page; the processor finds each page in its frame with just the rights asked for; no other page's translation changes; without room, the frames are mapped at 0 and lost |
| Mmap.Memory.Unmap | lib/sys/mman/munmap.c:7-26 | passes the assertion if and only if the length is the region's, and no other page's translation changes; all frames of the region are given back if it may be read; otherwise they stay handed out and page 0 is handed out next |
| Mmap.Memory.Run | lib/sys/mman/munmap.c:7-26 | over any run of mappings, and unmappings of regions that may be read, each call takes or gives back exactly a region with its frames and its addresses; at all moments no frame is free, a page table or in a second place, and the processor finds every page of every region in its frame with its flags; it stops early only when free pages run out |
| Slab.ObjectsFit | kernel/mm/slab.c:45-48 | objects lie behind the array of free indices and inside the slab |
| Slab.AsManyAsFit | kernel/mm/slab.c:45-46 | there are as many objects as fit behind 16 bytes and a word for each, and no more |
| Slab.ObjectsApart | kernel/mm/slab.c:79-81 | and do not overlap |
| Slab.IndexRecovered | kernel/mm/slab.c:113-117 | mask and division recover slab and index |
| Slab.Counts | kernel/mm/slab.c:118 | free and live objects add up to all |
| Slab.Cache.constructor | kernel/mm/slab.c:13-31 | all objects free and zero, at the end of the slab |
| Slab.Cache.Alloc | kernel/mm/slab.c:72-109 | hands out the last free index, zeroed, other objects unchanged; returns if and only if two objects are left afterwards |
| Slab.Cache.Free | kernel/mm/slab.c:112-135 | exactly the object is free again and the next one to be handed out |
| Printf.DigitsValue | lib/stdio/vcbprintf.c:291-294 | the digits read back give the number |
| Printf.ValueDigits | lib/stdio/vcbprintf.c:291-294 | every digit string without a leading zero is what its number is printed as |
| Printf.NoLeadingZero | lib/stdio/vcbprintf.c:280-286 | only 0 is printed with a leading zero |
| Printf.DigitCount | lib/stdio/vcbprintf.c:280-286 | there are at most k digits if and only if the number is below the base to the k |
| Printf.BufferFits | lib/stdio/vcbprintf.c:276-296 | digits and terminator fit the buffer always in base 10 and 16, in base 8 exactly below 2^60 |
| Printf.PrefixFits | lib/stdio/vcbprintf.c:254-273 | the prefix fits its buffer unless a sign and `0x` come together |
| Printf.EmittedLength | lib/stdio/vcbprintf.c:288-341 | as many characters as the width, or the prefix with the digits and precision, exactly if there is no padding on both sides |
| Printf.CountExact | lib/stdio/vcbprintf.c:343 | the conversion is counted as many characters as it emits if and only if it emits its digits alone |
| Printf.ReadBack | lib/stdio/vcbprintf.c:275-341 | every conversion, whatever its flags, width and precision, is read back as the number |
| Printf.CountDigits | lib/stdio/vcbprintf.c:280-286 | the loop counts the digits |
| Printf.WriteDigits | lib/stdio/vcbprintf.c:291-296 | the loop writes the digits, in bounds |
| Printf.Convert | lib/stdio/vcbprintf.c:253-341 | emits exactly the text that the lemmas are about |
| Printf.MagnitudeIs | lib/stdio/vcbprintf.c:230 | negating in 64 bits gives the absolute value, also of the least number |
| PrintfFormat.LongestFound | lib/stdio/vcbprintf.c:126-154 | the loop over the table finds the longest length modifier |
| PrintfFormat.ScanFields | lib/stdio/vcbprintf.c:62-106 | the loops scan flags, width and precision |
| PrintfFormat.FieldsRead | lib/stdio/vcbprintf.c:62-106 | flags in any order, width, `*` and precision that were written down are read, numbers modulo 2^64 |
| PrintfFormat.EscapedText | lib/stdio/vcbprintf.c:30-60 | any string with its '%' doubled comes out as it is, after an unknown conversion too, its length is counted, and what follows is printed as by itself |
| PrintfFormat.Vcbprintf | lib/stdio/vcbprintf.c:18-351 | the whole loop emits what format and arguments call for, and returns the count if it is an `int` |
| PrintfLaws.LengthRead | lib/stdio/vcbprintf.c:108-154 | every length modifier is read, and which of them stand for 32 bits |
| PrintfLaws.NumberPrinted | lib/stdio/vcbprintf.c:192-346 | %d %i %u %o %x %X %p with any fields and modifier: the text is the sign, the mark, the zeros and the digits of the argument as a 32-bit or 64-bit number, signed or not, in the right letters and padding, its digits are counted, and read back it is that number; undefined exactly if a buffer is too small |
| PrintfLaws.StringPrinted | lib/stdio/vcbprintf.c:166-179 | %s emits the string up to the precision and counts that much |
| PrintfLaws.CharPrinted | lib/stdio/vcbprintf.c:180-191 | %c emits the argument's low byte |
| PrintfLaws.PercentPrinted | lib/stdio/vcbprintf.c:157-165 | a '%' behind fields is emitted and not counted |
| PrintfLaws.UnknownPrinted | lib/stdio/vcbprintf.c:54-60 | an unknown conversion is emitted as text, and so is all that follows, doubled '%' made single |

## Left out

- Disabled branches of the allocator: MORECORE, locks, footers, mspaces, mremap, statistics, `inspect_all`; `dlcalloc`, `independent_calloc` and `dlmallopt`, which add only easy members.
- Memory of the heap has words at addresses: clients write whole words. The links of binned chunks and the fields of segment records are kept in the bins and in the sequence of segments, not in that memory; `Payload.LinksApart` says where they are.
- The answers of the system (addresses of new memory, refusals to unmap) are parameters; new memory has to be vacant and the footprint has to stay below 2^40. That the kernel's own `munmap` insists on one exact region, while the allocator unmaps parts of segments, is not resolved here.
- BulkFree.AsOneByOne: heaps are compared that have the same segments; when top is trimmed or a segment released in between, they need not have.
- Memalign.InternalMemalign: alignments above 2^63, for which the source does not terminate.
- Physical: after a page was marked free that must not be, the other operations are not followed further.
- Virtual.AddressSpace.VirtualMap: the frames of page tables are only those of its own tree; the table entry of the current page stack, which the source writes through a saved pointer, is a field of the page allocator. Large pages, the TLB and `cr3` are not modelled; addresses have their flags in bits of their own, so that or is addition.
- VmList.RangeList.Run: the flags of the piece behind an inner split, which the source never sets, are those of the zeroed node; frees of addresses that are in use for the kernel itself are allowed.
- Mmap.Memory.Map: when no range fits, more than 2^47 bytes may be asked for only if there are no more than 2^35 physical pages, which then run out first.
- Mmap.Memory.Unmap: a length beyond the region, or an address that is no region's; both fail the assertion, but the loop before it also clears pages of others.
- Slab: mapping the slab's pages, the queues of slabs, and the creation of further slabs, which the source does not write.
- Printf.Convert: the callback takes everything.
- PrintfFormat.Vcbprintf: arguments that are missing or of another kind are undefined; characters and strings are one-byte characters; a string is the characters before the zero that ends it.
- NVMe queues, the terminal, ACPI, PCI and all other hardware.
