# A verified model of the kernel's memory, tables, rings and loader

The project models the parts of the system whose state is hardest to keep in order, and proves what they are for.

- **The heap** (`Heap*.dfy`, `Bin*.dfy`, `Words.dfy`): the allocator of `clib/malloc.c` as the kernel configures it:
  one contiguous segment that only grows, no mmap, no trimming, no locks, no footers. Memory is words by address;
  every read and write of the source is a read or write here. Boundary tags, coalescing, the rings of the small bins,
  the bitwise tries of the large bins with their bit-guided best-fit search, the designated victim and top are all
  there. The central invariant (`Ready`) ties every word the allocator may read to one abstract row of chunks and its
  bins; every operation is proved to keep it and to have exactly its effect on the blocks of its callers.
  `HeapRun.dfy` runs whole sequences against a store of separate byte strings; `HeapCheck.dfy` models the allocator's
  own consistency checks.
- **Page tables and address spaces** (`Page*.dfy`, `Paging.dfy`): the four-level tables of section 4.5 of the Intel SDM
  Volume 3A in physical memory, the list of unused pages threaded through the pages themselves (`klib/kmem.c`), and the
  memory manager with its counted pages and roots (`kernel/scheduler/mman.c`). Tables may be shared: the regions of the
  kernel are the same tables under every root. The invariant `Valid` says that every page is counted exactly as often
  as the live roots lead to it, plus what was lost (see below), and that the list holds exactly the pages under
  management that nothing counts for. It survives every interleaving of range operations with making, acquiring and
  releasing roots.
- **The search tree** of `clib/avl.c`: on nodes and links (`Avl.dfy`) it does what functions on trees do
  (`AvlPlan.dfy`), which refine a finite map (`AvlSpec.dfy`); `AvlBalance.dfy` says when it is balanced. `RefCounts.dfy`
  keeps page counts on it as the memory manager does.
- **The packet ring** (`Comm.dfy`) of `clib/comm.c` against a bounded queue.
- **The scheduler's choice** (`Scheduler.dfy`), **boot** (`KmemInit.dfy`: the list of unused pages from the memory
  map) and **the ELF loader** (`Loader.dfy`, `UserSpace.dfy`: what every byte of a program translates to).

Objects that the source updates in place are classes (`Heap.Heap`, `HeapRun.Session`, `Paging.Pager`, `Avl.AvlTree`,
`RefCounts.Counts`, `Comm.Ring`); their methods follow the source step by step and are proved against functions and
predicates whose own properties are lemmas. `dafny verify dfyconfig.toml` checks everything.

## What the code does that its comments and callers do not say

- A ring that is filled exactly is taken for an empty one (`clib/comm.c:33-41`): the next put is accepted where a queue
  would refuse. `Ring.Run` answers as the queue does if and only if no put meets a full ring that it would fit when
  empty, and no packet is fetched into a buffer that is too small (`Comm.FullTakesMore`, `Comm.FillingIsUnfair`).
- Skipping a packet across the end of the ring leaves the position at the size skipped (`clib/comm.c:72-79`,
  `Comm.SkipMisplaces`).
- The tree index of a size narrows it to 32 bits (`clib/malloc.c:2856-2858`): it is right exactly below 2^40, or where
  the narrowed size already selects the last bin (`BinIndex.TreeIndexInBinIff`). The heap is therefore bounded by 2^40
  bytes, and what is asked of a caller is only that the growth a request really causes stays below that.
- `mman_anonymous` over a mapped page, and `mman_protect` with flags that say absent, leave a page counted to which
  nothing leads. The model records these pages (`lost`), and `PageRuns.LifeReturns` says how many pages a root
  therefore does not give back.
- The comment in `kernel/kmem.c` speaks of the first 2 MB; what the code keeps back are the pages up to 0x20000.
- Rounding turns a region that starts at 0 and is shorter than a page into the mark that ends the memory map
  (`KmemInit.RoundedToMark`).
- A stored depth in the tree is the true height or one more, never less: a childless node stores 1 when it is new and 2
  once it has been looked at (`AvlPlan.DepthNearHeight`). Insertions keep the stored depths of two siblings within one
  (`AvlBalance.InsertedBalanced`), so true heights within two. Removals do not always: a search for a key that is not
  there may lift the only child of a node from 1 to 2, and rotation finds nothing to rotate where a single node that
  stores 2 is left beside nothing (`AvlBalance.AbsentKeyUnbalances`, `AvlBalance.LeafUnbalances`); nor is anything
  rotated on the right spine that loses its last node (`clib/avl.c:232-237`). `AvlBalance.RemovedBalanced` gives the
  exact condition, for every balanced tree and every key.

## Model

| member | source | states |
|---|---|---|
| `Heap.Heap.Malloc` | clib/malloc.c:4561-4695 | null exactly for requests of at least 2^64 - 128; otherwise one new block appears, of at least the padded size and less than MIN_CHUNK_SIZE above it, and all other blocks and their words stay. A request of up to 232 bytes takes a binned chunk of exactly the padded size if there is one, else the victim if that fits; every other request takes a chunk of least size among all free chunks that fit, dv included; top is taken only if no free chunk fits, and then always. The footprint grows by the page-rounded need or not at all, and the heap invariant holds |
| `Heap.Heap.SmallRequest` | clib/malloc.c:4591-4643 | a small request is served from the bins, or it is shown that no binned chunk is exact and either the victim fits or no binned chunk does |
| `Heap.Heap.Free` | clib/malloc.c:4699-4806 | exactly the named block disappears, every word of every other block stays, the footprint stays, and the invariant (tiling, tags, no two free neighbours, bins) holds after coalescing |
| `Heap.Heap.Calloc` | clib/malloc.c:4808-4821 | null exactly if the mathematical product reaches MAX_REQUEST, overflow included; otherwise a new block whose requested bytes are all zero |
| `Heap.Heap.Realloc` | clib/malloc.c:5202-5245 | in place exactly if the block or what is free behind it suffices, else moved; the first min(usable, new) bytes are kept, all other blocks stay, null (and nothing changed) exactly for too large a request |
| `Heap.Heap.MoveBlock` | clib/malloc.c:5234-5240 | the moving case: allocate, copy the smaller of old usable and new size, free the old block |
| `Heap.Heap.TryReallocChunk` | clib/malloc.c:4828-4905 | succeeds if and only if the chunk is large enough, or extends into top with room to spare, or into a free neighbour (dv or binned); the block then has the wanted size and nothing else changes; otherwise the heap is unchanged |
| `Heap.Heap.GrowIntoTop` | clib/malloc.c:4848-4859 | the block grows into top, which keeps a non-empty rest |
| `Heap.Heap.GrowIntoDv` | clib/malloc.c:4860-4872 | the block grows into dv, which keeps a rest of at least the minimum size |
| `Heap.Heap.AbsorbDv` | clib/malloc.c:4873-4878 | the block takes all of dv, and there is no victim any more |
| `Heap.Heap.CutAndFree` | clib/malloc.c:4838-4847 | a block is shortened and its remainder goes back through disposal |
| `Heap.Heap.CopyInto` | clib/mem.c:17-37 | copying into a block changes the bytes of that block only |
| `Heap.Heap.Consolidate` | clib/malloc.c:4380-4446 | freeing a chunk merges it with free neighbours on both sides, dv and top included, whichever they are; exactly that block goes |
| `Heap.Heap.MergeForward` | clib/malloc.c:4409-4442 | the merge with what follows: top, dv, a binned chunk or none, with the bins updated to match |
| `Heap.Heap.MergeIntoDv` | clib/malloc.c:4421-4426 | the merge with the designated victim |
| `Heap.Heap.AbsorbNext` | clib/malloc.c:4427-4436 | the merge with a binned neighbour, which leaves its bin |
| `Heap.Heap.TagFree` | clib/malloc.c:2307-2309 | tagging a merged stretch as one free chunk keeps all tags consistent |
| `Heap.Heap.TagFreeKept` | clib/malloc.c:2303-2305 | the same where the following pinuse bit is already clear |
| `Heap.Heap.TagTop` | clib/malloc.c:4411-4420 | a stretch up to the end becomes part of top |
| `Heap.Heap.InsertSmallChunk` | clib/malloc.c:3587-3603 | the binned set gains exactly the chunk, the ring and the map bit stay consistent, no tag and no caller word changes |
| `Heap.Heap.UnlinkSmallChunk` | clib/malloc.c:3606-3629 | the binned set loses exactly the chunk, with ring and map bit consistent |
| `Heap.Heap.UnlinkFirstSmallChunk` | clib/malloc.c:3632-3647 | the first chunk of a marked bin has the size of the bin and is the one that leaves |
| `Heap.Heap.InsertLargeChunk` | clib/malloc.c:3665-3714 | the binned set gains exactly the chunk and the trie invariant holds (one node per size, bits of the path, parent links, equal sizes on a ring) |
| `Heap.Heap.InsertBelow` | clib/malloc.c:3679-3712 | the descent ends: every step decides one more size bit; the chunk becomes a leaf or joins the ring of its size |
| `Heap.Heap.InsertRoot` | clib/malloc.c:3672-3677 | the first chunk of an empty tree bin |
| `Heap.Heap.HangLeaf` | clib/malloc.c:3686-3692 | the chunk becomes a leaf where the bits of its size end in an empty slot |
| `Heap.Heap.JoinRing` | clib/malloc.c:3698-3706 | the chunk joins the ring of its size |
| `Heap.Heap.UnlinkLargeChunk` | clib/malloc.c:3733-3802 | the binned set loses exactly the chunk: from a ring, by promoting its ring neighbour, by a leaf of its own subtree, or the node vanishes |
| `Heap.Heap.DetachLeaf` | clib/malloc.c:3747-3762 | the rightmost-first descent finds a leaf that may stand in for the node, and cuts it off |
| `Heap.Heap.CloseRing` | clib/malloc.c:3736-3746 | the ring is closed around the chunk |
| `Heap.Heap.InsertChunk` | clib/malloc.c:3806-3808 | either kind of bin, chosen by size |
| `Heap.Heap.UnlinkChunk` | clib/malloc.c:3810-3812 | either kind of bin, chosen by size |
| `Heap.Heap.ReplaceDv` | clib/malloc.c:3651-3660 | the old victim goes to its small bin and the new one is recorded |
| `Heap.Heap.FindLarge` | clib/malloc.c:4451-4497 | the bit-guided descent, the deepest untaken right subtree, the next marked bin and the leftmost path together find a chunk of least size among all binned chunks that fit, or show that none fits |
| `Heap.Heap.NextBin` | clib/malloc.c:4480-4488 | the root of the next marked bin, under which every chunk fits, or none where no larger bin is marked |
| `Heap.Heap.Account` | clib/malloc.c:4190-4191 | the footprint and its greatest value so far |
| `Heap.Heap.Descend` | clib/malloc.c:4457-4479 | what is left after the descent of the own bin: the pick so far, and a subtree that holds every better fit |
| `Heap.Heap.LeastFrom` | clib/malloc.c:4490-4497 | the leftmost path from a subtree ends with the least fitting size |
| `Heap.Heap.FindSmallest` | clib/malloc.c:4522-4537 | the least chunk of all tree bins |
| `Heap.Heap.TMallocLarge` | clib/malloc.c:4451-4519 | takes the best binned fit if it is smaller than dv, and otherwise leaves the heap unchanged because dv fits as well or nothing does |
| `Heap.Heap.TMallocSmall` | clib/malloc.c:4522-4557 | serves a small request from the smallest tree chunk |
| `Heap.Heap.FromSmallBin` | clib/malloc.c:4599-4610 | serves from the exact bin or the one above it |
| `Heap.Heap.FromNextSmallBin` | clib/malloc.c:4612-4637 | serves from the smallest larger non-empty small bin |
| `Heap.Heap.FromDv` | clib/malloc.c:4655-4673 | serves from dv, splitting it where the rest is large enough |
| `Heap.Heap.SplitTop` | clib/malloc.c:4675-4685 | serves from the front of top |
| `Heap.Heap.FromRest` | clib/malloc.c:4655-4687 | dv, then top, then new memory, each only if what comes before does not fit |
| `Heap.Heap.Occupy` | clib/malloc.c:3075-3078 | a free chunk becomes a used one with its neighbours told |
| `Heap.Heap.Carve` | clib/malloc.c:4629-4631 | a free chunk becomes a used one and a free rest |
| `Heap.Heap.SysAlloc` | clib/malloc.c:4054-4260 | the segment grows contiguously by the page-rounded need minus what top has; the block is then split off top; refused, and nothing changed, only for the largest request |
| `Heap.Heap.AppendSegment` | clib/malloc.c:4214-4226 | the segment and top grow, nothing else changes |
| `Heap.Heap.FirstSegment` | clib/malloc.c:4188-4206 | the first segment: empty bins, one top chunk |
| `Heap.Heap.InitBins` | clib/malloc.c:3928-3935 | every small bin is an empty ring |
| `Heap.Heap.InitTop` | clib/malloc.c:3913-3925 | top and the trailing foot |
| `Heap.Heap.constructor` | clib/malloc.c:2619-2650 | a heap not yet initialised is valid and holds no block |
| `HeapLayout.CellsDistinct` | clib/malloc.c:2158-2179 | no two live words of the allocator share an address, so a field written through one name changes no other |
| `HeapLayout.CellNotUser` | clib/malloc.c:2138-2179 | no word of the allocator lies in the part of a used chunk that belongs to its owner |
| `HeapEdits.PinuseTells` | clib/malloc.c:2150-2165 | a clear pinuse bit leads through the repeated size to a free chunk that ends here; a set one means that there is none |
| `HeapEdits.FreePinuse` | clib/malloc.c:3281-3301 | the chunk before a free chunk is in use |
| `HeapEdits.TopPinuse` | clib/malloc.c:3242-3253 | the chunk before top is in use |
| `HeapState.ReadNext` | clib/malloc.c:2296-2301 | what the tags say about the following chunk is what it is |
| `HeapState.ReadPrev` | clib/malloc.c:2138-2179 | what the tags say about the preceding chunk is what it is |
| `HeapTrie.SetSeat` | clib/malloc.c:3766-3796 | writing the slot, parent and child words of one position seats a chunk there and disturbs no other position |
| `HeapTrie.ClearSeat` | clib/malloc.c:3763-3775 | clearing the slot of a childless position empties it and disturbs no other |
| `HeapRings.PushOnOk` | clib/malloc.c:3587-3603 | adding to a ring keeps every part of the bin invariant |
| `HeapRings.DropAtOk` | clib/malloc.c:3606-3629 | dropping from a ring keeps every part of the bin invariant |
| `HeapNodes.NewNodeOk` | clib/malloc.c:3672-3692 | a new trie node keeps every part of the bin invariant |
| `HeapNodes.PromoteOk` | clib/malloc.c:3736-3746 | a ring neighbour that takes the node's place keeps it |
| `HeapNodes.RemoveNodeOk` | clib/malloc.c:3763-3768 | a leaf without ring mates that vanishes keeps it |
| `HeapReplace.ReplaceOk` | clib/malloc.c:3747-3802 | a node replaced by a leaf of its subtree keeps it, two-phase writes included |
| `HeapUnlink.LeafFits` | clib/malloc.c:3747-3762 | any leaf below a node may take its place: its size has the bits of the node's position |
| `HeapSearch.DescendStep` | clib/malloc.c:4461-4478 | one step of the descent loses no size that fits: it is taken, below, or in the deepest right subtree passed |
| `HeapSearch.LeftStep` | clib/malloc.c:4490-4497 | one step down the leftmost path loses no better fit |
| `HeapSearch.BinExhausted` | clib/malloc.c:4473-4488 | a pick from the own bin is best among all bins; without one, every fit is in a larger bin |
| `HeapSearch.NextBinFits` | clib/malloc.c:4480-4488 | every chunk of the next marked bin fits |
| `HeapSearch.RemainderTest` | clib/malloc.c:4463-4468 | the unsigned comparison of remainders accepts exactly the sizes that fit and are smaller than the pick |
| `HeapSearch.BestIsBestFit` | clib/malloc.c:4450-4497 | best among the sizes in the tries means best fit among the binned chunks |
| `HeapTake.DvPolicy` | clib/malloc.c:4655-4673 | when dv is used, no binned chunk is a better fit |
| `HeapTake.TopPolicy` | clib/malloc.c:4675-4685 | when top is used, no free chunk fits |
| `HeapTake.LargePolicy` | clib/malloc.c:4499-4519 | the comparison with dv in wrap-around arithmetic picks the better of the two |
| `HeapTake.SmallMiss` | clib/malloc.c:4597-4613 | what clear small-map bits say about the chunks that are not there |
| `HeapTake.RequestSizes` | clib/malloc.c:2247-2253 | padding: aligned, at least overhead more than asked, less than MIN_CHUNK_SIZE above it, and never below 32 bytes |
| `HeapTake.GrowthBound` | clib/malloc.c:4069-4132 | the heap never grows by more than the page-rounded request |
| `HeapTake.GrowthTells` | clib/malloc.c:4069-4132 | the heap grows only where neither a free chunk nor top serves, then by whole pages, by what top lacks with its foot of 96 bytes and less than a page more |
| `HeapTake.PolicyTells` | clib/malloc.c:4561-4580 | what the placement policy means for a request, by the sizes of what is free |
| `HeapCaller.ProductChecked` | clib/malloc.c:4811-4816 | the divide-back test detects every overflow of the product |
| `HeapCaller.CallerKeeps` | clib/malloc.c:2138-2157 | whatever callers write to their own blocks, the heap invariant is not touched |
| `BinIndex.TreeIndexInBin` | clib/malloc.c:2854-2866 | every large size below 2^40 gets the tree bin whose range holds it |
| `BinIndex.TreeIndexInBinIff` | clib/malloc.c:2854-2866 | for all sizes: the index is right if and only if the size is below 2^40 or its narrowed value already selects the last bin |
| `BinIndex.TreeIndexOutsideArena` | clib/malloc.c:2856-2858 | 2^40 itself is filed in the first tree bin, where it does not belong |
| `BinIndex.BinsOrdered` | clib/malloc.c:2926-2929 | sizes of a lower bin are smaller |
| `BinIndex.UndecidedStep` | clib/malloc.c:2921-2924 | the shifted size presents the next undecided bit in its sign position |
| `BinIndex.PreOrder` | clib/malloc.c:2383-2404 | size prefixes are ordered as the sizes are |
| `BinMaps.NextMarked` | clib/malloc.c:2946-2953 | the least of the bits to the left is the next non-empty bin, and there is none if and only if the mask is empty |
| `BinMaps.FirstMarked` | clib/malloc.c:2946-2963 | least bit and bit index find the first non-empty bin |
| `BinMaps.NextSmallMarked` | clib/malloc.c:4597-4619 | shifting the map down and back up finds the next non-empty small bin |
| `BinMaps.RemainderlessFit` | clib/malloc.c:4597-4605 | the test of two low bits and the branch-free index adjustment find the exact bin or the one above it |
| `BinMaps.MarkClear` | clib/malloc.c:2935-2944 | marking and clearing change one bit |
| `HeapRun.Session.Run` | clib/malloc.c:4561-5245 | for every sequence of allocations, clears, frees, resizes and writes, of any length, every step does what a store of separate byte strings does, with the heap's answers as addresses, and no block is ever a minimal chunk larger than its padded request; a step is refused exactly if it is improper or the heap has no room for its worst case, and then changes nothing |
| `HeapRun.RefusedOnly` | clib/malloc.c:4561-5245 | in any run: freeing or writing a held block is never refused, and a proper allocation or resize only if it is below the largest request and what the heap holds, the bytes asked, padding, foot and a page together exceed 2^40 |
| `HeapRun.Session.Perform` | clib/malloc.c:4561-5245 | one such step, with a bound on how much the heap grows |
| `HeapRun.Session.Alloc` | clib/malloc.c:4561-4695 | a fresh address with a string of the requested length |
| `HeapRun.Session.AllocClear` | clib/malloc.c:4808-4821 | a fresh address with zeros |
| `HeapRun.Session.Release` | clib/malloc.c:4699-4806 | exactly that string goes |
| `HeapRun.Session.Resize` | clib/malloc.c:5202-5245 | the common prefix is kept, at the same or a fresh address |
| `HeapRun.UntouchedStays` | clib/malloc.c:4561-5245 | in any run, a block that no step names has its contents at the end |
| `HeapRun.Separate` | clib/malloc.c:2138-2157 | any two live blocks are 16-aligned and disjoint with their overhead |
| `HeapRun.Allocates` | clib/malloc.c:4561-4695 | an allocation leaves the contents of all blocks |
| `HeapRun.Releases` | clib/malloc.c:4699-4806 | a free leaves the contents of all other blocks |
| `HeapRun.Resizes` | clib/malloc.c:5202-5245 | a resize keeps the common prefix and the contents of all other blocks |
| `HeapCheck.CheckMallocState` | clib/malloc.c:3472-3498 | the allocator's own checks all succeed in every valid heap, and the total they find is the footprint exactly, which is at most the greatest so far |
| `HeapCheck.TraverseAndCheck` | clib/malloc.c:3440-3468 | chunk sizes, top and its foot add up to the footprint; used chunks are in no bin, free ones are dv or binned, no two are adjacent |
| `HeapCheck.BinFind` | clib/malloc.c:3404-3437 | finds a chunk if and only if it is binned |
| `HeapCheck.TreeFind` | clib/malloc.c:3417-3434 | the same for tree bins: the descent by size bits reaches the node of the size if there is one |
| `HeapCheck.RingFind` | clib/malloc.c:3427-3433 | going round a ring finds exactly its members |
| `HeapCheck.InuseChunkPasses` | clib/malloc.c:3270-3278 | the checks of a used chunk succeed |
| `HeapCheck.FreeChunkPasses` | clib/malloc.c:3281-3301 | the checks of a free chunk succeed: size repeated, used neighbours, links that lead back |
| `HeapCheck.TopChunkPasses` | clib/malloc.c:3242-3253 | the checks of top succeed |
| `HeapCheck.SmallChunkPasses` | clib/malloc.c:3387-3399 | the checks of a chunk in a small bin succeed |
| `HeapCheck.NodeBinPasses` | clib/malloc.c:3318-3328 | the size of every trie node lies in the range of its bin |
| `HeapCheck.RingChunkPasses` | clib/malloc.c:3330-3337 | the checks of a chunk on a trie ring succeed |
| `HeapCheck.SidesOrdered` | clib/malloc.c:3359-3361 | the left subtree of a trie node holds the smaller size |
| `HeapCheck.CheckTree` | clib/malloc.c:3318-3366 | the recursive check of a trie and its rings succeeds |
| `HeapCheck.CheckSmallbin` | clib/malloc.c:3380-3401 | the check of a small bin succeeds |
| `HeapCheck.CheckTreebin` | clib/malloc.c:3369-3377 | the check of a tree bin succeeds |
| `Words.MemMove` | clib/mem.c:17-37 | the bytes at the destination are those the source had, overlap in either direction included; no other byte changes |
| `Words.MemSet` | clib/mem.c:3-11 | the bytes are the value; no other byte changes |
| `Paging.Pager.KmemUnuse` | klib/kmem.c:24-27 | the page is put in front of the list; tables and list stay well formed if nothing leads to it |
| `Paging.Pager.KmemGetPage` | klib/kmem.c:29-34 | the first page of the list, to which nothing leads |
| `Paging.Pager.KmemPagingAddrCreate` | klib/kmem.c:68-92 | the walk now succeeds, with up to three tables taken from the list, cleared and linked as present, writable and for user code; every other word above the page entries, and every mapping, is as before; nothing changes if the walk succeeded before |
| `Paging.Pager.InstallTable` | klib/kmem.c:80-83 | one missing table: cleared before it is linked, referred to once |
| `Paging.Pager.KmemMap` | klib/kmem.c:132-135 | the page is mapped to exactly page|flags, every other page of every root as before, and only tables and unused pages are written |
| `Paging.Pager.KmemSetFlags` | klib/kmem.c:137-140 | the entry keeps its page and gets the flags; all others stay |
| `Paging.Pager.PagingAddrCreate` | kernel/scheduler/mman.c:37-62 | as in the kernel, with every new table counted |
| `Paging.Pager.DecrementPage` | kernel/scheduler/mman.c:245-260 | one less; exactly at the last reference the page goes in front of the list, at zero nothing happens |
| `Paging.Pager.MmanAnonymous` | kernel/scheduler/mman.c:64-82 | every address of the range is seen present, writable and non-executable on a page that came from the list, each page on its own and counted once; what was mapped there before is lost, once for each mapping, and nothing else is; no other place, and nothing another root owes, changes; a root whose tables are all linked open keeps that |
| `Paging.Pager.MmanUnmap` | kernel/scheduler/mman.c:186-210 | nothing in the range is mapped, every page is counted less by as often as it was mapped there, and the list gained exactly the pages whose count became zero |
| `Paging.Pager.MmanProtect` | kernel/scheduler/mman.c:212-238 | mapped pages of the range keep their page and get the flags, unmapped ones stay unmapped; with flags that say present nothing is lost, with others exactly the pages of the range are |
| `Paging.Pager.MmanMirror` | kernel/scheduler/mman.c:156-184 | refused, with nothing changed, exactly if a target page is mapped or a source page is not; otherwise each target page has the entry of its source page, and counts rise by how often each page was mirrored |
| `Paging.Pager.CopyEntries` | kernel/scheduler/mman.c:170-183 | the loop of a mirror request |
| `Paging.Pager.MmanCheckAllMapped` | kernel/scheduler/mman.c:107-132 | one if and only if every page of the range is mapped |
| `Paging.Pager.MmanCheckAnyMapped` | kernel/scheduler/mman.c:134-154 | one if and only if some page of the range is mapped |
| `Paging.Pager.Run` | kernel/scheduler/mman.c:23-366 | for every interleaving of range operations on private ranges with making, acquiring and releasing roots, every step has exactly its effect, and after each one every page is counted exactly as often as the live roots lead to it plus what was lost; every root made has the kernel's regions as the manager's root has them; an operation for which the list is too short is refused and changes nothing |
| `PageRuns.PassedOnly` | kernel/scheduler/mman.c:64-366 | in any run: unmapping, protecting and releasing are always carried out; fresh pages are refused only with fewer than 4 unused pages for each page asked, a mirror with fewer than 3, a new root with fewer than 9, acquiring only for a root there is not |
| `PageRuns.LowerHalfAllowed` | kernel/scheduler/mman.c:64-238 | where roots share only the upper half of the address space, every operation on the lower half may be part of a run |
| `Paging.Pager.Perform` | kernel/scheduler/mman.c:64-366 | one operation of a run has its effect and leaves roots, counts, tables and list in order |
| `Paging.Pager.ImportHelper` | kernel/scheduler/mman.c:338-354 | counts every page met below a table once per path |
| `Paging.Pager.ImportRoot` | kernel/scheduler/mman.c:356-366 | the root and all it leads to are counted, once per path; the root gets a new id; what every root owes is counted as before, whether it shares tables or not |
| `Paging.Pager.RemoveHelper` | kernel/scheduler/mman.c:295-312 | counts everything below a table back; a table is still counted, hence not on the list, when its words are read |
| `Paging.Pager.DropRoot` | kernel/scheduler/mman.c:321-327 | the root's own share of all counts is taken back, whatever it shares with other roots; pages nobody counts any more are on the list, and what other roots map and owe stays |
| `Paging.Pager.DecrementRoot` | kernel/scheduler/mman.c:314-328 | the last reference takes the root down, and its own tables with it; any other only counts; without a reference nothing happens |
| `Paging.Pager.IncrementRoot` | kernel/scheduler/mman.c:290-293 | one more reference |
| `Paging.Pager.ImportAndDrop` | kernel/scheduler/mman.c:295-366 | importing a root and dropping its last reference restores the count of every page; the pages no longer counted are on the list once each and no other page came to it |
| `Paging.Pager.NothingOwed` | kernel/scheduler/mman.c:314-366 | when no root is left, every count is what it was before the first import, plus what was lost |
| `Paging.Pager.KmemCreateRoot` | klib/kmem.c:100-130 | walks of the new root reach the five entries of the kernel's regions and find there the words that walks of the current root found before; every address of the four 2 MB regions translates under the new root as it did under the current one; all tables of the new root are linked open, every table it needed came from the list, every other root is as before |
| `Paging.Pager.ShareEntry` | klib/kmem.c:112-115 | one region: the new root gets the tables on the way, cleared, and then the word of the current root's entry; what was copied before stays copied |
| `Paging.Pager.MmanMakeRoot` | kernel/scheduler/mman.c:266-270 | a root made and taken over is one more live root, has the kernel's regions as the current root has them, and owes the pages taken for it; what other roots map and owe stays |
| `PageRoots.KernelCopied` | klib/kmem.c:106-127 | the words copied one after the other are all there at the end, and through them the regions are seen alike |
| `PageRoots.RegionSame` | klib/kmem.c:112-127 | where a region hangs from the same word and the table behind it was not written, each of its addresses translates alike |
| `PageRoots.KernelOn` | klib/task.c:35-90 | the kernel stays visible in a root while a program is loaded into it |
| `Paging.Pager.MmanInit` | kernel/scheduler/mman.c:23-35 | from the list alone: both roots are counted, shared pages for both, the invariant holds, and if the kernel's regions are mapped and shared as they should be, a run may start |
| `PageRuns.UntargetedStays` | kernel/scheduler/mman.c:64-366 | in any run, a place that no operation targets is mapped at the end as at the start, as long as its root lives |
| `PageRuns.LifeReturns` | kernel/scheduler/mman.c:266-366 | from the making of a root, through any operations on it, to the release of its last reference: every count is what it was, and the list holds the pages it held, each as often, if nothing was lost on the way |
| `PageRuns.UnusedIff` | kernel/scheduler/mman.c:245-260 | a page is on the list if and only if it is under management and neither base, loss nor any live root counts for it; and every count is the sum of the three |
| `PageRuns.UnusedUnreachable` | kernel/scheduler/mman.c:245-260 | a page on the list is no table, and no way from any live root leads to it, through shared tables or others |
| `PageOwed.VisitsWrite` | kernel/scheduler/mman.c:338-354 | one entry written changes the pages met below any table by what the entry led to and leads to now, as often as the walk comes by it |
| `PageLedger.TotalWrite` | kernel/scheduler/mman.c:338-354 | one entry written changes what all live roots owe together by exactly that entry's share, and nothing for other roots |
| `PageLedger.TableOwed` | kernel/scheduler/mman.c:49-52 | a new table is owed exactly once |
| `PageLedger.LeafOwed` | kernel/scheduler/mman.c:75-76 | a page entry written: the page it led to is owed once less, the page it leads to once more |
| `PageLedger.PushOwed` | klib/kmem.c:24-27 | a page nobody owes goes to the list and nothing owed changes |
| `PageLedger.BuiltTwice` | klib/kmem.c:78-87 | building tables twice: everything above the page entries is either as at first or a new table linked open |
| `PageLedger.WalkRights` | klib/kmem.c:83 | under a root whose tables are linked open, every entry on the way to a page is present, writable, for user code and executable, so the page's own entry decides |
| `PageLedger.TableMet` | kernel/scheduler/mman.c:338-354 | every table of a root, and all below it, is met from that root |
| `PageLedger.PageMet` | kernel/scheduler/mman.c:338-354 | every page mapped under a root is met from that root |
| `PageBooks.TableStep` | kernel/scheduler/mman.c:49-52 | linking and counting a new table keeps the books even |
| `PageBooks.PlaceStep` | kernel/scheduler/mman.c:74-76 | mapping and counting a page from the list keeps the books even; what was mapped there is lost |
| `PageBooks.ShareStep` | kernel/scheduler/mman.c:174-180 | mapping a page once more and counting it keeps the books even |
| `PageBooks.FlagStep` | kernel/scheduler/mman.c:225-231 | changed flags keep the books even, with the page lost if they say absent |
| `PageBooks.DropStep` | kernel/scheduler/mman.c:195-203 | clearing an entry and counting its page back keeps the books even, the last reference included |
| `PageBooks.LastReference` | kernel/scheduler/mman.c:254-259 | when a page has count one and an entry leads to it, nothing else does: once counted back it may go to the list |
| `PageRoots.RootMade` | kernel/scheduler/mman.c:266-270 | a root grown out of unused pages and then counted keeps the books even; no other root owes more or less |
| `PageRoots.CutStructured` | kernel/scheduler/mman.c:320-327 | the tables of the other roots are in order after one root is taken down, although pages of it are being reused as list links |
| `PageRoots.DroppedWhole` | kernel/scheduler/mman.c:320-327 | taking a root down keeps the whole invariant |
| `RefCounts.Counts.Increment` | kernel/scheduler/mman.c:240-243 | on the search tree: one more for the page, all other counts stay |
| `RefCounts.Counts.Decrement` | kernel/scheduler/mman.c:245-260 | on the search tree: one less, and the page let go exactly at the last reference |
| `RefCounts.Counts.Run` | kernel/scheduler/mman.c:240-260 | any sequence of both gives the counts, and lets go the pages, that a map of counts would |
| `PageTables.WalkTells` | klib/kmem.c:36-66 | the recursive walk finds the entry exactly when the tables on the way exist |
| `PageTables.EntryFields` | klib/kmem.h:8-13 | page and flag bits of an entry do not interfere |
| `PageRange.SamePlace` | klib/kmem.c:39-44 | two addresses use the same entry if and only if their page numbers agree |
| `PageRange.PagesDiffer` | kernel/scheduler/mman.c:70-79 | the pages of a range within the address span have different entries |
| `PageFacts.OneTranslation` | klib/kmem.c:132-135 | mapping a page changes the translation of that page under that root and of no other |
| `PageFacts.OtherTranslations` | kernel/scheduler/mman.c:64-238 | an operation on a range changes the translation of no page outside it |
| `PageFacts.FreshSeen` | kernel/scheduler/mman.c:73-79 | every address of a range of fresh pages is seen present, writable and not executable, on a page from the list |
| `PageFacts.StrangersKept` | klib/kmem.c:132-140 | a root whose walk reads none of the pages written translates as before |
| `PageWorld.PushOk` | klib/kmem.c:24-27 | putting a page nothing leads to on the list keeps tables and list well formed |
| `PageWorld.PopOk` | klib/kmem.c:29-34 | taking a page keeps them well formed and leaves the page unreferenced |
| `PageWorld.AddTableOk` | klib/kmem.c:80-83 | linking a cleared table keeps the tables a forest |
| `PageWorld.LeafOk` | klib/kmem.c:134 | writing a page entry keeps tables and list well formed |
| `PageSteps.FreedStep` | kernel/scheduler/mman.c:245-260 | one dropped mapping frees its page exactly at the last count |
| `PageSteps.LoweredStep` | kernel/scheduler/mman.c:195-203 | one more page of the range is counted back |
| `PageSteps.RaisedStep` | kernel/scheduler/mman.c:174-180 | one more page of the range is counted |
| `PageSteps.MirrorsStep` | kernel/scheduler/mman.c:170-183 | one more target page has the entry of its source |
| `PageSteps.FreshStep` | kernel/scheduler/mman.c:70-79 | one more page of the range is fresh and its own |
| `PageSteps.ReflagTwice` | kernel/scheduler/mman.c:225-231 | flags set last win, the page stays |
| `PageVisits.VisitsSame` | kernel/scheduler/mman.c:338-354 | the pages met below a table depend only on the words of the tables met |
| `PageVisits.TotalLess` | kernel/scheduler/mman.c:320-327 | what all roots owe splits into the share of one and the rest |
| `PageVisits.DroppedOne` | kernel/scheduler/mman.c:245-260 | counting one page back |
| `KmemInit.Initialise` | kernel/kmem.c:11-50 | afterwards a page is wanted (wholly inside a region, above 0x20000, outside the kernel image) if and only if it is on the list, holds the list head, or became a table on the way to it; no page is on the list twice, and moving the head loses none |
| `KmemInit.RoundRegions` | kernel/kmem.c:13-25 | every region is rounded to whole pages in place |
| `KmemInit.UnuseRegions` | kernel/kmem.c:27-40 | the list holds exactly the wanted pages |
| `KmemInit.RoundedToMark` | kernel/kmem.c:14-24 | rounding turns a region into the end mark if and only if it starts at 0 and is shorter than a page |
| `KmemInit.InsideRounded` | kernel/kmem.c:14-24 | a page lies inside the rounded region if and only if it lies inside the given one, also where rounding makes the length wrap |
| `Loader.TaskLoadElf` | klib/task.c:35-90 | under a root of its own, made on the way, every byte of every loaded segment translates to a page that holds the file byte below p_filesz and zero up to p_memsz; a segment that is executable or not writable is mapped user-readable, not writable and executable (bits 0 and 2), any other and the stack writable and non-executable (bits 0, 1 and 63), and the tables above grant all of that; the kernel's regions are seen as under the current root; no page of any other root is mapped differently and nothing but unused pages and tables is written |
| `Loader.LoadProgram` | klib/task.c:40-89 | the same under a root that is there, for any program whose pages are the root's own |
| `Loader.ShownGuarded` | klib/task.c:76-85 | the bits of the entry behind every byte of a program, as its header's flags call for them |
| `Loader.WaysOpen` | klib/task.c:40-86 | no table above a page of the program takes a right away |
| `Loader.NumbersInWord` | clib/elf.h:580-589 | numbers of two, four and eight bytes in an aligned word, low byte first, are its low part, its low or high half, and the word itself |
| `Loader.HeaderWords` | clib/elf.h:86-102 | entry point, program header offset and count by words of the file header |
| `Loader.SegmentWords` | clib/elf.h:580-589 | the fields of a program header by its words |
| `Loader.LowerHalfClear` | klib/task.c:38-64 | in the new root no page of the lower half lies in a table that is shared with the kernel |
| `Loader.LoadSegment` | klib/task.c:56-86 | one segment; what was loaded before stays |
| `Loader.MapRange` | klib/task.c:63-66 | every page that the segment touches, and no other, is new |
| `Loader.ReflagRange` | klib/task.c:78-85 | exactly the pages of the range get the flags |
| `Loader.FillSegment` | klib/task.c:68-74 | file bytes, then zeros, at their addresses; no other byte of the program changes |
| `Loader.MapStack` | klib/task.c:40-49 | the stack pages, downwards from the top |
| `Loader.KmemMemcpy` | klib/kmem.c:142-165 | bytes arrive at their virtual addresses across pages, up to the first page without a table, and no other byte changes |
| `Loader.KmemMemclr` | klib/kmem.c:167-188 | the same for zeros |
| `Loader.AllShown` | klib/task.c:53-86 | what was built page by page is what the tables translate to |
| `Loader.SegmentDone` | klib/task.c:56-86 | mapping, filling and re-flagging compose |
| `Loader.SegmentStays` | klib/task.c:56-86 | a loaded segment survives the loading of others |
| `Loader.SameImage` | klib/task.c:53-57 | the headers read are those of the image as it was, although memory is being written |
| `UserSpace.CopyPiece` | klib/kmem.c:145-164 | one piece of a cross-page copy |
| `UserSpace.PageAdded` | klib/task.c:63-66 | a new page disturbs no page of the program |
| `UserSpace.SeenThrough` | klib/kmem.c:36-66 | what the walk finds for any address of a page |
| `Avl.AvlTree.Insert` | clib/avl.c:113-158 | the map gains the pair, the replaced value comes back, and at most one node is new; a balanced tree stays balanced |
| `Avl.AvlTree.Remove` | clib/avl.c:160-230 | the map loses the key, its value comes back, and one node is freed if the key was there, none otherwise; a balanced tree stays balanced if and only if the key is safe to remove |
| `Avl.AvlTree.Search` | clib/avl.c:97-111 | looks the key up in the map |
| `Avl.AvlTree.TreeDepth` | clib/avl.c:296-299 | the height or one more; in a balanced tree of n keys at most 2 log2(n + 1) + 1 |
| `Avl.AvlTree.Run` | clib/avl.c:97-230 | every sequence of operations gives the answers of a finite map; if it started balanced and every removal was safe when it was made, it ends balanced |
| `Avl.AvlTree.Perform` | clib/avl.c:97-230 | one operation of a run |
| `Avl.InsertHelper` | clib/avl.c:117-158 | below any link the nodes become the tree that AvlPlan.Inserted makes of them, with links and depths in order and at most one new node |
| `Avl.RemoveHelper` | clib/avl.c:164-230 | the same for AvlPlan.Removed; the node freed is no longer linked |
| `Avl.TakeNode` | clib/avl.c:178-218 | the contents of the node found, and nothing else, disappear in all four cases |
| `Avl.TakeGreatest` | clib/avl.c:186-201 | the greatest pair on the left moves up and its node is cut out; all others stay in order |
| `Avl.FindGreatest` | clib/avl.c:188-189 | the loop finds the last node on the way right and the link that leads to it |
| `Avl.RemoveDepthHelper` | clib/avl.c:232-237 | depths down the right spine are consistent again, contents and order stay |
| `Avl.Rebalance` | clib/avl.c:239-255 | contents and nodes stay in order, links and depths are in order; no null child is followed |
| `Avl.RotateLeft` | clib/avl.c:257-278 | the links and both depths of the rotated tree, with the contents in the order they were in |
| `Avl.RotateRight` | clib/avl.c:257-278 | the same to the other side |
| `Avl.UpdateDepth` | clib/avl.c:287-294 | stored depths are consistent again: 2 where there is no child, else one more than the deeper child |
| `Avl.SearchFrom` | clib/avl.c:97-111 | the loop finds what is stored |
| `Avl.Balance` | clib/avl.c:280-285 | the balance factor is the difference of stored depths, so the deeper side is not empty |
| `Avl.CutLast` | clib/avl.c:186-201 | cutting the last node out below the node above it |
| `AvlPlan.DepthNearHeight` | clib/avl.c:287-299 | consistent depths are the true height or one more |
| `AvlPlan.RebalancedOk` | clib/avl.c:239-278 | rotation keeps stored depths consistent |
| `AvlPlan.FlatRebalanced` | clib/avl.c:239-278 | rotation moves nothing in the order |
| `AvlPlan.InsertedIsInsert` | clib/avl.c:117-158 | for every total order the contents are those of a sorted insertion |
| `AvlPlan.RemovedIsRemove` | clib/avl.c:164-230 | for every total order the contents are those of a sorted removal |
| `AvlPlan.FoundIsFind` | clib/avl.c:97-111 | following the comparator finds what the sorted contents hold |
| `AvlPlan.FlatTaken` | clib/avl.c:178-227 | taking a node out leaves what was left and right of it |
| `AvlBalance.InsertedBalanced` | clib/avl.c:117-158 | insertion keeps the stored depths of the two sides of every node within one, and the tree becomes at most one deeper |
| `AvlBalance.RemovedBalanced` | clib/avl.c:164-230 | removal keeps that if and only if the key is safe to remove: a condition on the end of the path in the tree as it is, for keys that are there and keys that are not |
| `AvlBalance.RemovedLeaves` | clib/avl.c:164-237 | besides, how much deeper or less deep a removal leaves the tree, balanced or not |
| `AvlBalance.WorkedBalanced` | clib/avl.c:113-230 | a run of any operations keeps the balance throughout if and only if every key was safe when it was removed; so insertions alone always do |
| `AvlBalance.FinishedFine` | clib/avl.c:239-255 | two balanced sides at most two apart come out balanced, except where the deeper is a single node and the other empty |
| `AvlBalance.RaisedFine` | clib/avl.c:243-248 | rotation mends a side that is two deeper, whichever way it leans, unless it is a single node |
| `AvlBalance.UnevenStays` | clib/avl.c:239-255 | a side that is not balanced and no deeper than it was is mended by no rotation |
| `AvlBalance.MarredStays` | clib/avl.c:239-255 | one that has become deeper is mended exactly by a rotation against a sibling that stores 1 |
| `AvlBalance.TrimmedBalanced` | clib/avl.c:186-201 | cutting out the greatest node on the left keeps the balance exactly where no node on the way leans to the left too much for the loss |
| `AvlBalance.HeightsClose` | clib/avl.c:287-299 | in a balanced tree the true heights of two sides differ by at most two |
| `AvlBalance.LowTree` | clib/avl.c:287-299 | a balanced tree of n nodes has a stored depth d with 2^(d/2) at most n + 1 |
| `AvlBalance.AbsentKeyUnbalances` | clib/avl.c:222-227 | after 2 and 4, the removal of 6, which is not there, unbalances the tree |
| `AvlBalance.LeafUnbalances` | clib/avl.c:215-227 | after 2, 1, 3 and the removal of 4, which is not there, the removal of 1 does |
| `AvlBalance.HeightsTwoApart` | clib/avl.c:287-294 | after 6, 5, 4, 3, 2, 1 the true heights differ by two |
| `AvlSpec.InsertIsUpdate` | clib/avl.c:117-158 | sorted insertion is map update, for every total order |
| `AvlSpec.RemoveIsMinus` | clib/avl.c:164-230 | sorted removal is removal from the map |
| `AvlSpec.FindIsLookup` | clib/avl.c:97-111 | sorted search is map lookup |
| `Comm.Ring.Run` | clib/comm.c:81-112 | a run gives the answers of a bounded queue of byte strings, across all wrap positions, if and only if no put meets an exactly full ring that it would fit when empty and no packet is fetched into too small a buffer |
| `Comm.Ring.Perform` | clib/comm.c:81-112 | one operation answers as the queue does if and only if it is fair, and then the ring holds what the queue holds |
| `Comm.Ring.Put` | clib/comm.c:81-93 | accepted if and only if the frame fits what the ring takes to be free, an exactly full ring being taken for an empty one; the ring stays well formed if and only if it was not full and the length fits its word, or nothing was stored |
| `Comm.Ring.Peek` | clib/comm.c:95-112 | the oldest packet; with too small a buffer it is lost, and the ring stays well formed if and only if the skip does not wrap |
| `Comm.Ring.PutData` | clib/comm.c:43-56 | bytes are written at the end position, split at the wrap |
| `Comm.Ring.GetData` | clib/comm.c:58-70 | bytes are read from the begin position, split at the wrap |
| `Comm.Ring.SkipData` | clib/comm.c:72-79 | after a wrap the position is the size skipped, not where the packet ends |
| `Comm.Ring.Remaining` | clib/comm.c:33-41 | the bytes that no packet takes, except that an exactly full ring counts as empty |
| `Comm.Ring.constructor` | clib/comm.c:8-31 | a ring of a length has 56 bytes less for data, and is empty |
| `Comm.SizedIsFair` | clib/comm.c:81-112 | packets of one size whose frame does not divide the data length never fill the ring exactly |
| `Comm.SchedulerRings` | kernel/scheduler/task.c:92-96 | both rings of the scheduler meet the condition: 1992 bytes of data, frames of 60 and 44 |
| `Comm.FillingIsUnfair` | clib/comm.c:33-41 | every queue that can be filled exactly has a run on which the ring differs |
| `Comm.DividingIsUnfair` | clib/comm.c:33-41 | packets whose frame divides the data length do fill it exactly |
| `Comm.FullTakesMore` | clib/comm.c:33-41 | a ring filled exactly accepts another packet |
| `Comm.SkipMisplaces` | clib/comm.c:72-79 | a skip across the wrap leaves the ring ill-formed |
| `Scheduler.ChooseNext` | kernel/scheduler/scheduler.c:17-42 | the first eligible slot after the current one, else the current one unless it is blocked; eligible are states with bits 0 and 1 set and bit 3 clear, blocked those with bit 3 set |
| `Scheduler.ChoiceUnique` | kernel/scheduler/scheduler.c:17-42 | there is only one such choice |
| `Scheduler.NeverSlotZero` | kernel/scheduler/scheduler.c:26 | slot 0 is never newly chosen |
| `Scheduler.Closer` | kernel/scheduler/scheduler.c:24-39 | every decision while a task is eligible selects it or comes closer to it |
| `Scheduler.ChosenInTime` | kernel/scheduler/scheduler.c:17-42 | a task that stays eligible is chosen within NUM_TASKS - 1 decisions, whatever happens to the others |

## Left out

- Heap: `sys_trim` and `release_unused_segments`, which `dlfree` calls at its thresholds; with the way this kernel obtains memory they release nothing.
- Heap: memory statistics, the footprint limit and mspaces; the configuration does not use them.
- Heap: mmapped chunks, `memalign`, `independent_calloc`, bulk free and locks.
- Heap: the corruption branches (RTCHECK, usage errors); in every valid heap they are never taken, so the model has no such branch.
- Heap: growth beyond 2^40 bytes and addresses that wrap; within the bound more memory is always granted.
- Heap: where the designated victim is split, the front part is tagged first and the rest second; the source does it the other way round.
- HeapRun.Session.Run: the room test of a step is by the worst growth the request may cause, so a step may be refused that a bin could serve; the contracts of the operations themselves ask for the exact growth.
- Paging: `mman_physical`, `mman_get_phy`, `mman_is_root` and the callback on freed pages.
- Paging: concurrent walks by the processor, and its caches of translations.
- Paging: range operations on tables that are shared with other roots; the ranges are those of the root's own tables.
- Paging.Pager.MmanProtect: flags with bits outside the flag mask, which would change the page of an entry.
- Paging.Pager.MmanMirror: only ranges no longer than the address span; longer ones would mirror pages onto themselves.
- Paging.Pager.MmanAnonymous: the exact tally of lost pages is stated for ranges no longer than the address span, as are those of MmanProtect and MmanUnmap.
- Paging.Pager.MmanAnonymous: the rights of whole walks are stated for roots whose tables are all linked with 0x7, as those made here are; an imported root may have others.
- Paging.Pager.KmemGetPage: the source hands out page 0 when the list is exhausted (it says so itself in a TODO); here a caller has pages enough.
- Paging.Pager.Run: counts the list before every operation and refuses without enough pages, which the source does not; it does not release the manager's own root, and importing a root that exists (`mman_import_root`) is proved alone and is no operation of a run.
- Paging.Pager.ImportRoot: the same root table imported twice is covered by `Owing`, not by `Valid`.
- Paging.Pager: the three tables are maps there; `RefCounts` shows the page counts on the search tree.
- Paging.Pager.KmemCreateRoot: the kernel's regions are mapped in the current root down to the tables that are shared.
- Tasks: `sched_task_reap`, `find_available`, `task_create` and the rest of the scheduler's protocol; of the scheduler the choice of the next task is modelled.
- Loader.TaskLoadElf: headers are those of a well-formed image (`filesz` at most `memsz`, addresses in the lower half, no page of two segments); the source checks none of this and neither does the model.
- Loader.TaskLoadElf: image and pages are read and written by physical address, without the window the kernel reads them through.
- KmemInit.Initialise: the memory map is given as regions that do not overlap; the head of the list is a field, not a word of memory, so of its move only the mapping of its new page and that page's absence from the list are shown.
- Paging.Pager.MmanInit: that the tables the boot code leaves can be imported is assumed, not derived from `KmemInit.Initialise`.
- Comm.Ring: two tasks at work on the same ring at once, the multi-writer flag, and an unknown type at initialisation.
- Comm.Ring.Run: packets of 4 GiB and more that would fit, whose length word is cut; `Comm.Ring.Put` says that the ring is not well formed after them.
- Avl.AvlTree: a stored null is not told apart from an absent key in the source; here the answer is an option.
- Avl.AvlTree: comparators that are no total order, destructors for keys, `avl_search_window` and `avl_destroy`.
- Synchronisation, interrupts, devices and the boot code.
