# A verified model of the kernel's core

This project models the parts of the kernel whose correctness rests on invariants that span many functions, and proves
those invariants for every input, every run and every interleaving. It is written in Dafny 4.11;
`dafny verify dfyconfig.toml` checks all of it.

**The kernel heap** (`src/kernel/memory/malloc.c`). `Heap.dfy` follows the code of dlmalloc word by word: head words,
feet, list and tree links live in one word memory, and `malloc_state` is a class whose methods update it in place. The
invariant `Valid` is the one the debug checkers state: chunks tile every segment without gap or overlap, no two free
chunks are neighbours, every pinuse bit and foot is right, the bins hold exactly the free chunks other than dv and top,
the bitwise tries and the two bitmaps agree with them, and the segment list describes the memory obtained.
`Malloc`, `Free`, `Realloc`, `AlignedAlloc` and `Calloc` keep it, never fail a runtime check and disturb no other
block. `HeapRuns.dfy` turns this into statements over runs: whatever callers ask for and wherever the kernel places new
pages, the heap behaves like a store of independent blocks, and every read returns the last value written. `Checkers.dfy`
runs the source's own debug checkers against the invariant: they read nothing but memory and `malloc_state`, and after
any run none of their assertions can fail.
The layers below it are `Memory` (words and head words), `Bitmap`, `SizeClass` (tree-bin classes), `Trie` (keys and
slots), `Rings`, `SmallBins`, `TreeShape`, `TreeBins`, `TreeUnlink`, `TreeSearch`, `FreeIndex` (both kinds of
bins together), `Tiles` (the tiling as a value), `Tags` (the tiling in memory), `HeapCore` and `HeapGrowth` (both together
with the index), `Segments`, `Alignment`, and `Traversal` (the linear walk).

**Page tables and program loading** (`paging.rs`, `elf.rs`). `Paging.dfy` shows that the four-level table refines a
partial map from pages to frames and rights, as the processor's walk reads it; `ElfLoad.dfy` builds the loader on top
and shows what a program sees in memory.

**Concurrency** (`spinlock.rs`, `pipe.rs`, `flutex.rs`, `schedule.rs`). `CountedLock`, `Semaphores`, `Pipes` and
`FutexRuns` are step systems with any number of threads, and their main theorems hold over every run; `FutexOrder` adds
who is served first. `FutexQueues` and `Scheduler` are the loops themselves.

**Streams and layouts** (`md5.rs`, `stack.rs`, `rtc.rs`). `Md5` compares the streaming code with the padded message of
RFC 1321, `Md5Rounds` the unrolled steps with its section 3.4 and `Md5Words` words with their bytes, and `Md5Answer` works
out the first answer of its appendix A.5; `UserStack` reads the initial stack back as the x86-64
psABI, section 3.4.1, lays it out; `RtcTime` compares the calendar loops with the formula of section 4.16 of the
POSIX.1-2017 Base Definitions. `Octets` holds little-endian numbers.

## Where the code does less than one would expect

For each of these a lemma or contract says exactly when the property holds, and a failing input or run is shown or covered
by it.

- `SizeClass.TreeIndexExact`, `TerabyteMisfiled`: the gcc form of compute_tree_index keeps the shifted size in 32 bits,
  so from 2^40 bytes on it may pick a wrong bin.
- `Alignment.NeverReached`, `RoundAlignment`: for an alignment above 2^63 that is no power of two, the doubling loop of
  memalign never ends; up to 2^63 it does.
- `PageTables.FlagsExact`, `FlagsCanMoveFrame`: flags or'ed into a page-table entry can change the frame it names.
- `Semaphores.NeverNegativeExactly`, `OverflowGoesNegative`: enough posts make the count negative.
- `FutexRuns.LostWakeup`, `StuckExactly`, `StuckForever`: WAIT marks its task asleep after the entry is already on the
  queue, so a WAKE in between is lost for good.
- `FutexRuns.StaleTimeout`, `TimesOutExactly`: a wakeup time outlives the WAIT that set it, and an entry whose WAIT timed
  out stays queued; either can end a later WAIT without a limit in ETIMEDOUT.
- `Scheduler.KilledComesBack`, `KilledRunsAgain`: the scheduler's walk wakes any task whose time is due, killed or not.
- `Md5.Context.Final`: md5_final panics when the message length is 56 modulo 64, and its bit count is wrong for some
  splits of messages of 2^29 bytes and more (`Md5.CarriesRightExactly`, `CarriesWrong`).
- `UserStack.UserImage.Generate`: from an aligned stack the initial stack pointer is 16-byte aligned only for an odd number
  of strings.
- `UserStack.LowestExactly`, `LowestMissed`: a load address of 0 is taken for "none yet".

## What is assumed

- The heap is the one `src/kernel/Makefile:47` builds: no mmap, non-contiguous sbrk, 64 KiB granularity, runtime checks
  on. Each public call runs under its lock and is atomic. All pages sbrk ever answers lie in one window of 2^40 bytes of
  the direct map that does not contain `malloc_state`; within it they may come in any order. In this build a failing
  call aborts (`MALLOC_FAILURE_ACTION`); where the kernel would so halt, for want of memory or on a request too large for
  malloc, realloc or memalign, the model returns null and goes on. Callers release and resize only blocks they hold and write only
  inside them.
- A physical frame handed out is free, nonzero and page-aligned; when there is none the model says so where the kernel
  panics.
- WAKE and REQUEUE hold their queue locks throughout, so each is one step; the value test of WAIT, the clock and the
  choice of the next thread are arbitrary.
- The signal code that the scheduler calls is any code that leaves the wakeup time and queue entry of the task alone
  and either keeps its state or kills it, and for which a killed task is not revivable.
- Stack and heap of a new process do not meet: the strings, the vectors and the gap between them fit. Argument strings
  contain no NUL.

## Model

| member | source | states |
|---|---|---|
| Memory.HeadDecodes | src/kernel/memory/malloc.c:2262-2276 | head words built from a 16-byte-multiple size and the two in-use bits decode back to exactly that size and those bits |
| Bitmap.LeastIndex | src/kernel/memory/malloc.c:2938-2957 | least_bit followed by the trailing-zero count names the lowest set bit of a non-zero map: that bit is set and none below it is |
| Bitmap.LeftBitsAbove | src/kernel/memory/malloc.c:2940-2941 | left_bits(idx2bit(i)) has exactly the bits above i |
| SizeClass.TreeIndexClass | src/kernel/memory/malloc.c:2846-2857 | for every size from 256 up to 2^40 the index picks a class i with minsize(i) <= size < minsize(i+1), the last unbounded |
| SizeClass.TreeIndexOnly | src/kernel/memory/malloc.c:2846-2857 | that class is the only one holding the size |
| SizeClass.TreeIndexExact | src/kernel/memory/malloc.c:2846-2857 | for every size from 256 on, the gcc form, which shifts into 32 bits, selects a class that holds the size if and only if size < 2^40 or the truncated quotient is at least 0xC000 |
| SizeClass.TerabyteMisfiled | src/kernel/memory/malloc.c:2846-2857 | a chunk of 2^40 bytes is put into the class of the smallest tree chunks |
| SizeClass.PortableTopBitIsClz | src/kernel/memory/malloc.c:2889-2907 | the portable shift-and-mask top-bit computation equals the clz form on every 16-bit word |
| SizeClass.PortableBitIndexIsCtz | src/kernel/memory/malloc.c:2973-2985 | the portable compute_bit2idx equals the trailing-zero count on every single-bit word |
| Trie.KeyIsOffset | src/kernel/memory/malloc.c:2913-2920 | within a class the shifted key is the scaled offset of the size from the class minimum |
| Trie.KeyMono | src/kernel/memory/malloc.c:2913-2920 | within a class keys order sizes: smaller key if and only if smaller size |
| Trie.LeftIsLess | src/kernel/memory/malloc.c:2366-2401 | among keys sharing a trie slot the one whose next bit is 0 is smaller |
| Trie.KeyEq | src/kernel/memory/malloc.c:2366-2401 | sixty-four levels of key bits tell all keys apart, so a trie never needs to be deeper |
| Rings.RingInsert | src/kernel/memory/malloc.c:3578-3594 | linking a node in after the head of a circular doubly linked list gives the ring with exactly that node added; a stale one-element ring needs no valid links |
| Rings.RingRemove | src/kernel/memory/malloc.c:3597-3620 | unlinking any element but the head gives the ring of the others in order |
| SmallBins.InsertSmall | src/kernel/memory/malloc.c:3578-3594 | after insert_small_chunk every small bin is well formed, map bits say exactly which bins are non-empty, and the stock grew by exactly the chunk |
| SmallBins.UnlinkSmall | src/kernel/memory/malloc.c:3597-3620 | after unlink_small_chunk, which leaves stale header links when a bin empties, every bin is well formed and the stock lost exactly the chunk |
| TreeShape.Attach | src/kernel/memory/malloc.c:3663-3683 | hanging a new size at the free slot its key leads to keeps path bits, parent and child links and one node per size in all 32 tries |
| TreeShape.Detach | src/kernel/memory/malloc.c:3740-3752 | nulling the one word that reaches a leaf removes exactly that size |
| TreeShape.Substitute | src/kernel/memory/malloc.c:3754-3792 | a node may be replaced in place by any chunk whose key passes through its slot, as the rightmost leaf's does |
| TreeBins.InsertNewSize | src/kernel/memory/malloc.c:3656-3688 | insert_large_chunk at a free slot: tries, same-size rings and tree map stay consistent and the stock grows by exactly the chunk |
| TreeBins.InsertChained | src/kernel/memory/malloc.c:3689-3697 | insert_large_chunk for a size already stored: the chunk joins that size's ring and the tries do not change |
| TreeUnlink.UnlinkChained | src/kernel/memory/malloc.c:3724-3733 | unlinking a chunk chained off a node: only its ring changes |
| TreeUnlink.UnlinkToChain | src/kernel/memory/malloc.c:3724-3792 | unlinking a node that heads a longer ring: its bk neighbour takes over the slot |
| TreeUnlink.UnlinkToLeaf | src/kernel/memory/malloc.c:3738-3792 | unlinking the last chunk of a size that has children: the rightmost leaf moves into its slot |
| TreeUnlink.UnlinkLeaf | src/kernel/memory/malloc.c:3738-3759 | unlinking the last chunk of a size at a leaf: its slot empties, and the map bit clears exactly when the trie empties |
| TreeSearch.PathStep | src/kernel/memory/malloc.c:4452-4469 | one step of the first search loop leaves every fitting size of the class either considered, on the path ahead or in the remembered right subtree |
| TreeSearch.LeftmostStep | src/kernel/memory/malloc.c:4481-4488 | moving to the leftmost child loses no candidate smaller than the best so far |
| TreeSearch.StartAtClass | src/kernel/memory/malloc.c:4471-4479 | restarting at the lowest non-empty higher class misses nothing that fits |
| FreeIndex.PutSmall | src/kernel/memory/malloc.c:3578-3594 | small bins, tries, rings and both maps together survive insert_small_chunk and the whole stock grows by exactly the chunk |
| FreeIndex.TakeSmall | src/kernel/memory/malloc.c:3597-3640 | the same for the two small unlinks, the stock shrinking by exactly the chunk |
| FreeIndex.PutLargeNew | src/kernel/memory/malloc.c:3656-3688 | the same for insert_large_chunk at a free slot |
| FreeIndex.PutLargeChained | src/kernel/memory/malloc.c:3689-3697 | the same for insert_large_chunk of a stored size |
| FreeIndex.TakeChained | src/kernel/memory/malloc.c:3724-3733 | the same for unlink_large_chunk of a chained chunk |
| FreeIndex.TakeToChain | src/kernel/memory/malloc.c:3724-3792 | the same when the ring takes over the node |
| FreeIndex.TakeToLeaf | src/kernel/memory/malloc.c:3738-3792 | the same when a leaf moves up |
| FreeIndex.TakeLeaf | src/kernel/memory/malloc.c:3738-3759 | the same when the slot empties |
| Tiles.Rep1Tiled | src/kernel/memory/malloc.c:3226-3306 | replacing the chunks of a bounded range by one chunk keeps the tiling: aligned, gapless, no two free neighbours, pinuse bits right |
| Tiles.Rep2Tiled | src/kernel/memory/malloc.c:3226-3306 | the same for two chunks |
| Tiles.Predecessor | src/kernel/memory/malloc.c:3271-3289 | a clear pinuse bit means that a free chunk ends exactly here |
| Tags.Rep1Tagged | src/kernel/memory/malloc.c:2290-2301 | writing one head, its foot if free and the successor's pinuse bit re-tags the range as that one chunk |
| Tags.Rep2Tagged | src/kernel/memory/malloc.c:2290-2301 | the same for two chunks |
| Tags.TagWritesMiss | src/kernel/memory/malloc.c:2060-2169 | tag writes touch no payload of a live chunk outside the range, its last word, which doubles as the next prev_foot, included |
| HeapCore.Around | src/kernel/memory/malloc.c:4371-4437 | what the head words around an in-use chunk say is what the tiling says, so the branches of dispose_chunk test what they mean to |
| HeapCore.Preceding | src/kernel/memory/malloc.c:4373-4384 | prev_foot under a clear pinuse bit is the size of the free chunk before |
| HeapCore.CorePayload | src/kernel/memory/malloc.c:2195-2211 | a store anywhere in a live payload changes nothing the heap relies on |
| HeapGrowth.CoreGrow | src/kernel/memory/malloc.c:4211-4217 | a grant adjacent to top extends it and keeps the whole invariant |
| HeapGrowth.CorePrependSplit | src/kernel/memory/malloc.c:3948-3960 | a grant below a segment becomes an allocated chunk and a remainder, keeping the whole invariant |
| HeapGrowth.CoreClose | src/kernel/memory/malloc.c:3990-4036 | the old top turns into a free chunk and a segment record, or just the record, keeping the whole invariant |
| Traversal.WalkAddsUp | src/kernel/memory/malloc.c:3431-3459 | following sizes from any chunk meets only chunks before the place where the walk stops, and the sizes met add up to the distance walked; where it stops in each segment is stated by Checkers.SegmentAccounted |
| Traversal.WalkFlags | src/kernel/memory/malloc.c:3439-3453 | consecutive chunks of the walk are never both free, and the second's pinuse bit says whether the first is in use |
| Traversal.WalkCovers | src/kernel/memory/malloc.c:3431-3459 | every chunk is met on the walk from the first chunk of some segment |
| Heap.Heap.constructor | src/kernel/memory/malloc.c:2590-2617 | a zeroed malloc_state is a valid heap without blocks |
| Heap.Heap.InsertSmallChunk | src/kernel/memory/malloc.c:3578-3594 | the code of insert_small_chunk: index still consistent, stock grown by exactly the chunk, only index words written |
| Heap.Heap.UnlinkSmallChunk | src/kernel/memory/malloc.c:3597-3620 | the code of unlink_small_chunk: stock without exactly the chunk, no check fails |
| Heap.SmallUnlinked | src/kernel/memory/malloc.c:3597-3620 | the two checks on the neighbours hold, and unlinking leaves the index of exactly the other chunks |
| Heap.Heap.UnlinkFirstSmallChunk | src/kernel/memory/malloc.c:3623-3640 | the code of unlink_first_small_chunk: the same for the first chunk of a non-empty bin |
| Heap.Heap.InsertLargeChunk | src/kernel/memory/malloc.c:3656-3705 | the code of insert_large_chunk with its search loop, which ends: stock grown by exactly the chunk |
| Heap.SearchStep | src/kernel/memory/malloc.c:3673-3678 | one round of the search compares the size, or follows the next key bit to a node nearer the size, or has found the free place where the size belongs |
| Heap.Heap.InsertBelowRoot | src/kernel/memory/malloc.c:3670-3704 | the search loop alone, from a non-empty root |
| Heap.Heap.PlaceBelow | src/kernel/memory/malloc.c:3678-3683 | the chunk of a new size goes to the free place found; stock grown by exactly the chunk, no check fails |
| Heap.Heap.ChainTo | src/kernel/memory/malloc.c:3689-3697 | the chunk of a stored size joins its ring; stock grown by exactly the chunk, no check fails |
| Heap.Heap.FindLeaf | src/kernel/memory/malloc.c:3740-3746 | the loop to the rightmost leaf ends at a leaf of the subtree, with the word that points at it |
| Heap.Heap.Relink | src/kernel/memory/malloc.c:3754-3792 | whatever pointed at the unlinked node, and its children, now agree on the replacement |
| Heap.Heap.UnlinkLargeChunk | src/kernel/memory/malloc.c:3724-3793 | the code of unlink_large_chunk, all four cases: stock without exactly the chunk, no check fails |
| Heap.Heap.InsertChunk | src/kernel/memory/malloc.c:3797-3799 | insert_chunk by size: one loose free chunk goes back to the index |
| Heap.Heap.UnlinkChunk | src/kernel/memory/malloc.c:3801-3803 | unlink_chunk by size: one indexed chunk becomes loose |
| Heap.Heap.SmallestOfSubtree | src/kernel/memory/malloc.c:4481-4488 | the loop over leftmost children ends with the smallest fitting chunk of everything covered |
| Heap.Heap.FollowPath | src/kernel/memory/malloc.c:4448-4470 | the loop along the request's own bits ends having considered the path and remembered the deepest untaken right subtree |
| Heap.Heap.FindBestFit | src/kernel/memory/malloc.c:4442-4488 | the search of tmalloc_large returns the smallest binned chunk of at least nb bytes, or none exactly when there is none |
| Heap.Heap.FindSmallestLarge | src/kernel/memory/malloc.c:4513-4528 | the search of tmalloc_small returns the smallest chunk of all tries |
| Heap.Heap.TmallocLarge | src/kernel/memory/malloc.c:4442-4510 | takes the best binned fit, declining exactly when there is none or dv fits at least as well; the unsigned wrap included |
| Heap.Heap.TmallocSmall | src/kernel/memory/malloc.c:4513-4548 | takes the smallest tree chunk, its remainder becoming dv |
| Heap.Heap.SetSizeAndPinuseOfFree | src/kernel/memory/malloc.c:2295-2297 | the head and foot written are those of a free chunk after an in-use one |
| Heap.Heap.SetFreeWithPinuse | src/kernel/memory/malloc.c:2299-2301 | and the successor's pinuse bit is cleared |
| Heap.Heap.UseWhole | src/kernel/memory/malloc.c:3067-3070 | set_inuse_and_pinuse on a free chunk: it becomes live and every other live chunk keeps its contents |
| Heap.Heap.UseFront | src/kernel/memory/malloc.c:3072-3073 | a live front and a loose free rest, every other live chunk keeping its contents |
| Heap.Heap.ReplaceDv | src/kernel/memory/malloc.c:3642-3651 | the old dv goes to its bin and the new one is dv |
| Heap.Heap.AbsorbPrevious | src/kernel/memory/malloc.c:4373-4399 | backward consolidation: where the chunk to free begins, its predecessor out of its bin unless it is dv |
| Heap.Heap.FreeIntoTop | src/kernel/memory/malloc.c:4402-4411 | consolidation into top |
| Heap.Heap.FreeIntoDv | src/kernel/memory/malloc.c:4412-4417 | consolidation with dv behind |
| Heap.Heap.FreeAfterDv | src/kernel/memory/malloc.c:4389-4393 | dv in front grows when the successor is in use |
| Heap.Heap.FreeWithNext | src/kernel/memory/malloc.c:4418-4427 | consolidation with a binned chunk behind |
| Heap.Heap.JoinFree | src/kernel/memory/malloc.c:4418-4427 | everything from the start of the freed range to the end of the unlinked successor becomes one free chunk, dv if it starts there |
| Heap.Heap.FreeAlone | src/kernel/memory/malloc.c:4429-4432 | a chunk between chunks in use |
| Heap.Heap.ConsolidateForward | src/kernel/memory/malloc.c:4400-4437 | the forward half, all branches |
| Heap.Heap.DisposeChunk | src/kernel/memory/malloc.c:4371-4437 | the invariant holds again, the live map loses exactly the chunk, all other payloads are untouched, no check fails |
| Heap.Heap.FreeMem | src/kernel/memory/malloc.c:4708-4791 | the body of dlfree at the level of chunks, no check fails |
| Heap.Heap.Free | src/kernel/memory/malloc.c:4690-4797 | free(0) does nothing; otherwise exactly that block disappears, every other keeps its contents, and the usage-error branch is not reached; dv only grows, unless top swallows it, and no freed chunk becomes dv anew |
| Heap.Heap.TakeLarge | src/kernel/memory/malloc.c:4491-4505 | split or use up the chunk found, binning the remainder |
| Heap.Heap.TakeBest | src/kernel/memory/malloc.c:4492-4505 | the best fit leaves its bin and is carved, its remainder binned; both checks hold |
| Heap.Heap.TakeSmallest | src/kernel/memory/malloc.c:4530-4543 | split or use up the chunk found, the remainder becoming dv |
| Heap.Heap.UseFirst | src/kernel/memory/malloc.c:4590-4601 | the remainderless small fit |
| Heap.Heap.SplitFirst | src/kernel/memory/malloc.c:4603-4627 | the first chunk of a small bin carved to the request, the remainder becoming dv |
| Heap.Heap.SmallFit | src/kernel/memory/malloc.c:4583-4635 | the best-fitting binned chunk carved, an exact fit while dv would do, and its remainder made dv; or 0 with nothing changed, and then nothing binned fits, or while dv would do nothing exactly |
| Heap.Heap.FromDv | src/kernel/memory/malloc.c:4646-4664 | dv gives its front and keeps the rest, or is used up when less than a minimal chunk would remain |
| Heap.Heap.FromTop | src/kernel/memory/malloc.c:4666-4676 | split top |
| Heap.TopCut | src/kernel/memory/malloc.c:4666-4676 | cutting a block off the front of top keeps the whole invariant, and the block is fresh |
| Heap.FreedIntoTop | src/kernel/memory/malloc.c:4402-4411 | letting top start at the freed range keeps the whole invariant; dv is forgotten exactly when it was that range |
| Heap.Heap.FromBins | src/kernel/memory/malloc.c:4583-4644 | the bin half of dlmalloc: a fresh block carved from the best-fitting binned chunk, an exact fit or one smaller than dv while dv would do; or nothing changed and no such chunk exists |
| Heap.Heap.FromRest | src/kernel/memory/malloc.c:4646-4680 | once the bins decline: dv if large enough, else top, else the system; what is left of dv or top stays where it is |
| Heap.Heap.Malloc | src/kernel/memory/malloc.c:4552-4686 | a fresh block, 16-byte aligned, of at least the request plus header and less than a minimal chunk more; all other blocks keep their contents; where it comes from: a small request takes an exact fit from the bins, else dv if large enough, else the best binned fit, else top, and a large one the best binned fit if smaller than a dv that would do, else dv, else top; the rest of a binned chunk becomes dv for a small request and is binned for a large one, dv and top keep theirs; only when none of these would do is the system asked or does the call fail, which it always does from MAX_REQUEST on |
| Heap.Heap.SegmentHolding | src/kernel/memory/malloc.c:2709-2717 | the loop returns the segment containing the address, or none |
| Heap.Heap.FindSegmentEndingAt | src/kernel/memory/malloc.c:4207-4210 | the loop returns the first segment ending at the grant, or none |
| Heap.Heap.FindSegmentAt | src/kernel/memory/malloc.c:4221-4223 | the loop returns the first segment starting at the end of the grant, or none |
| Heap.Heap.InitTop | src/kernel/memory/malloc.c:3904-3916 | top is tagged with its size and pinuse, the overhead chunk behind it with TOP_FOOT_SIZE |
| Heap.Heap.InitBins | src/kernel/memory/malloc.c:3919-3926 | all 32 small-bin headers point at themselves and nothing else changes |
| Heap.Heap.InitHeap | src/kernel/memory/malloc.c:4184-4203 | first-time initialization: one segment, all of it top, no blocks |
| Heap.Heap.AppendGrant | src/kernel/memory/malloc.c:4211-4217 | a grant behind the segment holding top makes top larger |
| Heap.Heap.PrependToTop | src/kernel/memory/malloc.c:3962-3967 | the remainder of a prepended grant joins top |
| Heap.Heap.PrependToDv | src/kernel/memory/malloc.c:3968-3972 | or dv |
| Heap.TopPrepended | src/kernel/memory/malloc.c:3948-3967 | a grant in front of top, cut at the request: the whole invariant is kept with the rest part of top |
| Heap.DvPrepended | src/kernel/memory/malloc.c:3948-3972 | the same in front of dv, the rest part of dv |
| Heap.RemainderFreed | src/kernel/memory/malloc.c:3948-3983 | the same in front of any other chunk, the rest one free chunk together with that chunk if it was free |
| Heap.Heap.PrependToBin | src/kernel/memory/malloc.c:3973-3983 | or is binned, with the free chunk it meets |
| Heap.Heap.AbsorbFirst | src/kernel/memory/malloc.c:3974-3979 | the chunk that followed the grant leaves its bin if it is free, and where it ends |
| Heap.Heap.FreeRemainder | src/kernel/memory/malloc.c:3980 | the rest of the grant becomes one free chunk up to there |
| Heap.Heap.PrependChunk | src/kernel/memory/malloc.c:3948-3987 | the three cases together |
| Heap.Heap.PrependAlloc | src/kernel/memory/malloc.c:4224-4231 | a segment extended downward by the grant, with a fresh block of exactly nb bytes at its new start |
| Heap.Heap.PlaceFences | src/kernel/memory/malloc.c:4018-4028 | the loop writes fencepost heads up to the old end and nothing else |
| Heap.Heap.PushRecord | src/kernel/memory/malloc.c:4009-4016 | the segment description goes into a record chunk at the end of the old segment |
| Heap.Heap.AddSegment | src/kernel/memory/malloc.c:3990-4036 | the grant becomes the newest segment and top; the old top is retired with its record, fenceposts and a binned remainder; every block keeps its contents |
| Heap.Heap.BinOldTop | src/kernel/memory/malloc.c:4030-4036 | what is left of the old top is binned, the segment list unharmed |
| Heap.Heap.GrowElsewhere | src/kernel/memory/malloc.c:4218-4234 | a grant that cannot be appended |
| Heap.Heap.TakeGrant | src/kernel/memory/malloc.c:4179-4235 | whatever page-aligned grant sbrk answers, the heap stays valid and every block keeps its contents |
| Heap.Heap.SysAlloc | src/kernel/memory/malloc.c:4045-4251 | fails exactly when sbrk has nothing or the aligned size wraps, and then changes nothing; otherwise a fresh block, at the old top when the grant follows the newest segment and at the start of the grant when not; a segment is added exactly when the grant neither follows the newest nor precedes any; the grant is accounted for in the footprint |
| Heap.Heap.CutInuse | src/kernel/memory/malloc.c:4831-4836 | a live chunk cut in two live ones |
| Heap.BlockCut | src/kernel/memory/malloc.c:4831-4836 | cutting a block in two, whichever half is tagged first, keeps the whole invariant |
| Heap.Heap.GiveBackTail | src/kernel/memory/malloc.c:4831-4836 | the tail of a block disposed of, the front keeping its contents |
| Heap.Heap.GiveBackLead | src/kernel/memory/malloc.c:4942-4946 | the lead of a block disposed of, the rest keeping its contents |
| Heap.Heap.GrowIntoTop | src/kernel/memory/malloc.c:4839-4850 | a block extended into top |
| Heap.TopTaken | src/kernel/memory/malloc.c:4839-4850 | letting a block take the front of top keeps the whole invariant |
| Heap.Heap.GrowIntoDv | src/kernel/memory/malloc.c:4851-4872 | a block extended into dv, splitting or exhausting it |
| Heap.DvSplit | src/kernel/memory/malloc.c:4853-4862 | letting a block take the front of dv keeps the whole invariant, the rest being dv |
| Heap.Heap.GrowIntoNext | src/kernel/memory/malloc.c:4873-4890 | a block extended into the binned chunk behind it |
| Heap.Heap.MergeAll | src/kernel/memory/malloc.c:4878-4881 | a block and the unlinked chunk behind it become one block |
| Heap.BlockRecut | src/kernel/memory/malloc.c:4882-4885 | a block and the unlinked chunk behind it cut anew into two blocks keep the whole invariant |
| Heap.Heap.TryRealloc | src/kernel/memory/malloc.c:4819-4896 | resized in place with its contents, or 0 with nothing changed; 0 exactly when the chunk is too small and neither top nor a free chunk right behind makes up for it; what top or dv gives comes off its front; no check fails |
| Heap.Heap.CopyWords | src/kernel/memory/malloc.c:5227-5229 | the copy of dlrealloc: the first n bytes arrive, every other block is untouched |
| Heap.Heap.ReallocMove | src/kernel/memory/malloc.c:5225-5232 | the moving case: new block, old contents, old block freed; on failure the old block is intact; the system is asked only when the heap has nothing that would do |
| Heap.Heap.Realloc | src/kernel/memory/malloc.c:5193-5236 | the result holds the first min(old, new) bytes of the old block; it is the same block exactly when the room behind suffices; on failure every block is as before; realloc(0) is malloc; the system is asked only when the heap has nothing that would do |
| Heap.Heap.AlignStart | src/kernel/memory/malloc.c:4920-4948 | the block start moves to the first aligned spot whose lead is at least a minimal chunk, and stays if it is aligned |
| Heap.Heap.Memalign | src/kernel/memory/malloc.c:4907-4969 | for an alignment that is a multiple of 32: a fresh block at a multiple of it, large enough, with both give-backs done; it fails only for want of memory or on a request too large, and the system is asked only when the heap has nothing that would do |
| Heap.Heap.AlignedAlloc | src/kernel/memory/malloc.c:4898-4970 | for any alignment up to 2^63: a fresh block at a multiple of the least power of two not below it; it fails only for want of memory or on a request too large |
| Heap.Heap.ClearBlock | src/kernel/memory/malloc.c:4809-4810 | the first n bytes of the block become zero and no other block changes |
| Heap.Heap.Calloc | src/kernel/memory/malloc.c:4799-4812 | never a block smaller than the true product, however large the factors; all of the product's bytes zero; other blocks untouched; it fails only for want of memory or on a request too large, and the system is asked only when the heap has nothing that would do |
| Heap.Heap.Store | src/kernel/memory/malloc.c:2060-2169 | a caller writing inside its own block leaves the heap valid and other blocks untouched |
| Heap.Heap.BlocksApart | src/kernel/memory/malloc.c:2060-2169 | distinct blocks never overlap and start at 16-byte boundaries |
| Heap.RequestFacts | src/kernel/memory/malloc.c:2239-2245 | request2size yields a multiple of 16 that holds the request and a header and is as small as that allows |
| Heap.GranularityFacts | src/kernel/memory/malloc.c:2684-2686 | the aligned request is the least multiple of 64 KiB that holds the chunk and its padding, exactly unless the sum wraps |
| Heap.NextSmallBin | src/kernel/memory/malloc.c:4603-4611 | with bins idx and idx+1 empty the bit tricks find the lowest non-empty small bin above |
| Heap.NextClass | src/kernel/memory/malloc.c:4471-4478 | the bit tricks find the lowest non-empty higher tree bin |
| Heap.CallocFacts | src/kernel/memory/malloc.c:4801-4807 | the division test catches exactly the products that do not fit in 64 bits |
| Heap.AlignmentRounds | src/kernel/memory/malloc.c:4900-4906 | both ways to settle the alignment end at the least power of two not below it, a multiple of 32 |
| Alignment.Pow2Test | src/kernel/memory/malloc.c:4902 | the bit test tells powers of two apart |
| Alignment.RoundAlignment | src/kernel/memory/malloc.c:4902-4906 | the doubling loop ends at the least power of two not below the alignment, for alignments up to 2^63 |
| Alignment.NeverReached | src/kernel/memory/malloc.c:4904 | above 2^63 no number of doublings modulo 2^64 ever reaches the alignment: the loop does not end |
| Alignment.RoundsUp | src/kernel/memory/malloc.c:4929-4936 | rounding up lands on a multiple of the alignment, 16-aligned, with room for lead and block |
| HeapRuns.Run.constructor | src/kernel/memory/malloc.c:2590-2617 | the initial state of a run |
| HeapRuns.Run.DoAllocate | src/kernel/memory/malloc.c:4552-4686 | allocation adds one block of the size asked for, holding nothing yet, to the store of blocks and changes no other; it fails only if the request is too large or the kernel has no free pages for it |
| HeapRuns.Run.DoZeroed | src/kernel/memory/malloc.c:4799-4812 | zeroed allocation adds a block of zero words; it fails only if the request is too large or the kernel has no free pages for it |
| HeapRuns.Run.DoAlign | src/kernel/memory/malloc.c:5269-5274 | aligned allocation adds one block at a multiple of the alignment; it fails only if the request is too large or the kernel has no free pages for it |
| HeapRuns.Run.DoResize | src/kernel/memory/malloc.c:5193-5236 | reallocation carries the contents of the block over as far as the new one reaches, and of the null pointer allocates; it fails only if the request is too large or the kernel has no free pages for it |
| HeapRuns.Run.DoRelease | src/kernel/memory/malloc.c:4690-4797 | release drops exactly the block |
| HeapRuns.Run.DoWrite | src/kernel/memory/malloc.c:2060-2169 | a write changes one word of one block |
| HeapRuns.Run.DoRead | src/kernel/memory/malloc.c:2060-2169 | a read returns what the store holds there; LastWrite says over every run what that is |
| HeapRuns.Run.Execute | src/kernel/memory/malloc.c:4552-4970 | any sequence of requests with any page placement is a run of the store of independent blocks: one step of the store per request, with its result, the blocks apart in every state between; each request takes the pages offered or none, and fails only if it is too large or they are not free; the heap stays valid and no runtime check fails |
| HeapRuns.HeldIs | src/kernel/memory/malloc.c:4552-4970 | in every run the blocks of the store are those that requests and results say are held, with the sizes asked for |
| HeapRuns.Survives | src/kernel/memory/malloc.c:4552-4970 | in every run a word keeps its value, wherever its block moves, until it is overwritten, cut off or released |
| HeapRuns.LastWrite | src/kernel/memory/malloc.c:4552-4970 | in every run each read returns the value of the last write to that word of that block, or zero in a zeroed block, told from requests and results alone |
| HeapRuns.BlocksWellPlaced | src/kernel/memory/malloc.c:4552-4970 | in every run the block a request is answered with is not held already, unless it is the one resized, and is aligned as asked |
| HeapRuns.FailsOnly | src/kernel/memory/malloc.c:4552-4970 | in every run a request fails only if it is too large, or the kernel offers it pages outside the direct map or pages it offered to an earlier request |
| HeapRuns.Session | src/kernel/memory/malloc.c:4552-4970 | the same for every session on a new heap, as its caller sees it; no block is handed out while it is held, the blocks held at any moment do not overlap, alignments are kept, and a request fails only if it is too large or is offered pages outside the direct map or offered before |
| HeapRuns.Run.Place | src/kernel/memory/malloc_glue.c:9-29 | what sbrk may answer: free pages of the direct map, or nothing |
| HeapCore.RangeFenced | src/kernel/memory/malloc.c:4018-4028 | re-tagging chunks leaves every fencepost behind a segment record in place |
| Checkers.RingHolds | src/kernel/memory/malloc.c:3401-3405 | the do loop along fd links ends, and finds a chunk exactly when the ring holds it |
| Checkers.FindNode | src/kernel/memory/malloc.c:3412-3417 | the trie search of bin_find ends at the node of the size, or at null exactly when the size is not stored |
| Checkers.BinFind | src/kernel/memory/malloc.c:3395-3428 | reading memory alone, of any chunk and of top, bin_find is true exactly for the free chunks other than dv |
| Checkers.NextPinuse | src/kernel/memory/malloc.c:2288 | the pinuse bit after any chunk, be it in a chunk, in top or in a fencepost, says whether the chunk is in use |
| Checkers.InuseChunkPasses | src/kernel/memory/malloc.c:3261-3269 | every assertion of do_check_inuse_chunk holds of every chunk in use |
| Checkers.FreeChunkPasses | src/kernel/memory/malloc.c:3272-3292 | every assertion of do_check_free_chunk holds of every free chunk |
| Checkers.CheckSmallbin | src/kernel/memory/malloc.c:3371-3392 | the loop along bk ends having met every chunk of the bin, and every assertion holds of each |
| Checkers.NodePasses | src/kernel/memory/malloc.c:3309-3353 | every assertion of do_check_tree about a node holds of every node: class bounds, links both ways, children in order |
| Checkers.CheckTree | src/kernel/memory/malloc.c:3309-3357 | the recursion ends having visited every size stored at or below the node, no assertion failing in any ring |
| Checkers.CheckTreebin | src/kernel/memory/malloc.c:3360-3368 | the same for every stored size of a class, and a clear map bit whenever the root is null |
| Checkers.TraverseSegment | src/kernel/memory/malloc.c:3436-3456 | the loop over a segment meets exactly the chunks of the walk, each passing, and its sizes add up to the segment: to the byte with top and its overhead, or up to the 32 or 48 bytes of fenceposts behind the record |
| Checkers.SegmentAccounted | src/kernel/memory/malloc.c:3431-3459 | in every valid heap each segment is its chunks plus top and TOP_FOOT_SIZE, or its chunks, the record last, plus 32 or 48 bytes of fenceposts |
| Checkers.TraverseAndCheck | src/kernel/memory/malloc.c:3431-3459 | no assertion fails over all segments, and the sum is all their bytes but 32 or 48 for each older segment, so at most what the system gave |
| Checkers.SegmentsFit | src/kernel/memory/malloc.c:3486-3487 | the segments are disjoint and their sizes add up to no more than the bytes obtained |
| Checkers.CheckTopChunk | src/kernel/memory/malloc.c:3233-3244 | no assertion about top fails |
| Checkers.CheckTop | src/kernel/memory/malloc.c:3479-3484 | no assertion about top fails, and the bins do not hold it |
| Checkers.CheckDv | src/kernel/memory/malloc.c:3472-3477 | no assertion about dv fails |
| Checkers.CheckMallocState | src/kernel/memory/malloc.c:3463-3489 | in a valid heap, blank or not, no assertion of do_check_malloc_state fails |
| Checkers.CheckAfterRun | src/kernel/memory/malloc.c:3463-3489 | nor after any run from the initial state, whatever is requested and wherever pages are placed |
| PageTables.FlagsExact | src/kernel/memory/paging.rs:218-222 | for every phys and flags the leaf entry names the frame of phys if and only if the flags set no address bit that phys does not have |
| PageTables.FlagsCanMoveFrame | src/kernel/memory/paging.rs:218-222 | flags with bit 13 set move a page to another frame |
| PageTables.LeafEntryReads | src/kernel/memory/paging.rs:218-222 | a leaf entry is present and names the or of both frame fields |
| Paging.IndexDigits | src/kernel/memory/paging.rs:24-48 | the four index fields are the base-512 digits of the page number, so a page has its own path |
| Paging.AddTable | src/kernel/memory/paging.rs:197-213 | hanging a fresh zeroed frame below a missing entry keeps all tables distinct and changes no translation |
| Paging.SetLeaf | src/kernel/memory/paging.rs:215-222 | writing one leaf entry changes the translation of one page |
| Paging.AddressSpace.constructor | src/kernel/memory/paging.rs:137-144 | an empty directory translates nothing |
| Paging.AddressSpace.PhysicalAllocate | src/kernel/memory/paging.rs:109 | a frame that nothing uses yet, or 0 |
| Paging.AddressSpace.PagingPhysAllocate | src/kernel/memory/paging.rs:175-180 | the same, zeroed |
| Paging.AddressSpace.Descend | src/kernel/memory/paging.rs:197-213 | one level of the walk, creating the table when missing |
| Paging.AddressSpace.LeafTable | src/kernel/memory/paging.rs:192-216 | the three upper levels together: the leaf table of the page, no translation changed |
| PageTables.LeafEntryBits | src/kernel/memory/paging.rs:218-222 | every flag of the low twelve bits but bit 0, and every one from bit 52 up, is in the leaf entry as it was given |
| PageTables.TableEntryOpen | src/kernel/memory/paging.rs:197-213 | entries for tables are present, writable and user |
| Paging.WalkReaches | src/kernel/memory/paging.rs:182-226 | in memory the processor's walk ends at the entry the map gives for the page, and grants a right exactly if all four entries on it have the bit |
| Paging.AddressSpace.VirtualMapL | src/kernel/memory/paging.rs:182-226 | afterwards the page translates to the new frame, or to nothing for phys 0, every other page as before, and tables stay distinct; the processor finds the page writable or user exactly if the flags say so, and every other page as before; misaligned addresses are refused |
| Paging.AddressSpace.VirtualToPhysicalL | src/kernel/memory/paging.rs:228-251 | the abstract map applied to the page, plus the offset; 0 when unmapped |
| Paging.AddressSpace.VirtualMapRegionByLength | src/kernel/memory/paging.rs:146-160 | exactly ceil(len/4096) consecutive pages are mapped to consecutive frames with the rights the flags give, every other page as before |
| Paging.RegionPages | src/kernel/memory/paging.rs:146-160 | a region within the address space covers each of its pages once |
| ElfLoad.Loader.EnsurePage | src/kernel/utilities/elf.rs:163-168 | a mapped page keeps its frame; an unmapped one gets a frame no other page has |
| ElfLoad.Loader.MapRange | src/kernel/utilities/elf.rs:156-169 | every page of the segment is mapped and no existing mapping changes; it fails only when fewer than four frames a page are left |
| ElfLoad.Loader.PutByte | src/kernel/utilities/elf.rs:171-182 | a store through the tables is seen at that virtual byte and at no other |
| ElfLoad.Loader.Fill | src/kernel/utilities/elf.rs:171-183 | file bytes then zeros, every other byte as before |
| ElfLoad.Loader.ProcessLoad | src/kernel/utilities/elf.rs:155-184 | every byte of the segment is mapped and equals the file byte or, past filesz, zero; all other bytes and mappings are unchanged; it fails only for want of frames |
| ElfLoad.Loader.LoadSegments | src/kernel/utilities/elf.rs:226-270 | after any list of byte-disjoint PT_LOAD headers, possibly sharing pages, every segment reads as its image says, bytes outside all segments read as before, no page mapped before changed frame or rights, and every page newly mapped is writable and user for the processor; it fails only for want of frames |
| ElfLoad.MapFresh | src/kernel/utilities/elf.rs:167-168 | mapping a fresh frame keeps frames private to their pages |
| CountedLock.StepTest | src/kernel/utilities/spinlock.rs:64-118 | no test made under the inner lock finds a count that would panic |
| CountedLock.StepKeepsInv | src/kernel/utilities/spinlock.rs:31-118 | every step of any thread keeps: the inner lock excludes, and cnt counts the readers or is -1 for one writer |
| CountedLock.ReadersWriterExclusion | src/kernel/utilities/spinlock.rs:20-118 | over every interleaving of fewer than 2^31 bracketed threads: cnt is the number of readers, or -1 with exactly one writer and no reader, and neither panic is reached |
| CountedLock.ReaderAdmitted | src/kernel/utilities/spinlock.rs:64-76 | in every reachable state with the inner lock free, a reader is admitted beside all others, unless there is a writer |
| CountedLock.WriterAdmitted | src/kernel/utilities/spinlock.rs:92-104 | and a writer exactly when there is neither reader nor writer |
| Semaphores.SemaphoreCounts | src/kernel/utilities/spinlock.rs:124-170 | over every interleaving cnt is initial plus posts minus successful waits modulo 2^32, so that number exactly if it fits an i32; it is not negative while a non-negative initial plus the posts stay below 2^31 |
| Semaphores.WaitAlone | src/kernel/utilities/spinlock.rs:137-163 | a wait that has the semaphore to itself succeeds and takes one if the count is positive, and otherwise polls again with nothing changed |
| Semaphores.UntimedWaitTakes | src/kernel/utilities/spinlock.rs:137-163 | in every run a wait without a timeout returns only after a success |
| Semaphores.NeverNegativeExactly | src/kernel/utilities/spinlock.rs:124-170 | for every initial and n: no run with at most n posts ends with a negative count if and only if initial is not negative and, if there is a thread to post, initial plus n is below 2^31 |
| Semaphores.OverflowGoesNegative | src/kernel/utilities/spinlock.rs:165-169 | one post makes a semaphore at the largest i32 negative |
| Pipes.StepFlow | src/kernel/syscalls/pipe.rs:35-76 | every step keeps: bytes returned by reads, then those about to be returned, then the buffer, are the bytes put in, and the buffer holds at most PIPE_BUFF |
| Pipes.StepKeepsInv | src/kernel/syscalls/pipe.rs:34-88 | every step keeps that no thread sleeps without reason, unless the lock holder is about to notify it |
| Pipes.TransfersMean | src/kernel/syscalls/pipe.rs:45-72 | every transfer of every run: a read takes as many bytes as it has room for or all there are, whichever is less; a write puts all it has left or fills the buffer |
| Pipes.EndOfFile | src/kernel/syscalls/pipe.rs:38-51 | every read of every run returned exactly what it took out, at most what it had room for; with room it returned nothing only on an empty pipe whose write end had been closed |
| Pipes.WriteProgress | src/kernel/syscalls/pipe.rs:54-76 | every write of every run that succeeded had put in all its data, in order, and reports its length; one that broke had not, on a full pipe whose read end had been closed |
| Pipes.PipeSafety | src/kernel/syscalls/pipe.rs:34-88 | over every interleaving of readers, writers and closers: what reads returned, then what one is about to return, then the buffer, is what was written, in order; never overfull; no wakeup lost |
| FutexQueues.ScanMeans | src/kernel/syscalls/flutex.rs:129-172 | one pass over a queue wakes the first v sleepers, moves the next w and keeps everyone else in order |
| FutexQueues.FutexTable.Find | src/kernel/syscalls/flutex.rs:40-48 | the queue of an address, empty when new; no other queue changes |
| FutexQueues.FutexTable.Wake | src/kernel/syscalls/flutex.rs:124-141 | exactly the first min(value, sleepers) entries in order are awoken; exactly their tasks become ready and lose their wakeup time; their number is returned and no queue changes |
| FutexQueues.FutexTable.RequeueLoop | src/kernel/syscalls/flutex.rs:149-175 | the loop ends; it wakes the first value sleepers, exactly their tasks becoming ready, moves the next value3 in order to the end of the other queue and leaves the rest |
| FutexQueues.FutexTable.Requeue | src/kernel/syscalls/flutex.rs:142-176 | the same for two addresses; with one address twice the call never gets its second lock |
| FutexRuns.StepKeepsInv | src/kernel/syscalls/flutex.rs:70-176 | every step keeps the invariant behind FutexSafety |
| FutexRuns.FutexSafety | src/kernel/syscalls/flutex.rs:70-176 | in every run a sleeping entry is in exactly one queue, once; every entry is awoken at most once; a WAIT returns 0 only for an awoken entry and answers it once; so successes never outnumber wakes |
| FutexOrder.FirstComeFirstServed | src/kernel/syscalls/flutex.rs:83-172 | in every run, whoever joins a queue by WAIT or REQUEUE while another waits there is not awoken or moved before it, as long as that one stays |
| FutexOrder.AwokenReturns | src/kernel/syscalls/flutex.rs:96-122 | a waiter awoken and made ready returns 0 |
| FutexRuns.FinishRemoves | src/kernel/syscalls/flutex.rs:112-122 | a successful WAIT takes its entry off the queue it was pushed to and no other queue changes; it is gone altogether exactly when it had not been requeued |
| FutexRuns.WakeStep | src/kernel/syscalls/flutex.rs:124-141 | on a table that matches a reachable state the loop of WAKE computes the Wake step, and returns how many it woke |
| FutexRuns.RequeueStep | src/kernel/syscalls/flutex.rs:142-176 | and the loop of REQUEUE the Requeue step |
| FutexRuns.LostWakeup | src/kernel/syscalls/flutex.rs:83-94 | a run in which a WAKE between the push and the state change leaves the waiter asleep |
| FutexRuns.StuckExactly | src/kernel/syscalls/flutex.rs:83-110 | a thread gets stuck asleep with an awoken entry exactly by marking itself asleep, untimed, after the wake |
| FutexRuns.StuckForever | src/kernel/syscalls/flutex.rs:96-139 | no later call ever frees it, if and only if it owns no other sleeping entry |
| FutexRuns.UntimedNeverTimesOut | src/kernel/syscalls/flutex.rs:96-122 | in a run without timeouts no WAIT ever returns ETIMEDOUT |
| FutexRuns.TimesOutExactly | src/kernel/syscalls/flutex.rs:70-176 | in every reachable state, a WAIT that a thread now starts without a limit can still return ETIMEDOUT if and only if an earlier WAIT of that thread left its wakeup time or a sleeping entry behind |
| FutexRuns.StaleTimeout | src/kernel/syscalls/flutex.rs:88-122 | one timed WAIT makes the thread's next, unlimited WAIT return ETIMEDOUT |
| Scheduler.System.Pick | src/kernel/multitasking/schedule.rs:172-208 | the walk ends; it picks the first task in circular order after the current one that is ready or wakeable, changes only that one, which if it was not ready becomes so, marked as forced and without a wakeup time, and picks the dummy task exactly when there is none |
| Scheduler.System.ReleaseQueue | src/kernel/multitasking/schedule.rs:213-216 | the previous task's queue lock is released and cleared exactly when the task is not ready |
| Scheduler.System.SwitchTo | src/kernel/multitasking/schedule.rs:210-237 | lock release, then the timer: the task handed to the signal code has signal 14 added to its pending ones and its timer set anew or cleared exactly if the timer was due; then its signals, if it was in user mode; nothing else changes |
| Scheduler.System.Schedule | src/kernel/multitasking/schedule.rs:164-243 | with any number of kill retries, which end: the task chosen is the first qualifying one not killed on the way, readied once or readied, killed, woken by its time and readied again; passed-over tasks are unchanged, dummy only if none is left |
| Scheduler.ReadiedMeans | src/kernel/multitasking/schedule.rs:187-237 | for the task chosen: woken means ready, marked as forced and without a wakeup time unless it was ready; then the timer makes signal 14 pending and is set anew or cleared exactly if it was due; then its signals are handled if it was in user mode |
| Scheduler.PendingAfter | src/kernel/multitasking/schedule.rs:218-234 | each look at the timer adds signal 14 to what is pending exactly if the timer was due, and nothing else |
| Scheduler.PendingRun | src/kernel/multitasking/schedule.rs:218-234 | over any looks: signal 14 is pending if and only if it was or the timer was due at one of them; other pending signals and all else but the timer stay |
| Scheduler.AlarmFirst | src/kernel/multitasking/schedule.rs:218-234 | the first look at which it is due is the first at or after the time it was set for, for a user task with a time set |
| Scheduler.AlarmsApart | src/kernel/multitasking/schedule.rs:218-234 | however often the timer is looked at: after it was due, the next look at which it is due is the first at least reset ticks later, and none without a reset |
| Scheduler.ChosenAcross | src/kernel/multitasking/schedule.rs:236-243 | a retry after a kill makes the right choice for the list the call started from |
| Scheduler.GetsCloser | src/kernel/multitasking/schedule.rs:172-211 | a call that does not choose a ready task moves strictly closer to it |
| Scheduler.Fairness | src/kernel/multitasking/schedule.rs:164-243 | a task that stays ready is chosen within as many calls as it lies ahead in the list, at most the list's length |
| Scheduler.KilledComesBack | src/kernel/multitasking/schedule.rs:187-194 | a killed task qualifies again if and only if its forced wakeup is due |
| Scheduler.KilledRunsAgain | src/kernel/multitasking/schedule.rs:187-243 | a list on which one call kills a task and then makes it ready again |
| Md5Words.WordValue | src/kernel/utilities/md5.rs:85-91 | a word read from four bytes has their value, low-order byte first |
| Md5Words.BytesValue | src/kernel/utilities/md5.rs:260-264 | the bytes a word is output as have its value, low-order byte first |
| Md5Rounds.TurnedBy | src/kernel/utilities/md5.rs:80 | the machine's rotation is the circular shift written with two shifts, at every amount the rounds use |
| Md5Rounds.CodedStep | src/kernel/utilities/md5.rs:66-82 | a step as coded is b + ((a + f + X[k] + T[i]) <<< s) of section 3.4 |
| Md5Rounds.ShortForms | src/kernel/utilities/md5.rs:40-63 | F and G as coded equal the definitions of RFC 1321, and H2 equals H |
| Md5Rounds.Round1 | src/kernel/utilities/md5.rs:110-125 | the unrolled steps are steps 1 to 16 of section 3.4: word order, shifts, sines, registers |
| Md5Rounds.Round2 | src/kernel/utilities/md5.rs:128-143 | the unrolled steps are steps 17 to 32 of section 3.4: word order, shifts, sines, registers |
| Md5Rounds.Round3 | src/kernel/utilities/md5.rs:146-161 | the unrolled steps are steps 33 to 48 of section 3.4: word order, shifts, sines, registers |
| Md5Rounds.Round4 | src/kernel/utilities/md5.rs:164-179 | the unrolled steps are steps 49 to 64 of section 3.4: word order, shifts, sines, registers |
| Md5Rounds.Rounds | src/kernel/utilities/md5.rs:94-184 | all 64 steps and the additions are the block function of section 3.4, whose step is written with shifts |
| Md5.InitialBytes | src/kernel/utilities/md5.rs:193-197 | the initial words are the byte strings of section 3.3 |
| Md5.DigestValue | src/kernel/utilities/md5.rs:260-264 | the digest is A, B, C and D in turn, each low-order byte first |
| Md5Answer.KnownAnswer | src/kernel/utilities/md5.rs:271-275 | the MD5 of the empty message is d41d8cd98f00b204e9800998ecf8427e, as in appendix A.5 of RFC 1321 |
| Md5.Context.constructor | src/kernel/utilities/md5.rs:193-200 | an initialized context holds the empty message |
| Md5.Context.Chunk | src/kernel/utilities/md5.rs:99-184 | one 64-byte chunk applies the RFC block function |
| Md5.Context.Body | src/kernel/utilities/md5.rs:93-191 | folds it over every whole chunk |
| Md5.Context.Count | src/kernel/utilities/md5.rs:203-208 | lo and hi count the message with the data as one more part, 32-bit wraps included |
| Md5.Context.Fill | src/kernel/utilities/md5.rs:213-218 | a short update only fills the buffer |
| Md5.Context.Complete | src/kernel/utilities/md5.rs:213-222 | the partial block completed from the data |
| Md5.Context.Finish | src/kernel/utilities/md5.rs:224-232 | whole blocks folded, the rest kept |
| Md5.Context.Update | src/kernel/utilities/md5.rs:202-233 | the context holds the message with the data appended, however it was cut |
| Md5.Context.Pad | src/kernel/utilities/md5.rs:236-250 | 0x80 and zeros up to the count, with one more block if needed; panics exactly at 56 bytes into a block |
| Md5.Context.Close | src/kernel/utilities/md5.rs:252-258 | the count in place and the last block folded |
| Md5.Context.Final | src/kernel/utilities/md5.rs:235-268 | panics if and only if the length is 56 modulo 64; otherwise the blocks fed are the padded message of RFC 1321 if and only if the message was split right, and then the digest is the MD5; the context is wiped |
| Md5.CarriesRightExactly | src/kernel/utilities/md5.rs:203-208 | the counters are right at the end if and only if the whole 2^29s among the low 29 bits of the part lengths, plus eight for each 2^32 in a part, equal the 2^32s among the low 32 bits, modulo 2^32 |
| Md5.SplitsRightWhen | src/kernel/utilities/md5.rs:203-208 | for parts below 2^32 that compares the 2^29s among the low parts with the 2^32s of the sum; for messages below 2^32 bytes it says that the low 29-bit parts sum below 2^29 |
| Md5.CountExactly | src/kernel/utilities/md5.rs:252-256 | the coded bit count is right if and only if hi holds the multiples of 2^29 in the message |
| Md5.WhenCarriesRight | src/kernel/utilities/md5.rs:203-208 | any split of a message below 2^29 bytes is counted right, and so is one update below 2^32 |
| Md5.CarriesWrong | src/kernel/utilities/md5.rs:203-208 | two updates of 2^28 bytes are not |
| Md5.HashInParts | src/kernel/utilities/md5.rs:202-268 | every split that is counted right, so every split of every message below 2^29 bytes, gives the MD5 of the message, or the panic exactly at length 56 modulo 64 |
| Md5.Simple | src/kernel/utilities/md5.rs:271-275 | one call gives the MD5 of every message below 2^32 bytes, with the same exception |
| UserStack.UserImage.Copy | src/kernel/multitasking/stack.rs:182-186 | the bytes arrive and no other byte changes |
| UserStack.UserImage.Push | src/kernel/multitasking/stack.rs:200-204 | one more word below those already there, nothing else changed |
| UserStack.UserImage.StrLength | src/kernel/multitasking/stack.rs:115-122 | the loop returns the length up to the NUL |
| UserStack.UserImage.Measure | src/kernel/multitasking/stack.rs:158-162 | the space all strings need, NULs included |
| UserStack.UserImage.StoreStrings | src/kernel/multitasking/stack.rs:153-194 | every string is in the new heap at its prefix-sum offset, NUL-terminated; nothing outside the new heap changes |
| UserStack.UserImage.PushPointers | src/kernel/multitasking/stack.rs:315-325 | the reverse loop pushes, for every i, start plus the prefix sum of the first i lengths |
| UserStack.UserImage.PushAuxv | src/kernel/multitasking/stack.rs:267-302 | eleven key and value pairs in reading order, ending in AT_NULL; a program that walks them finds under each key the value meant for it, 4096 under 6, and the end after ten pairs |
| UserStack.UserImage.PushVectors | src/kernel/multitasking/stack.rs:314-339 | NULL, environment pointers, NULL, argument pointers and argc |
| UserStack.UserImage.Generate | src/kernel/multitasking/stack.rs:229-339 | what a program finds from the final stack pointer up: argc, that many pointers to NUL-terminated copies of the arguments, NULL, the same for the environment, NULL, and pairs where it finds under each of the ten keys the value meant for it, 4096 under 6 and 16 random bytes at the address under 25, with the end after ten; no byte outside the new heap and the used stack changes; the stack pointer is 16-byte aligned, as the psABI asks, exactly for an odd number of strings on an aligned stack, or an even number 8 bytes off |
| UserStack.ReadsBack | src/kernel/multitasking/stack.rs:200-204 | words pushed read back as their values modulo 2^64 |
| UserStack.AuxvReads | src/kernel/multitasking/stack.rs:267-302 | a program that walks the pairs finds under each of the ten keys the value the loader meant for it, and the end after ten pairs |
| UserStack.ReadUp | src/kernel/multitasking/stack.rs:229-339 | from the stack pointer up: argc, that many addresses of the argument strings, NULL, those of the environment, NULL, and then the pairs |
| UserStack.LowestVaddr | src/kernel/multitasking/stack.rs:248-261 | the loop yields the least load address after the last one that is 0 |
| UserStack.LowestExactly | src/kernel/multitasking/stack.rs:248-261 | that is the least of all if and only if no load address 0 is followed by another |
| UserStack.LowestMissed | src/kernel/multitasking/stack.rs:248-261 | of the addresses 0 and 4096 the loop yields 4096 |
| RtcTime.RtcToUnix | src/kernel/cpu/rtc.rs:168-190 | for every valid date from 1970 on the loops give the formula of POSIX.1-2017 section 4.16; they run off the month table exactly for months past 13; day 0 panics where overflow is checked and otherwise wraps to the day before the first; the sum fits 64 bits |
| RtcTime.DaysBeforeIs | src/kernel/cpu/rtc.rs:175-177 | the year loop has the closed form with divisions by 4, 100 and 400 |
| RtcTime.StrictlyIncreasing | src/kernel/cpu/rtc.rs:168-190 | later dates give larger numbers and equal numbers mean equal dates |

## Left out

- mmap, mremap, trimming, release of unused segments, mspaces, footers, bulk allocation and statistics of `malloc.c`:
  switched off in this build or without effect, since sbrk never takes memory back.
- The contiguous branch of sys_alloc (`src/kernel/memory/malloc.c:4091-4150`), switched off in this build, and
  footprint_limit, which nothing sets.
- do_check_mmapped_chunk and do_check_malloced_chunk: the first is never called without mmap, what the second asserts is
  part of the contract of Heap.Heap.Malloc.
- Contents of bytes within a word of the heap: stores are whole words, except the last word memset clears.
- Heap.Heap.AlignedAlloc: alignments above 2^63 are excluded, because the source's loop does not end on them
  (Alignment.NeverReached).
- Heap.Heap.Malloc: the request is for any size below 2^64, but a grant outside the 2^40-byte window is not considered.
- ElfLoad.Loader.LoadSegments: the interpreter of a PT_INTERP header, which is loaded by the same function at another
  base, and the file reads that produce the image.
- Paging: the page-table lock, invlpg, building and freeing whole page directories, and large pages.
- CountedLock.ReadersWriterExclusion: assumes fewer than 2^31 threads, beyond which the i32 count would overflow.
- FutexRuns: the EAGAIN and EINVAL returns, which change nothing, and progress; two REQUEUEs in opposite directions may
  wait for each other's locks, which one-step calls cannot show.
- Scheduler: the context switch itself, task creation and exit; the list is fixed during a call, and the order of
  nothing but the choice is modelled.
- Md5.Simple: the hexadecimal printing of the digest.
- UserStack: mapping and clearing the stack pages, and rounding of the heap to pages when it grows.
- RtcTime.RtcToUnix: says nothing of the number it returns for dates before 1970, on which the year loop does not run,
  and for dates no calendar has, other than day 0.
- Reading the clock chip, drivers, file systems, sockets, the console and signal delivery: device access, mocks or calls
  into code that is not part of this model.
