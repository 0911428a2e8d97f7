# Verified core of the Thor kernel

This project models six parts of the Thor operating-system kernel in Dafny 4.11 and proves what
they promise to the rest of the kernel. Code that changes memory step by step is modelled by
classes, methods and loops over the same state; each method is proved against functions and
predicates on values, and the laws are lemmas about those values.

| part | files | main results |
|---|---|---|
| kernel heap | `HeapModel.dfy`, `HeapSteps.dfy`, `Heap.dfy`, `HeapUniqueness.dfy` | chunks tile every region exactly, tags and free list agree, no two free neighbours, bytes are conserved; a request takes the first fit, at the least allowed size, and leaves the rest in its place; freed memory goes to the front of the list; the chunks handed out decide the whole layout |
| buddy allocator | `Bitmap.dfy`, `BuddyModel.dfy`, `Buddy.dfy` | the eight bitmaps form a tree decided by the blocks handed out; live blocks are disjoint; the lowest clear range is handed out; a release of any size keeps the invariant exactly if it reaches into no other block |
| block cache, ATA layer | `CacheModel.dfy`, `BlockCache.dfy`, `Ata.dfy` | the hash table with an eviction ring is a FIFO of the last missed keys; reading through it is reading the disk, and a failed transfer spoils one sector at most |
| scheduler | `SchedulerModel.dfy`, `SchedulerRuns.dfy`, `SchedulerTicks.dfy`, `SchedulerPolicy.dfy`, `Scheduler.dfy` | one process runs after every step of every run; selection is priority-maximal and round-robin, with waiting bounded in selections and in ticks; a process keeps the processor for its quantum and then exactly if it has no rival; first queued, first chosen; a child can be waited for exactly until it ends; no termination wake-up is lost; when a tick inside a call does harm, exactly, and over all other runs an ended process never runs again and timers last exactly their ticks |
| blocking locks | `LockModel.dfy`, `LockRuns.dfy`, `LockSystem.dfy`, `WaitLists.dfy`, `Locks.dfy` | mutual exclusion, FIFO hand-off and conservation of permits in every run of the scheduler with the lock; a process that blocks for nothing else is blocked exactly while it waits; any number of locks do not disturb each other |
| paging, paths, checksum | `PagingModel.dfy`, `PagingRights.dfy`, `Paging.dfy`, `ProcessPaging.dfy`, `SharedPaging.dfy`, `PathModel.dfy`, `Paths.dfy`, `Checksum.dfy` | mapping a page changes one translation, keeps the tables a tree and takes a frame for each table that was absent, exactly as long as there are enough; all address spaces always translate kernel addresses alike; user code reaches for writing exactly the user pages that are translated; path laws; Internet checksum |

`Basics.dfy` holds what several parts share. `dafny verify dfyconfig.toml` checks the whole project.

## How the parts are modelled

**Heap.** Memory holds tags (size at header and footer, left and right flags) and links (next and
previous) as maps from addresses. The ghost layout records the regions and the chunks in them, and
the ghost ring the free list in order. Every public method keeps `Valid`, so whatever the calls, the
heap is tiled, the ring lists exactly the free chunks, free neighbours are merged, and used plus
free bytes are the bytes got from the page allocator. Each step of an operation is a function on the
whole state (`HeapSteps`), whose lemmas say what it keeps; the methods are proved to take those steps.
The page allocator's answer is a parameter. Rounding, the size of an expansion and the limit for
splitting are computed on 64-bit words; a request is served as promised exactly up to 2^64 - 4152 bytes.
The ring is followed by value too: which place a split, a merge, an expansion and a release leave on it.

**Buddy allocator.** A bitmap word is a sequence of 64 bits. The ghost map `live` records the blocks
handed out. `Valid` says that a parent bit is set exactly if both child bits are, and that a unit is
free exactly if no block handed out covers it. Large requests take a whole word of a level chosen by
`word_level`, but a release uses `level`; the two agree outside 129 to 4096 pages only. A release is
modelled for every size: it marks what the code marks, and the invariant holds afterwards exactly if
no other block reaches into that range. The range may pass the managed units as long as the bitmaps
have room for it. `MismatchedRelease` is the failing case for
each size from 129 to 4096 pages.

**Cache.** The chains, the table and the ring of blocks refine the list of the last missed keys.
The search for a predecessor in `block` cannot succeed; it is never needed, because a victim always
heads its chain. The device is a map from sectors to contents, and each transfer may fail. The ghost
set `bad` has the keys whose cached contents a failure left wrong. A good write of such a sector, or
a good read after it was evicted, takes it out again. Every other cached sector is right after any
sequence of calls.

**Scheduler.** A call of the scheduler, together with the switch that ends it, is one step. A step that has to choose a process carries the choice, which is unique. The
history variable `awaited` records which child each waiting process asked for. The unblocking hint
checks nothing; given an ended process it would make it runnable, so the exact condition for its use is
stated, and the events of a run respect it. A tick may also come inside a call, after the state of the
current process was changed and before the switch. If its quantum is used up then, and another process
is chosen, a process that just ended, went to sleep or waits for a child becomes ready; this is exactly
when such a tick does more than count timers, and the runs of `SchedulerTicks` have every other tick.
`SchedulerPolicy` says what the steps mean without naming them: by rounds, priorities, places in a queue
and parents. The code never resets the rounds of a slot, so a fresh process inherits them.

**Locks.** A section under the spin lock is one step. The linked list of wait nodes refines a
sequence. A lock is followed together with the scheduler: a waiting process is blocked, and is woken
by the unlock that hands it the permit. Each method of `Mutex` and `Semaphore` is one step of such a
run, on the lock, on the scheduler and on the ghost record of holders, so what is proved about runs is
about the classes. With several locks the calls on one are steps of the scheduler for the others, which
wake none of their waiters. The end of a process wakes a blocked collector, so the collector must not itself be
waiting for a lock then; this is the exact condition.

**Paging.** Tables are sequences of 512 entries by physical address, entries are numbers with their
flag bits. The ghost maps `owner` and `parent` record where each table hangs. Frames that the
physical allocator will give are a field; bringing a table into view may fail. The tables a range
lacks are a set, and a frame is taken for each of them that is made. With fewer frames than that the
code takes page zero, which the allocator returns for failure: it enters the page and then clears it,
so that of two tables in page zero the entry for the second is lost. `physical_address` adds thirteen
low bits, which is the translation in even pages only. Access rights are the low three bits of an entry:
what user code reaches for writing is a second walk, which asks for them at every level.

**Paths.** A path is a normal string with the positions of its slashes, kept in sixteen bits. Names
are defined on any string by its words, and on normal strings by its pieces; the two agree.

**Checksum.** Sums wrap at 32 bits as in the code; the unbounded sum is the reference.

Where the documentation and the code differ, the code is followed: `branch_path` of a path such as
`/a` is empty rather than the root (kernel/src/path.cpp:203-227), and `physical_address` is documented
as the corresponding physical address (kernel/src/paging.cpp:285-305).

## Model

| member | source | states |
|---|---|---|
| `HeapModel.TilingIsExact` | kernel/src/kalloc.cpp:302-327 | every address of every region lies in exactly one chunk |
| `HeapModel.WalkRight` | kernel/src/kalloc.cpp:318-327 | following right neighbours from a chunk reaches the chunk that holds any later address of the region |
| `HeapModel.AllFreeIsOneChunkPerRegion` | kernel/src/kalloc.cpp:329-372 | when every chunk is free, full coalescing leaves each region as a single chunk |
| `HeapModel.LivePayloadsDisjoint` | kernel/src/kalloc.cpp:433-502 | the payloads of two live chunks never overlap |
| `HeapModel.InsertionKeepsRing` | kernel/src/kalloc.cpp:228-238 | the four link writes of an insertion keep next and previous inverse and add the block in its place |
| `HeapModel.RemovalKeepsRing` | kernel/src/kalloc.cpp:242-253 | the link writes of a removal keep next and previous inverse and drop just that block |
| `HeapModel.SplitKeepsTiling` | kernel/src/kalloc.cpp:445-465 | after a split the region is tiled again, with sizes, footers and side flags of all chunks right |
| `HeapModel.MergeKeepsTiling` | kernel/src/kalloc.cpp:333-369 | after two neighbours are merged the region is tiled again, with the flags of the outer sides |
| `HeapModel.ExpansionKeepsTiling` | kernel/src/kalloc.cpp:268-300 | a new region is tiled by one chunk and leaves the other regions as they were |
| `HeapModel.MergeKeepsCoalesced` | kernel/src/kalloc.cpp:333-369 | a merge leaves no two free neighbours, and clears the merged side |
| `HeapModel.SplitKeepsCoalesced` | kernel/src/kalloc.cpp:437-471 | the rest of a split chunk has no free neighbour |
| `HeapSteps.EmptyIsGood` | kernel/src/kalloc.cpp:392-398 | the heap with the list head only is good |
| `HeapSteps.ExpandedIsGood` | kernel/src/kalloc.cpp:268-300 | adding a region keeps the heap good and the live chunks, and adds its bytes to the free ones |
| `HeapSteps.ExpandedAtFront` | kernel/src/kalloc.cpp:296-299 | and puts it first on the list |
| `HeapSteps.WholeIsGood` | kernel/src/kalloc.cpp:472-482 | taking a listed chunk whole keeps the heap good, makes just it live, and takes its bytes |
| `HeapSteps.CarvedIsGood` | kernel/src/kalloc.cpp:437-471 | splitting and taking the first part keeps the heap good, makes just it live, and takes its bytes |
| `HeapSteps.CarvedInPlace` | kernel/src/kalloc.cpp:463-467 | the second part takes the place of the whole on the list |
| `HeapSteps.MergedIsGood` | kernel/src/kalloc.cpp:333-369 | merging a chunk with a free neighbour keeps the heap good, the other live chunks and the bytes |
| `HeapSteps.MergedSides` | kernel/src/kalloc.cpp:333-369 | afterwards no free neighbour is left on the merged side, nor on the other if none was |
| `HeapSteps.OthersKeepOrder` | kernel/src/kalloc.cpp:242-253 | a block that leaves the list leaves the order of the others |
| `HeapSteps.ListedIsGood` | kernel/src/kalloc.cpp:519-523 | listing a chunk without free neighbours keeps the heap good and gives its bytes back |
| `Heap.RoundingExact` | kernel/src/kalloc.cpp:417-426 | the rounded request keeps the tag alignment, and is at least the request exactly if adding the footer does not overflow the word |
| `Heap.RoundingIsLeast` | kernel/src/kalloc.cpp:417-426 | the rounded request is the least size of 24 or more, eight past a multiple of 16, that holds the request, exactly if the word does not overflow |
| `Heap.SplitLimitExact` | kernel/src/kalloc.cpp:437-440 | the test whether the rest of a chunk is worth keeping is right exactly if its right side does not overflow the word |
| `Heap.ExpansionFits` | kernel/src/kalloc.cpp:268-289 | on 64-bit words one expansion holds the request that caused it exactly if request, tags and a page fit the word |
| `Heap.GrowthIsLeast` | kernel/src/kalloc.cpp:268-289 | it is the least multiple of 4096, of 16384 at least, that is larger than request and tags |
| `Heap.RequestIsServable` | kernel/src/kalloc.cpp:412-433 | a request is rounded up, met by one expansion and split rightly exactly up to 2^64 - 4152 bytes |
| `Heap.FirstUnservable` | kernel/src/kalloc.cpp:268-289 | one byte more, and the expansion has size zero |
| `Heap.SplitCanWrap` | kernel/src/kalloc.cpp:437-440 | for 2^64 - 56 bytes the split limit is 48 |
| `Heap.RoundingCanShrink` | kernel/src/kalloc.cpp:422-426 | the largest 64-bit request is rounded to eight bytes |
| `Heap.NeighboursInverse` | kernel/src/kalloc.cpp:302-327 | the left and right neighbour functions are inverse, and null exactly at the ends of a region |
| `Heap.FrontServes` | kernel/src/kalloc.cpp:428-486 | the first chunk on the list serves a request exactly if it is large enough |
| `Heap.KernelHeap.constructor` | kernel/src/kalloc.cpp:392-403 | the initial heap is valid, with nothing live and one region |
| `Heap.KernelHeap.InsertAfter` | kernel/src/kalloc.cpp:228-238 | the block is listed behind the given one, all else in the list in its order |
| `Heap.KernelHeap.Remove` | kernel/src/kalloc.cpp:242-253 | just that block leaves the list |
| `Heap.KernelHeap.ExpandHeap` | kernel/src/kalloc.cpp:268-300 | a region of the computed size joins as one free chunk at the front, live chunks unchanged |
| `Heap.KernelHeap.Absorb` | kernel/src/kalloc.cpp:333-369 | two neighbours become one chunk and the free one leaves the list: the step that `HeapSteps.MergedIsGood` is about |
| `Heap.KernelHeap.Coalesce` | kernel/src/kalloc.cpp:329-372 | the chunk is merged with both free neighbours, so that none is left beside it; it starts where the left one did, the merged ones leave the list and the others keep their order; other live chunks and the bytes are unchanged |
| `Heap.KernelHeap.Carve` | kernel/src/kalloc.cpp:435-482 | the chunk becomes live: with more than 104 bytes to spare it is cut to the request and the rest takes its place on the list, else it leaves the list whole |
| `Heap.KernelHeap.Search` | kernel/src/kalloc.cpp:428-486 | the search ends, with the first fit and the heap unchanged if there is one, else with the region of one expansion, or nothing |
| `Heap.KernelHeap.Malloc` | kernel/src/kalloc.cpp:412-502 | a new live chunk: aligned to 16, at least 24 bytes and as large as asked, and at most 104 bytes larger than any size that serves the request; it is the first on the list that is large enough, or that of one new region put at the front; it is cut or taken whole, and the list is otherwise the same; everything else live is unchanged; fails only if nothing fits and no region is to be had |
| `Heap.KernelHeap.Release` | kernel/src/kalloc.cpp:519-523 | the chunk stops being live and its bytes return, coalesced, at the front of the list; the others keep their order |
| `Heap.KernelHeap.Free` | kernel/src/kalloc.cpp:504-528 | the payload stops being live and nothing else does; its chunk, with its free neighbours, is the first on the list, and the others keep their order; a chunk that is free already is refused and nothing changes |
| `Heap.KernelHeap.FreeMemory` | kernel/src/kalloc.cpp:542-553 | one turn around the list sums the free bytes: with tags and used bytes they are all bytes allocated |
| `HeapUniqueness.SameStarts` | kernel/src/kalloc.cpp:329-372 | in two coalesced heaps with the same chunks handed out, chunks start at the same addresses |
| `HeapUniqueness.LiveDecidesLayout` | kernel/src/kalloc.cpp:329-372 | the chunks handed out decide all chunks, their sizes and which are free, whatever the history |
| `HeapUniqueness.RoundTrip` | kernel/src/kalloc.cpp:412-528 | a request that fits and its release leave the heap cut exactly as it was |
| `HeapUniqueness.Reuse` | kernel/src/kalloc.cpp:412-528 | memory just given back serves the next request that fits it: at the same address, or where its free left neighbour started |
| `Bitmap.MaskReads` | kernel/include/bitmap.hpp:38-54 | testing a word against a mask reads the bit that word and bit offset select |
| `Bitmap.MaskWrites` | kernel/include/bitmap.hpp:107-123 | masking in or out changes exactly one bit of the whole array |
| `Bitmap.WordBits` | kernel/include/bitmap.hpp:77-89 | the bits of a word are 64 consecutive bits of the array |
| `Bitmap.FullWord` | kernel/include/bitmap.hpp:94-102 | a word equals all ones exactly if its 64 bits are set |
| `Bitmap.StaticBitmap.SetAll` | kernel/include/bitmap.hpp:68-72 | every bit is set |
| `Bitmap.StaticBitmap.SetBit` | kernel/include/bitmap.hpp:77-89 | the lowest set bit, or none exactly if all are clear |
| `Bitmap.StaticBitmap.SetWord` | kernel/include/bitmap.hpp:94-102 | the start of the lowest word of ones, or none exactly if there is none |
| `Bitmap.StaticBitmap.IsSet` | kernel/include/bitmap.hpp:107-109 | the bit is read |
| `Bitmap.StaticBitmap.Set` | kernel/include/bitmap.hpp:114-116 | one bit is set, the others kept |
| `Bitmap.StaticBitmap.Unset` | kernel/include/bitmap.hpp:121-123 | one bit is cleared, the others kept |
| `BuddyModel.UnitsDecideTree` | kernel/include/buddy_allocator.hpp:236-323 | in a bitmap tree the lowest level decides all levels |
| `BuddyModel.FreeBlockHasFreeUnits` | kernel/include/buddy_allocator.hpp:91-113 | a set bit at any level means that every unit of the block is free |
| `BuddyModel.FreeUnitsMakeFreeBlock` | kernel/include/buddy_allocator.hpp:306-323 | and a block all of whose units are free has its bit set, whatever the level |
| `BuddyModel.AllSetIsGood` | kernel/include/buddy_allocator.hpp:61-66 | all bits set is the tree with nothing handed out |
| `BuddyModel.TakingKeepsTree` | kernel/include/buddy_allocator.hpp:236-245 | clearing a block with all it overlaps, below and above, keeps the tree |
| `BuddyModel.FillingAlmostKeepsTree` | kernel/include/buddy_allocator.hpp:252-258 | setting a block and what is below it keeps the tree but for the parents |
| `BuddyModel.ClimbStep` | kernel/include/buddy_allocator.hpp:306-323 | setting the parent of two free halves moves the one broken place a level up |
| `BuddyModel.ClimbStop` | kernel/include/buddy_allocator.hpp:306-323 | when the buddy is not free the tree is whole again |
| `BuddyModel.TakingIsExact` | kernel/include/buddy_allocator.hpp:91-150 | taking free units adds exactly that block to the disjoint blocks handed out |
| `BuddyModel.GivingIsExact` | kernel/include/buddy_allocator.hpp:157-177 | setting the units of a range for a live block leaves exactly the units of the other blocks clear if and only if no other block reaches into the range |
| `BuddyModel.LiveDecidesBitmaps` | kernel/include/buddy_allocator.hpp:236-323 | the blocks handed out decide every bit of every level, whatever the history |
| `Buddy.LevelIsSmallest` | kernel/include/buddy_allocator.hpp:197-215 | the level of a small request is the smallest whose blocks hold it |
| `Buddy.WordLevel` | kernel/include/buddy_allocator.hpp:217-229 | the smallest level of which one word of blocks holds the request |
| `Buddy.ReservedIsEnough` | kernel/include/buddy_allocator.hpp:72-86 | no request is given less than it asked for |
| `Buddy.ReservedIsLeast` | kernel/include/buddy_allocator.hpp:72-86 | what is set aside for up to 8192 pages is the least power of two that holds them |
| `Buddy.ReturnedMatches` | kernel/include/buddy_allocator.hpp:157-177 | a release gives back what was reserved exactly outside 129 to 4096 pages, and never less; from 129 to 8192 pages it gives back 8192 |
| `Buddy.ChargedExactly` | kernel/src/physical_allocator.cpp:221-239 | the counter of allocated bytes is charged what the request sets aside for no request but the empty one, because the page count is taken for a level |
| `Buddy.RangeIsTaken` | kernel/include/buddy_allocator.hpp:91-140 | a range of blocks that are not all free overlaps a live block |
| `Buddy.BuddyAllocator.TakenDown` | kernel/include/buddy_allocator.hpp:271-283 | every block below is cleared, nothing else changes |
| `Buddy.BuddyAllocator.FreeDown` | kernel/include/buddy_allocator.hpp:285-297 | every block below is set, nothing else changes |
| `Buddy.BuddyAllocator.TakenUp` | kernel/include/buddy_allocator.hpp:299-304 | every block above is cleared, nothing else changes |
| `Buddy.BuddyAllocator.FreeUp` | kernel/include/buddy_allocator.hpp:306-323 | the tree is restored and the units are untouched |
| `Buddy.BuddyAllocator.MarkUsed` | kernel/include/buddy_allocator.hpp:236-245 | exactly the blocks that overlap are cleared, on all levels, and the tree is kept |
| `Buddy.BuddyAllocator.MarkFree` | kernel/include/buddy_allocator.hpp:252-261 | exactly the units of the block are set and the tree is kept |
| `Buddy.BuddyAllocator.Init` | kernel/include/buddy_allocator.hpp:61-66 | all blocks are free and the invariant holds |
| `Buddy.BuddyAllocator.AllocateBlock` | kernel/include/buddy_allocator.hpp:92-113 | the lowest free block of the level, inside the range; fails exactly if every free block is too high |
| `Buddy.BuddyAllocator.AllocateWord` | kernel/include/buddy_allocator.hpp:114-140 | the lowest free word of blocks, inside the range; fails exactly if every free word is too high |
| `Buddy.BuddyAllocator.PlaceBlock` | kernel/include/buddy_allocator.hpp:92-113 | said of the live blocks: the lowest aligned range that no block reaches into, none exactly if there is none |
| `Buddy.BuddyAllocator.PlaceWord` | kernel/include/buddy_allocator.hpp:114-140 | the same for a word of blocks |
| `Buddy.BuddyAllocator.Allocate` | kernel/include/buddy_allocator.hpp:91-150 | the lowest clear range of the reserved size, aligned and in range, becomes live; no address exactly if there is no such range; failure changes nothing |
| `Buddy.BuddyAllocator.Free` | kernel/include/buddy_allocator.hpp:157-177 | for every size, also past the managed units where the bitmaps have room: exactly the returned units are set, the block stops being live, the bitmaps stay a tree, and the invariant holds exactly if no other block reaches into the returned range |
| `Buddy.BuddyAllocator.MismatchedRelease` | kernel/include/buddy_allocator.hpp:157-177 | for each size of 129 to 4096 pages: take it, take a unit, release the first; the unit is live and marked free |
| `Buddy.BuddyAllocator.RoundTrip` | kernel/include/buddy_allocator.hpp:91-177 | a request and its release, wherever the bitmaps have room for it, leave every bitmap of every level as it was exactly if no other block reaches into the returned range, which outside 129 to 4096 pages none does |
| `CacheModel.MissIsFifo` | kernel/src/block_cache.cpp:95-157 | taking over the oldest block turns the held keys into the last missed keys, one more missed |
| `CacheModel.VictimHeadsChain` | kernel/src/block_cache.cpp:98-125 | the oldest block is always the head of its bucket chain, so the failing search is never reached |
| `CacheModel.EvictionKeepsTable` | kernel/src/block_cache.cpp:101-106 | dropping the victim leaves every chain right |
| `CacheModel.InsertionKeepsTable` | kernel/src/block_cache.cpp:129-146 | linking at the end keeps every chain in order of entry |
| `CacheModel.RotationKeepsQueue` | kernel/src/block_cache.cpp:148-155 | the ring stays a ring although the last block's link is stale |
| `BlockCache.HeldInChain` | kernel/src/block_cache.cpp:57-77 | a key is held exactly if a block of its chain carries it |
| `BlockCache.Cache.constructor` | kernel/src/block_cache.cpp:12-51 | the empty cache is valid and nothing was missed |
| `BlockCache.Cache.BlockIfPresent` | kernel/src/block_cache.cpp:57-77 | finds the block exactly if the key is among the last missed keys, as many as there are blocks |
| `BlockCache.Cache.Evict` | kernel/src/block_cache.cpp:100-125 | the victim leaves its chain by its head |
| `BlockCache.Cache.Insert` | kernel/src/block_cache.cpp:129-146 | the block carries the key at the end of that key's chain |
| `BlockCache.Cache.Rotate` | kernel/src/block_cache.cpp:148-155 | the front of the ring becomes its rear |
| `BlockCache.Cache.TakeOver` | kernel/src/block_cache.cpp:95-157 | the oldest block is taken over and the key joins the missed keys |
| `BlockCache.Cache.GetBlock` | kernel/src/block_cache.cpp:83-158 | hit exactly if held; a miss takes over the oldest block and no payload changes |
| `Ata.KeysApart` | kernel/src/block_cache.cpp:79-81 | keys of different sectors differ and none is the unused key |
| `Ata.KeysApartExactly` | kernel/src/block_cache.cpp:79-81 | keys of the four drives are injective if and only if drives have at most 0x100000 sectors |
| `Ata.WriteIsCoherentBut` | kernel/src/drivers/ata.cpp:561-582 | a device write leaves right all cached sectors but the written one and those that were not |
| `Ata.OnlyHeldCount` | kernel/src/block_cache.cpp:83-158 | a key that is no longer held is no longer bad |
| `Ata.FillIsCoherent` | kernel/src/drivers/ata.cpp:539-553 | a block filled from the device is right |
| `Ata.Driver.constructor` | kernel/src/drivers/ata.cpp:357-358 | an empty cache of 256 blocks is coherent |
| `Ata.Driver.ReadSector` | kernel/src/drivers/ata.cpp:539-553 | fails exactly if the sector is not held and the transfer fails; unless an earlier failure spoiled it the data is the device's; the sector joins the missed ones exactly if it was not held; a failed transfer spoils this sector only; all other cached sectors are right |
| `Ata.Driver.ReadSectors` | kernel/src/drivers/ata.cpp:536-559 | every sector read that was not bad is what the device holds, the count is right also on failure, and a failure spoils the failing sector at most |
| `Ata.Driver.WriteSector` | kernel/src/drivers/ata.cpp:564-576 | device and cache hold the data afterwards; a failed transfer changes no sector and spoils this one at most |
| `Ata.Driver.WriteSectors` | kernel/src/drivers/ata.cpp:561-582 | the device holds the source in exactly the sectors written, which are right in the cache; a failure spoils the failing sector at most |
| `Ata.Driver.ClearSectors` | kernel/src/drivers/ata.cpp:584-602 | the sectors are zero on the device and right in the cache; a failure spoils the failing sector at most |
| `SchedulerModel.ChoiceIsUnique` | kernel/src/scheduler.cpp:404-452 | at most one process is the runnable one of highest priority first behind the current |
| `SchedulerModel.CreationKeepsTable` | kernel/src/scheduler.cpp:259-281 | a new process in an empty slot keeps the table, the queues and the waits right, also when a number is reused |
| `SchedulerModel.EnqueueKeepsTable` | kernel/src/scheduler.cpp:283-296 | a queued process is in its queue once |
| `SchedulerModel.HintIsSafe` | kernel/src/scheduler.cpp:1009-1021 | making a process ready by a hint keeps the invariant exactly if it is in a run queue, and keeps ended processes ended exactly if it has moreover not ended |
| `SchedulerModel.HintCanRevive` | kernel/src/scheduler.cpp:1009-1021 | a hint to an ended process makes it runnable again |
| `SchedulerModel.BlockingAnother` | kernel/src/scheduler.cpp:986-996 | blocking a process other than the current is right exactly under the same condition |
| `SchedulerModel.LiveNeedsQueue` | kernel/src/scheduler.cpp:283-296 | a process in no run queue cannot be given a live state |
| `SchedulerModel.CollectionKeepsInv` | kernel/src/scheduler.cpp:95-187 | collecting an ended process keeps the invariant |
| `SchedulerModel.ExitKeepsCore` | kernel/src/scheduler.cpp:835-857 | ending a process leaves nobody waiting for it and nobody running |
| `SchedulerModel.TickKeepsInv` | kernel/src/scheduler.cpp:864-911 | a tick, with the wake-ups and the preemption it brings, keeps the invariant |
| `SchedulerModel.MiddleKeepsCore` | kernel/src/scheduler.cpp:913-1043 | in every call that gives up the processor, before the switch nobody runs and all else holds |
| `SchedulerModel.StepKeepsInv` | kernel/src/scheduler.cpp:864-1043 | every step keeps: exactly the current process runs, idle can run, queues hold each live process once and in its priority, awaited children live |
| `SchedulerModel.RunKeepsInv` | kernel/src/scheduler.cpp:864-1043 | every state of every run keeps the invariant |
| `SchedulerModel.NoLostWakeUp` | kernel/src/scheduler.cpp:803-862 | in every reachable state the child a process waits for is its own and has not ended |
| `SchedulerModel.ExitWakesParent` | kernel/src/scheduler.cpp:835-862 | the step that ends a process makes its waiting parent runnable |
| `SchedulerModel.SelectionApproaches` | kernel/src/scheduler.cpp:417-440 | a selection picks a ready process or leaves fewer before it |
| `SchedulerRuns.StepApproaches` | kernel/src/scheduler.cpp:404-452 | a step that chooses picks a ready process of the level or brings it nearer |
| `SchedulerRuns.RunsWithin` | kernel/src/scheduler.cpp:404-452 | in every run that keeps level and queue, a ready process with d places before it runs after d + 1 selections at most |
| `SchedulerRuns.ReadyRunsSoon` | kernel/src/scheduler.cpp:404-452 | so it runs within as many selections as its queue is long |
| `SchedulerRuns.RunKeepsRounds` | kernel/src/scheduler.cpp:883-907 | over every run no process has used more than its quantum |
| `SchedulerRuns.TicksMakeSelections` | kernel/src/scheduler.cpp:864-911 | in every run a process is chosen at least once in a quantum and one ticks |
| `SchedulerRuns.ReadyRunsInTime` | kernel/src/scheduler.cpp:864-911 | so a process that stays ready at its level runs within as many quanta of ticks as its queue is long |
| `SchedulerPolicy.TickCounts` | kernel/src/scheduler.cpp:883-907 | before the quantum is used up a tick counts a round and leaves the process running; the tick after it starts the count again |
| `SchedulerPolicy.PreemptedExactly` | kernel/src/scheduler.cpp:883-907 | that tick takes the processor from it exactly if, with the timers counted, another process of its priority or a higher one can run |
| `SchedulerPolicy.QuantumLasts` | kernel/src/scheduler.cpp:864-911 | over every run in which the current process gives nothing up it stays current while its rounds and the ticks are within the quantum |
| `SchedulerPolicy.QuantumEnds` | kernel/src/scheduler.cpp:864-911 | and at the next tick it is replaced exactly if it has such a rival |
| `SchedulerPolicy.HighestRuns` | kernel/src/scheduler.cpp:404-452 | after every step that chooses, no process that can run has a higher priority than the current one |
| `SchedulerPolicy.QueuedLast` | kernel/src/scheduler.cpp:283-296 | a queued process is ready and stands last in the queue of its priority, behind all that were there, in their order; the other queues stay |
| `SchedulerPolicy.EarlierFirst` | kernel/src/scheduler.cpp:404-452 | at a level other than the current one no process is chosen while one before it in the queue can run |
| `SchedulerPolicy.RunKeepsOrder` | kernel/src/scheduler.cpp:151-296 | over every run two processes keep their order in a queue until one is collected |
| `SchedulerPolicy.FirstQueuedFirst` | kernel/src/scheduler.cpp:283-452 | so of two processes at a level other than the current one the one queued first is chosen first, in every run |
| `SchedulerPolicy.CreatorIsParent` | kernel/src/scheduler.cpp:259-281 | a fresh process is a live child of its creator, of priority 3 and not queued, and nobody else changes |
| `SchedulerPolicy.RoundsAreInherited` | kernel/src/scheduler.cpp:259-281 | it starts with the rounds that the last owner of its slot left |
| `SchedulerPolicy.ChildUntilEnd` | kernel/src/scheduler.cpp:803-862 | over every run, until its slot is given out again, a process is a live child exactly until it ends |
| `SchedulerPolicy.CreatorCanWait` | kernel/src/scheduler.cpp:259-833 | so a creator finds its child to wait for, and is not told that it is done, exactly as long as the child has not ended |
| `SchedulerPolicy.NextFreeSlot` | kernel/src/scheduler.cpp:228-257 | the slot given out is empty, and all on the way to it from the next number, round the table, are taken |
| `SchedulerPolicy.CollectedExactly` | kernel/src/scheduler.cpp:95-187 | collecting a process empties its slot, takes it out of its queue, and wakes its parent if that waits for a child; nothing else changes |
| `SchedulerPolicy.ExitWakesCollector` | kernel/src/scheduler.cpp:852-857 | the end of a process makes a blocked collector runnable |
| `SchedulerPolicy.WokenCanRun` | kernel/src/scheduler.cpp:913-1021 | a process that is woken, or that yields, can run |
| `SchedulerModel.TickOutside` | kernel/src/scheduler.cpp:864-911 | outside calls the tick of any state is the timer step |
| `SchedulerTicks.TickKeepsInside` | kernel/src/scheduler.cpp:864-911 | a tick inside a call leaves it there with nobody running, or ends it with the chosen process running |
| `SchedulerTicks.EarlyExactly` | kernel/src/scheduler.cpp:885-907 | a tick inside a call does more to the current process than count its timer exactly if the quantum is used up, another process is chosen, and the process is neither blocked nor just woken; then it can run |
| `SchedulerTicks.EarlyInCalls` | kernel/src/scheduler.cpp:803-862 | for each call: never when blocking, with or without timeout; when sleeping, waiting or ending exactly if the quantum is used up and another process is chosen |
| `SchedulerTicks.RevivedExactly` | kernel/src/scheduler.cpp:835-911 | an ended process can run again after a tick before the switch exactly if that tick has the quantum used up and chooses another |
| `SchedulerTicks.WokenEarlyExactly` | kernel/src/scheduler.cpp:1027-1043 | a process that goes to sleep for more than one tick sleeps on through a tick before the switch exactly if not so |
| `SchedulerTicks.RescheduleExactly` | kernel/src/scheduler.cpp:930-945 | the end of a call restores the invariant exactly if it chooses another process; it chooses the same only if its timer ended inside the call |
| `SchedulerTicks.YieldResumed` | kernel/src/scheduler.cpp:913-928 | a yield that was preempted half way, when it goes on, keeps the invariant exactly if it chooses the same process |
| `SchedulerTicks.WholeIsBeginFinish` | kernel/src/scheduler.cpp:930-945 | a call that no tick comes into is one step |
| `SchedulerTicks.ActRunKeepsOk` | kernel/src/scheduler.cpp:803-1043 | every run with ticks inside calls is between calls with one process running, or inside one with none |
| `SchedulerTicks.StepKeepsTimer` | kernel/src/scheduler.cpp:971-1043 | no step but a tick or its own unblocking touches a sleeping process |
| `SchedulerTicks.EndedStaysEnded` | kernel/src/scheduler.cpp:835-1043 | nothing but its collection changes the state of an ended process, no tick inside a call either, unless it is early |
| `SchedulerTicks.EndedNeverRuns` | kernel/src/scheduler.cpp:835-1043 | in every run, also with ticks inside calls that are not early, an ended process does not run until it is collected |
| `SchedulerTicks.SleepsOn` | kernel/src/scheduler.cpp:869-879 | in every such run a process put to sleep for t ticks sleeps through the first t - 1, inside calls or not |
| `SchedulerTicks.WakesOnTime` | kernel/src/scheduler.cpp:869-879 | and the t-th tick, inside a call or not, makes it ready |
| `SchedulerModel.RemovedAt` | kernel/src/scheduler.cpp:157-162 | erasing the found entry removes that process and no other |
| `Scheduler.TicksFor` | kernel/src/scheduler.cpp:976-978 | a timeout is at least one tick, and the product of time and rate exactly if that is positive and fits 64 bits |
| `Scheduler.Processes.constructor` | kernel/src/scheduler.cpp:61-71 | the empty table is right |
| `Scheduler.Processes.CreateTask` | kernel/src/scheduler.cpp:298-309 | a system task gets the next slot and the given parent, is queued at its priority, and the table stays right |
| `Scheduler.Processes.CreateInputTasks` | kernel/src/stdio.cpp:170-190 | one task for each terminal, with priority 3 and process 1 as parent |
| `Scheduler.Processes.CreateInitTasks` | kernel/src/scheduler.cpp:311-336 | one task for each terminal, with priority 2 and process 0 as parent |
| `Scheduler.Processes.Init` | kernel/src/scheduler.cpp:685-695 | the idle task is process 0 at priority 1, terminal tasks and the collector have priority 2, the last task of the boot has priority 4; the parent of all is process 0 |
| `Scheduler.Processes.Start` | kernel/src/scheduler.cpp:697-710 | the invariant holds from the start on |
| `Scheduler.Processes.ScanQueue` | kernel/src/scheduler.cpp:409-414 | the first process of a queue that can run, or none exactly if none can |
| `Scheduler.Processes.SelectNextProcess` | kernel/src/scheduler.cpp:404-452 | returns the choice, and never reaches the end without one |
| `Scheduler.Processes.SwitchToProcess` | kernel/src/scheduler.cpp:364-390 | the process becomes current and running; a switch to itself does nothing |
| `Scheduler.Processes.Reschedule` | kernel/src/scheduler.cpp:930-945 | unless the current process runs the choice takes over; a choice of the current process changes nothing |
| `Scheduler.Processes.Yield` | kernel/src/scheduler.cpp:913-928 | is the yielding step, and keeps the invariant |
| `Scheduler.Processes.BlockProcess` | kernel/src/scheduler.cpp:986-996 | for the current process the blocking step, which keeps the invariant; for another one a change of state that keeps it exactly if that process is in a run queue |
| `Scheduler.Processes.BlockProcessTimeout` | kernel/src/scheduler.cpp:971-984 | is the step of blocking with a timeout, and keeps the invariant |
| `Scheduler.Processes.SleepMs` | kernel/src/scheduler.cpp:1027-1043 | is the sleeping step, and keeps the invariant |
| `Scheduler.Processes.UnblockProcess` | kernel/src/scheduler.cpp:998-1007 | is the waking step, and keeps the invariant |
| `Scheduler.Processes.UnblockProcessHint` | kernel/src/scheduler.cpp:1009-1021 | makes the process ready unless it runs, whatever its state; the invariant is kept exactly if it is in a run queue; for one that has not ended it is the waking step |
| `Scheduler.Processes.TickAll` | kernel/src/scheduler.cpp:869-879 | every timer counts down and those that end make their process ready |
| `Scheduler.Processes.Preempt` | kernel/src/scheduler.cpp:883-907 | with the quantum used up the current process is made ready unless blocked; the choice takes over, or the process gets its state back |
| `Scheduler.Processes.Tick` | kernel/src/scheduler.cpp:864-911 | in any state, also inside a call, the tick of that state; before the quantum is used up it counts a round and the same process stays current; outside calls it is the timer step, which keeps the invariant |
| `Scheduler.Processes.FindChild` | kernel/src/scheduler.cpp:808-823 | finds exactly the own child that has not ended |
| `Scheduler.Processes.AwaitTermination` | kernel/src/scheduler.cpp:803-833 | one round of waiting: done exactly if the child has ended or is none, else the waiting step |
| `Scheduler.Processes.WakeParent` | kernel/src/scheduler.cpp:844-850 | wakes exactly the waiting process of that number |
| `Scheduler.Processes.KillCurrentProcess` | kernel/src/scheduler.cpp:835-862 | is the ending step, and keeps the invariant |
| `Scheduler.Processes.Dequeue` | kernel/src/scheduler.cpp:151-163 | the process leaves its run queue, the others keep their order |
| `Scheduler.Processes.CollectProcess` | kernel/src/scheduler.cpp:95-187 | is the collecting step, and keeps the invariant |
| `Scheduler.Processes.CollectAll` | kernel/src/scheduler.cpp:94-188 | one pass is a run of collecting steps after which no ended process is left |
| `Scheduler.Processes.GetFreePid` | kernel/src/scheduler.cpp:228-257 | the first empty slot from the next number on; fails exactly if none is empty |
| `Scheduler.Processes.NewProcess` | kernel/src/scheduler.cpp:259-281 | is the creating step, or nothing if the table is full; the fresh process is a live child of the current one, with priority 3 |
| `Scheduler.Processes.QueueProcess` | kernel/src/scheduler.cpp:283-296 | is the queueing step: the process is ready and last in the queue of its priority, behind the old queue |
| `LockModel.UpsWake` | kernel/include/conc/semaphore.hpp:98-113 | n permits at once wake the first n waiters and put the rest back |
| `LockModel.StepKeepsGood` | kernel/include/conc/mutex.hpp:42-90 | every call keeps: the permit is in one place, none idle while somebody waits, served in order of arrival |
| `LockModel.CallMeans` | kernel/include/conc/mutex.hpp:42-90 | a caller that finds the mutex free is its only holder; one that finds it taken waits last, or gives up if it only tries; an unlock makes the first waiter the only holder, or frees it |
| `LockModel.CallRunKeepsGood` | kernel/include/conc/mutex.hpp:42-90 | so does every interleaving of calls |
| `LockModel.MutualExclusion` | kernel/include/conc/mutex.hpp:42-90 | over every interleaving two processes never hold the mutex |
| `LockModel.ServedInTurn` | kernel/include/conc/mutex.hpp:42-90 | a waiter with k before it holds the mutex after k + 1 unlocks, those before it first |
| `LockModel.LeaveHandsOver` | kernel/include/conc/mutex.hpp:79-90 | an unlock with waiters makes the first of them the only holder |
| `LockModel.FreeIsUp` | kernel/include/conc/mutex.hpp:79-90 | while only holders unlock, a mutex is a semaphore with one permit |
| `LockModel.StrayLeave` | kernel/include/conc/mutex.hpp:79-90 | an unlock by any process keeps the permit in one place exactly if it holds the mutex, nobody does, or the holder waits first |
| `LockModel.FirstLeave` | kernel/include/conc/mutex.hpp:79-90 | the first unlock of a mutex that starts taken puts the permit in place |
| `LockModel.PostManyConserves` | kernel/include/conc/semaphore.hpp:98-113 | releasing n conserves permits and is n unlocks |
| `LockModel.UseMeans` | kernel/include/conc/semaphore.hpp:39-90 | a call takes one permit if there is one, else the caller waits last, or gives up if it only tries; an unlock gives one, which the first waiter takes |
| `LockModel.UseRunConserves` | kernel/include/conc/semaphore.hpp:39-113 | over every interleaving permits taken plus left are permits at the start plus given, and waiters are served in order |
| `LockModel.WakersAreKnown` | kernel/src/scheduler.cpp:998-1021 | a blocked process is woken by exactly: its unblocking, and, for the collector, the end of any process |
| `LockModel.MoveKeepsOk` | kernel/include/conc/mutex.hpp:42-90 | lock, try-lock, unlock and other scheduler steps keep waiters blocked, distinct and never beside an idle permit |
| `LockModel.AcquireMeans` | kernel/include/conc/mutex.hpp:42-55 | a caller takes a permit and runs on, or is blocked behind the other waiters while another process runs |
| `LockModel.AttemptMeans` | kernel/include/conc/mutex.hpp:64-74 | a try takes a permit exactly if there is one and leaves scheduler and queue alone |
| `LockModel.HandMeans` | kernel/include/conc/mutex.hpp:79-90 | an unlock makes the first waiter runnable and drops it from the queue, or puts the permit back |
| `LockModel.WaitersSleep` | kernel/src/conc/wait_list.cpp:98-110 | in every reachable state the first waiter may be unblocked |
| `LockModel.BlockedExactlyInQueue` | kernel/src/conc/wait_list.cpp:68-110 | no wake-up is lost: in every run a process that blocks for nothing else is blocked exactly while it is in the queue |
| `LockRuns.MutexStepKeepsOk` | kernel/include/conc/mutex.hpp:42-90 | a call on the mutex with its effect on the scheduler, or any other step, keeps waiters asleep and the permit in one place |
| `LockRuns.ExclusiveInRuns` | kernel/include/conc/mutex.hpp:42-90 | in every run of the system two processes never hold the mutex |
| `LockRuns.RunIsCallRun` | kernel/include/conc/mutex.hpp:42-90 | every run of the system is an interleaving of calls by processes that do not wait, with the same unlocks |
| `LockRuns.ServedInRuns` | kernel/include/conc/mutex.hpp:42-90 | in every run of the system a process with k waiting before it is served by the k + 1-st unlock |
| `LockRuns.UnlockIsKnown` | kernel/include/conc/mutex.hpp:79-90 | an unlock by the current process, holder or not, keeps the permit in one place exactly under the stated condition |
| `LockRuns.HolderUnlocks` | kernel/include/conc/mutex.hpp:79-90 | for a holder it is the step of handing over |
| `LockRuns.SemStepKeepsOk` | kernel/include/conc/semaphore.hpp:39-90 | a call on the semaphore with its effect on the scheduler, or any other step, keeps waiters asleep and conserves permits |
| `LockRuns.ConservedInRuns` | kernel/include/conc/semaphore.hpp:39-90 | so does every run of the system |
| `LockRuns.HandsAreOneRelease` | kernel/include/conc/semaphore.hpp:98-113 | n unlocks in a row are one release of n, and keep waiters asleep |
| `LockRuns.HandsWake` | kernel/include/conc/semaphore.hpp:98-113 | and make each of the first n waiters runnable |
| `LockRuns.HandsOnEmptyQueue` | kernel/include/conc/semaphore.hpp:98-113 | with nobody waiting they only count up |
| `LockSystem.SeenIsHarmless` | kernel/include/conc/mutex.hpp:42-90 | a call on one lock is for every other lock a step of the scheduler that wakes none of its waiters, or nothing |
| `LockSystem.GoKeepsOk` | kernel/src/conc/wait_list.cpp:68-110 | any call on any of the locks, and other steps, keep for every lock waiters blocked and no permit idle, and no process waiting for two |
| `LockSystem.WaitsForOne` | kernel/src/conc/wait_list.cpp:68-81 | in every run no process waits for two locks, so that one wait node each is enough |
| `LockSystem.RunForEach` | kernel/include/conc/mutex.hpp:42-90 | every run of many locks is for each a run of that lock alone, so that the laws for one hold of each |
| `WaitLists.WaitList.IsEmpty` | kernel/src/conc/wait_list.cpp:12-14 | true exactly for the empty sequence |
| `WaitLists.WaitList.Top` | kernel/src/conc/wait_list.cpp:16-18 | the first waiter |
| `WaitLists.WaitList.Waiting` | kernel/src/conc/wait_list.cpp:20-35 | true exactly if the node is in the sequence |
| `WaitLists.WaitList.Enqueue` | kernel/src/conc/wait_list.cpp:68-81 | the node is appended and its process blocked |
| `WaitLists.WaitList.EnqueueTimeout` | kernel/src/conc/wait_list.cpp:83-96 | the node is appended and its process blocked with the timeout |
| `WaitLists.WaitList.Dequeue` | kernel/src/conc/wait_list.cpp:98-110 | the first node is dropped and its process ready |
| `WaitLists.WaitList.DequeueHint` | kernel/src/conc/wait_list.cpp:112-124 | the first node is dropped and its process ready unless it runs, whatever its state; the invariant is kept exactly if it is in a run queue |
| `WaitLists.WaitList.Remove` | kernel/src/conc/wait_list.cpp:37-66 | the node leaves the sequence; head and tail stay right exactly if it was the first or not the last |
| `Locks.Mutex.constructor` | kernel/include/conc/mutex.hpp:31-37 | the value is capped at one, nobody waits, and the run of the mutex starts |
| `Locks.Mutex.Lock` | kernel/include/conc/mutex.hpp:42-55 | is the locking step of the run: takes the permit, or waits behind the others while another process runs; the permit stays in one place |
| `Locks.Mutex.TryLock` | kernel/include/conc/mutex.hpp:64-74 | is the trying step of the run: takes the permit exactly if there is one |
| `Locks.Mutex.Unlock` | kernel/include/conc/mutex.hpp:79-90 | hands the permit to the first waiter, or frees it, whoever calls; the permit stays in one place exactly if the caller holds it or in the other stated cases |
| `Locks.Semaphore.Lock` | kernel/include/conc/semaphore.hpp:39-51 | is the locking step of the run: takes a permit, or waits behind the others while another process runs; permits are conserved |
| `Locks.Semaphore.constructor` | kernel/include/conc/semaphore.hpp:29-31 | the permits are there, nobody waits, and the run of the semaphore starts |
| `Locks.Semaphore.TryLock` | kernel/include/conc/semaphore.hpp:60-70 | is the trying step of the run: takes a permit exactly if there is one |
| `Locks.Semaphore.Unlock` | kernel/include/conc/semaphore.hpp:78-90 | is the unlocking step of the run: hands a permit to the first waiter, or puts it back |
| `Locks.Semaphore.Release` | kernel/include/conc/semaphore.hpp:98-113 | equals n unlocking steps of the run, on the lock, on the scheduler and on the count of permits |
| `PagingModel.FlagsKeepPage` | kernel/src/paging.cpp:67-86 | or-ing flags keeps the page of an entry and decides its presence |
| `PagingModel.PathsIdentifyPages` | kernel/src/paging.cpp:47-61 | the four indexes are the digits of the page number modulo 2^36 to the base 512, the top table's first, and so equal exactly if those numbers are |
| `PagingRights.UserPageAllows` | kernel/src/paging.cpp:517-576 | an entry made for user code is present and grants writing and user access: bits 0, 1 and 2 |
| `PagingRights.OpenWalks` | kernel/src/paging.cpp:503-579 | if every present entry outside the kernel grants these rights, user code that writes reaches exactly the user pages that are translated |
| `PagingRights.GrantsOpen` | kernel/src/paging.cpp:503-579 | which a change keeps if every entry it makes grants them |
| `PagingRights.GrowGrants` | kernel/src/paging.cpp:517-526 | hanging a new table on an entry is such a change |
| `PagingRights.WriteGrants` | kernel/src/paging.cpp:573-576 | and so is writing the last entry |
| `PagingModel.OneEntryPerTable` | kernel/src/paging.cpp:503-579 | no table is shared: two entries that lead to one table are the same |
| `PagingModel.ReachedIsOwned` | kernel/src/paging.cpp:67-86 | a walk reaches the table that the indexes belong to |
| `PagingModel.OtherWalksSame` | kernel/src/paging.cpp:503-579 | writing an entry affects only walks through it |
| `PagingModel.GrowKeepsTree` | kernel/src/paging.cpp:517-526 | hanging a new table on an absent entry keeps the tables a tree |
| `PagingModel.GrowKeepsWalk` | kernel/src/paging.cpp:517-526 | and changes no other walk, so no translation |
| `PagingModel.GrowFills` | kernel/src/paging.cpp:517-526 | and makes exactly one table that was absent |
| `PagingModel.LostWalk` | kernel/src/paging.cpp:517-576 | with the tables from some level on in page zero: one such table serves, with two or more the page is not translated unless its indexes agree |
| `PagingModel.ZeroIsNoTable` | kernel/src/physical_allocator.cpp:221-233 | a table with an entry that leads to page zero, which the allocator returns for failure, is part of no tree |
| `PagingModel.LeafKeepsTree` | kernel/src/paging.cpp:573-576 | writing a last-level entry keeps the tree |
| `PagingModel.LeafSetsWalk` | kernel/src/paging.cpp:573-576 | and sets the translation of its page |
| `PagingModel.LeafKeepsWalk` | kernel/src/paging.cpp:573-576 | and no other |
| `PagingModel.LeafKeepsEntry` | kernel/src/paging.cpp:573-576 | nor any other last-level entry |
| `Paging.PagesApart` | kernel/src/paging.cpp:581-593 | different pages of a range have different indexes |
| `Paging.LookupInside` | kernel/src/paging.cpp:581-593 | after a range is mapped its k-th page leads to the k-th frame |
| `Paging.LookupOutside` | kernel/src/paging.cpp:581-593 | and pages outside lead where they did |
| `Paging.LowThirteenIsTranslation` | kernel/src/paging.cpp:285-305 | physical_address is the translation exactly in even pages |
| `Paging.UnmapUndoesMap` | kernel/src/paging.cpp:384-474 | unmapping a range undoes mapping it for every page |
| `Paging.RestIsSame` | kernel/src/paging.cpp:384-412 | setting the entries of some pages of a range leaves those of the others |
| `Paging.EntriesAreMapped` | kernel/src/paging.cpp:384-412 | a range whose entries are set is mapped |
| `Paging.AddressSpace.Ensure` | kernel/src/paging.cpp:517-528 | the table below an entry, made if absent, with no translation changed; a frame is taken exactly if the table was absent; without one, page zero is entered and then cleared |
| `Paging.AddressSpace.UserMap` | kernel/src/paging.cpp:503-579 | with page zero no table afterwards: the page leads to the frame, every other page where it did, the tables stay a tree, the kernel's tables are untouched for user addresses, a frame is taken for each table made, and a failure changes no translation; if all tables are seen, page zero becomes a table exactly if frames are fewer than absent tables, and what the page then leads to is stated; every entry made on the way, and the last one, grants writing and user access, so user code still reaches exactly the user pages that are translated |
| `Paging.AddressSpace.MapWithoutFrames` | kernel/src/paging.cpp:503-579 | with no frame and two tables or more absent the call says that it succeeded and leaves the page untranslated |
| `Paging.AddressSpace.UserMapPages` | kernel/src/paging.cpp:581-593 | with page zero no table afterwards: the range up to the first failure is mapped, nothing else changes, the kernel's tables are untouched, and the frames taken are the tables that were absent and are there now; if all tables are seen, page zero becomes a table exactly if frames are fewer than absent tables; every entry made grants writing and user access |
| `Paging.MappedHasTables` | kernel/src/paging.cpp:581-593 | a range that is mapped has all its tables |
| `Paging.AddressSpace.PagePresent` | kernel/src/paging.cpp:307-331 | true exactly if the walk succeeds |
| `Paging.AddressSpace.PhysicalAddress` | kernel/src/paging.cpp:285-305 | the frame plus the low thirteen bits, or zero |
| `Paging.AddressSpace.PageFreeOrSet` | kernel/src/paging.cpp:333-343 | true exactly if the page is absent or that address is the given one |
| `Paging.AddressSpace.Map` | kernel/src/paging.cpp:345-382 | succeeds exactly if the address is aligned and the page absent or its entry the wanted one; then it has that entry, and no other entry changes; a present one is never written |
| `Paging.AddressSpace.MapPages` | kernel/src/paging.cpp:384-412 | succeeds exactly if aligned, no page leads elsewhere and every present page has the wanted entry; nothing changes if a page leads elsewhere, else the pages before the first that does not fit are mapped, and nothing else changes |
| `Paging.AddressSpace.Unmap` | kernel/src/paging.cpp:414-456 | the page is absent, the others keep their translation |
| `Paging.AddressSpace.UnmapPages` | kernel/src/paging.cpp:458-474 | the range is absent, the others keep their translation |
| `Paging.AddressSpace.MapAndUnmap` | kernel/src/paging.cpp:384-474 | mapping an absent range and unmapping it restores every translation |
| `ProcessPaging.SharedIsTree` | kernel/src/paging.cpp:483-493 | a top table over the kernel's tables is a tree again |
| `ProcessPaging.SharedWalk` | kernel/src/paging.cpp:483-493 | a new process translates kernel addresses as the kernel does and nothing else |
| `ProcessPaging.KernelEntryRights` | kernel/src/paging.cpp:483-493 | the entry that leads to the kernel's tables is their address plus 5: present and for user code, but not for writing |
| `ProcessPaging.KernelIsClosed` | kernel/src/paging.cpp:483-493 | so user code writes to no kernel page, in a new space and while its kernel entries stay |
| `ProcessPaging.MapKernelInsideUser` | kernel/src/paging.cpp:483-493 | the top table holds the kernel's entries and is empty otherwise |
| `ProcessPaging.CreateSpace` | kernel/src/scheduler.cpp:503-515 | the address space of a new process is a tree with exactly the kernel mapped, in which every user page, of which there is none yet, can be reached by user code |
| `ProcessPaging.RecordExactly` | kernel/src/paging.cpp:517-563 | recording the first table for each table made is right exactly if that alone is made, or nothing |
| `ProcessPaging.ProcessPages.UserMap` | kernel/src/paging.cpp:503-579 | mapping a page with the bookkeeping of the process: the size of every table made is counted; the frames recorded are those made exactly if only the first table was, or none; after a success that means none |
| `SharedPaging.KernelAddressesAlike` | kernel/src/paging.cpp:483-493 | over one memory, spaces that share the kernel's tables translate every kernel address as the kernel does |
| `SharedPaging.UserMappedIsOk` | kernel/src/paging.cpp:503-579 | a user page mapped in one of them leaves the others as they are in memory, and the sharing |
| `SharedPaging.JoinIsOk` | kernel/src/paging.cpp:483-493 | so does the start of a process |
| `SharedPaging.KernelMappedIsOk` | kernel/src/paging.cpp:345-382 | an entry written in a kernel table is written for all of them |
| `SharedPaging.AlikeInRuns` | kernel/src/paging.cpp:345-593 | in every run of such steps all spaces translate every kernel address alike |
| `SharedPaging.RightsInRuns` | kernel/src/paging.cpp:345-593 | and user code reaches for writing exactly the pages outside the kernel that are translated |
| `SharedPaging.UserMapIn` | kernel/src/paging.cpp:503-579 | mapping a user page is such a step, with the rights of user code |
| `SharedPaging.MapInKernel` | kernel/src/paging.cpp:345-382 | mapping a kernel page is such a step, after which every space translates it as its entry says |
| `PathModel.NormalIsCanonical` | kernel/src/path.cpp:14-39 | normalising leaves no double slash and a final one, and keeps whether the path is absolute |
| `PathModel.NormalTwice` | kernel/src/path.cpp:14-39 | normalising is idempotent |
| `PathModel.NormalKeepsNames` | kernel/src/path.cpp:14-39 | normalising any string keeps its words |
| `PathModel.NamesRebuild` | kernel/src/path.cpp:157-171 | joining the names gives the path back |
| `PathModel.RebuiltNames` | kernel/src/path.cpp:157-171 | every list of names has a normal path with exactly these names |
| `PathModel.SameNamesSamePath` | kernel/src/path.cpp:229-231 | paths are equal exactly if their names are |
| `PathModel.NamesConcat` | kernel/src/path.cpp:62-68 | the names of a concatenation are the names of both in order |
| `PathModel.NormalConcat` | kernel/src/path.cpp:53-60 | adding a string to a path normalises the string only |
| `PathModel.PositionsFit` | kernel/src/path.cpp:34-38 | sixteen-bit positions are right exactly up to 65536 characters |
| `PathModel.SlashesLayout` | kernel/src/path.cpp:34-38 | the positions cut the path at its names |
| `PathModel.SubPathDrops` | kernel/src/path.cpp:177-201 | a sub path has the names behind the first i |
| `PathModel.BaseNameIsLast` | kernel/src/path.cpp:107-125 | the base name is the last name |
| `PathModel.BranchDropsLast` | kernel/src/path.cpp:203-227 | the branch path lacks the last name exactly if two names or more are no slash |
| `PathModel.BranchThenBase` | kernel/src/path.cpp:203-261 | branch path and base name give the path back exactly if it is empty or has two such names |
| `Paths.Path.UpdatePositions` | kernel/src/path.cpp:14-39 | the string is normalised and the positions are its slashes |
| `Paths.Path.SqueezeInPlace` | kernel/src/path.cpp:21-25 | erasing backwards squeezes every run of slashes to one |
| `Paths.Path.FromString` | kernel/src/path.cpp:47-51 | a path with the words of the string |
| `Paths.Path.Extend` | kernel/src/path.cpp:53-60 | the names of the path and then the words of the string |
| `Paths.Path.Concat` | kernel/src/path.cpp:62-68 | the names of one path and then of the other |
| `Paths.Path.Name` | kernel/src/path.cpp:157-171 | the i-th name |
| `Paths.Path.BaseName` | kernel/src/path.cpp:107-125 | the last name |
| `Paths.Path.SubPath` | kernel/src/path.cpp:177-201 | a path with the names behind the first i |
| `Paths.Path.BranchPath` | kernel/src/path.cpp:203-227 | the normal form of the part before the last but one slash, or the path itself |
| `Paths.Path.BranchAndBase` | kernel/src/path.cpp:203-261 | taking the last name off and adding it is the identity exactly in the stated cases |
| `Checksum.AddBytes` | kernel/include/net/checksum.hpp:15-30 | the sum of big-endian words modulo 2^32 |
| `Checksum.TotalIsWords` | kernel/include/net/checksum.hpp:15-30 | what is summed byte by byte is the sum of the 16-bit words in network order, as RFC 1071 defines it |
| `Checksum.NoOverflowExactly` | kernel/include/net/checksum.hpp:15-30 | the sum is exact for all buffers of a length if and only if it is at most 131074 |
| `Checksum.Finalize` | kernel/include/net/checksum.hpp:32-38 | the complement of the one's complement sum, after two folding passes at most |
| `Checksum.FinalizeNonZero` | kernel/include/net/checksum.hpp:40-48 | never zero, and the same value modulo 65535 |
| `Checksum.StoredChecksOut` | kernel/include/net/checksum.hpp:15-48 | storing the result in a zeroed aligned field makes recomputation yield zero |
| `Checksum.Check` | kernel/include/net/checksum.hpp:15-38 | for every buffer: recomputation yields zero exactly if the 32-bit sum is a positive multiple of 65535; up to 131074 bytes that is the sum itself |
| `Checksum.OneWordIsNoticed` | kernel/include/net/checksum.hpp:15-38 | a change of one word is noticed exactly unless it is a change between the two zeros |
| `Checksum.PartsAdd` | kernel/include/net/checksum.hpp:15-30 | parts of even length can be summed one by one |

## Left out

- Heap.KernelHeap.Malloc: requests above 2^64 - 4152 bytes are not served by the contract, because the expansion, the rounding or the test for splitting overflows the word there; `Heap.RequestIsServable` is the exact condition.
- Heap.KernelHeap.Search: the page allocator's failure ends the call with no chunk, where the kernel stops; a region it gives is fresh, page aligned and disjoint from the others.
- Heap.KernelHeap.FreeMemory: does not model that the used, allocated and free byte counters are 64-bit words, because no machine holds that much memory.
- Bitmap.StaticBitmap.SetBit: a word is a sequence of 64 bits and "no position" a constructor, instead of a machine word and its largest value.
- Buddy.BuddyAllocator.Free: takes releases of blocks that were handed out, in the size they were asked for, as far as the bitmaps have room; beyond that the code writes outside them, which is not modelled.
- Ata.Driver.ReadSector: takes sectors below 0x100000, beyond which keys of different drives are equal and one sector is found for another; `Ata.KeysApartExactly` is the exact condition.
- Ata.Driver.ReadSectors: a sector that a failed transfer left wrong in the cache is read wrong until it is written or evicted, as in the code; the contract excepts those sectors. The sectors are below 0x100000, as for `ReadSector`.
- Ata.Driver.WriteSector: takes sectors below 0x100000, as `ReadSector`.
- Ata.Driver.WriteSectors: takes sectors below 0x100000, as `ReadSector`.
- Ata.Driver.ClearSectors: takes sectors below 0x100000, as `ReadSector`.
- Scheduler.Processes.AwaitTermination: one round of the loop; that the loop ends depends on the child.
- Scheduler.Processes.UnblockProcessHint: a run uses it for processes in a run queue that have not ended; the code checks neither, and `SchedulerModel.HintIsSafe` is the exact condition.
- SchedulerTicks.CanAct: runs have no early tick, no end of a call that chooses the current process again, and no tick inside a yield; `EarlyExactly`, `RescheduleExactly` and `YieldResumed` say exactly what those do. Other interrupts come between calls.
- Scheduler.Processes.CollectProcess: the release of stacks, segments, page tables and handles of the ended process is not modelled.
- LockModel.CanMove: parts of the kernel other than locks do not unblock a process that waits for a lock, and no process ends while the collector waits for one; `LockModel.WakersAreKnown` shows that nothing else wakes it, and `LockSystem.RunForEach` that other locks do not.
- Locks.Semaphore.Unlock: does not model the 64-bit wrap-around of the counter, because it takes 2^64 unlocks.
- Paging.AddressSpace.UserMap: frames are fresh, page aligned and not zero, and clearing them succeeds. What other pages lead to once page zero is a table is not stated.
- ProcessPaging.ProcessPages.UserMap: takes enough frames; the tables made are counted after the call instead of one by one inside it.
- Paging.AddressSpace.MapPages: the exact condition is stated for ranges of at most 2^36 pages, which is the whole address space.
- Paths.Path.Name: takes paths of at most 65536 characters, beyond which the sixteen-bit positions are wrong; `PathModel.PositionsFit` is the exact condition.
- Paths.Path.BaseName: takes paths of at most 65536 characters, as `Name`.
- Paths.Path.SubPath: takes paths of at most 65536 characters, as `Name`.
- Paths.Path.BranchPath: takes paths of at most 65536 characters, as `Name`.
- Paths.Path.BranchAndBase: takes paths of at most 65536 characters, as `Name`.
- Paths.Path.Concat: `invalidate`, which stores a string that is no path, is not modelled.
- Flushing the translation cache, the early page tables and the fixed virtual places of the kernel's tables.
- Spin locks, interrupt locks, reader-writer locks and condition variables.
- `frequency_updated`, which rescales timeouts in floating point, and everything about program images, stacks and the switch itself.
- The virtual allocator, which is the buddy allocator again, and the reports of memory in use.
- File systems, network layers, drivers other than the ATA sector layer, terminals, boot code and system calls: hardware, input and output, or thin plumbing.
- The standard library of the kernel and the user library's allocator, which are routine.
