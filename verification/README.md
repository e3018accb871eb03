# A zone allocator, modelled and verified

This project models a replacement for `malloc`, `free` and `realloc` and proves what its design
promises.  The allocator has three size classes: tiny (up to 64 bytes), small (up to 1024) and large.
Tiny and small blocks live in zones, each with a header, a free bitmap, a table of requested sizes and
slots made of a meta word and a payload; a zone moves between a free and a full list of its class.
Large blocks move between a list in use and a cache.  `free` gets a bare pointer and finds the block
from the packed word stored just before the payload.

The model has three layers.

- *Values.*  `Meta`, `Layout`, `Memory` and `Spaces` say where everything lies and what the meta words
  mean; `Zones` and `Blocks` are the size classes; `Worlds` puts them together with the bytes of memory
  and, for the proofs, with the owner of every block that is not free; `Sections`, `Sequential` and
  `Client` are the operations as functions, and `Runs` is every run of calls, client writes and `mmap`
  failures.
- *Objects.*  `Lists`, `Bitmaps`, `ZonePools`, `BlockPools`, `Heaps` and `ShowAlloc` are the sequential
  program as it is written: linked cells, byte bitmaps, loops and fields changed in place.  Each method
  is proved to take the state where the function of the same name takes it, so what is proved of runs
  holds of the objects (`Heaps.Heap.PerformAll`).
- *Threads.*  `Threads` is the threaded version as a step machine with one mutex per class and one for
  the initialisation, any number of threads and any interleaving; a step that would touch unmapped memory
  or unlock a mutex of another thread is a fault.  `ThreadInvariant` states what holds between steps,
  `ThreadSteps`, `ThreadSetup`, `ThreadAlloc` and `ThreadFree` prove that every step keeps it, and
  `ThreadTheorems` and `ThreadClients` draw the conclusions.  `ThreadSections` and `ThreadReallocs` follow
  one section and one moving `realloc` through an execution, `ThreadCalls` says what every whole call of
  `malloc`, `free` and `realloc` does from its beginning to its return, and `ThreadHistories` shows that
  every execution is a sequential history of each class.

`Numbers`, `Split` and `Printf` (with `CStrings`) are three smaller programs of the repository: the
integer printer and the parser that undoes it, the splitter whose array is sized by a separate loop, and the number path of
the formatted printer.

`mmap` is an oracle that refuses or gives a page-aligned range no byte of which is mapped; the page size
is a parameter (`Layout.GeometryOf`).  The model follows the code where it differs from what is said
about it:

- A zone is said to hold at least 100 blocks (src/malloc.c:20).  It does if and only if one comparison of
  ints holds (`Layout.ZoneIsGoodExactly`): for every page up to 255 MiB (`Layout.OrdinaryPagesPass`), but
  not for pages of 2^29 bytes (`Layout.HugePageFails`).  Later results are for geometries that pass.
- The threaded `realloc` passes its size on without the check `malloc` makes.  Up to 2^64 - 49 that does no
  harm; beyond, the length given to `mmap` wraps (`ThreadAlloc.BlockIsMappedExactly`), so callers of the
  model keep below.
- A block whose bit was cleared just before the replacing zone was refused is never handed out nor
  returned (src/malloc.c:141-159); the owner `Lost` keeps account of it.
- `realloc(p, 0)` returns `p` in the sequential version and frees it in the threaded one.
- A `realloc` in place does not update the table of requested sizes, so `show_alloc_mem` reports what
  `malloc` was asked for.
- `ft_atoi` reads past strings of white space, `ft_substr` past a start beyond the end, `ft_printf` past
  formats that end in a directive, and `ft_putnbr_base` prints the least long wrongly.

## Model

| member | source | states |
|---|---|---|
| `Meta.PackIsSum` | src/malloc.h:52-52 | the packed word is the sum zone + 2048 + index, because the three parts share no bit |
| `Meta.DecodePacked` | src/malloc.h:52-55 | a packed word reads as a zone word and gives back exactly its zone and index |
| `Meta.RoundTripExactly` | src/malloc.h:52-55 | unpacking undoes packing if and only if the zone is 4096-aligned and the index is below 2048 |
| `Meta.PlainWordIsNotZone` | src/malloc.c:86-87 | the meta word of a page-aligned large block never reads as a zone word |
| `Memory.LoadAfterStore` | src/malloc.c:61-62 | a word stored byte by byte reads back, wherever it lies |
| `Memory.CopyBytesCopies` | libft/ft_memcpy.c:16-29 | between ranges that do not overlap the byte loop copies every byte |
| `Layout.FitsIffBelowQuotient` | src/malloc.c:26-29 | n slots, with the rounded-up bitmap written out, fit in the zone if and only if n is at most the quotient of the one division |
| `Layout.TotalIsLeast` | src/malloc.c:21-24 | the mapped length is the least number of whole pages in which a header, a bitmap for 100 blocks and 100 slots with their size entries find room |
| `Layout.ZoneIsGoodExactly` | src/malloc.c:20-31 | for every page size: the count is at least the promised 100 if and only if the dividend, converted to int, is at least 100 times the divisor; it is never above 2047, and a positive count always fits in the zone |
| `Layout.LargestThatFitsExactly` | src/malloc.c:26-31 | for every page size: the count is the largest that fits under the cap if and only if the dividend survives its conversion to int or reaches the cap all the same |
| `Layout.HugePageFails` | src/malloc.c:28-31 | with pages of 2^29 bytes the conversion wraps and the count for a tiny zone is 0, so both conditions fail |
| `Layout.GeometryOf` | src/malloc.c:17-31 | both classes have a sound geometry if and only if the page size passes that test for both block sizes |
| `Layout.OrdinaryPagesPass` | src/malloc.c:17-31 | every page size up to 255 MiB passes, with counts that are the largest under the cap |
| `Sequences.RemoveAt` | src/list.c:43-57 | removing the element at a position leaves the two sides in order |
| `Sequences.RemoveKeeps` | src/list.c:43-57 | removal takes out exactly one element and creates no repetition |
| `Lists.List.AddBack` | src/list.c:3-21 | on a well-formed list the tail walk ends and the new list is the old one with the cell at its back, all links in agreement |
| `Lists.List.Detach` | src/list.c:43-57 | head, middle, tail or sole cell: the new list is the old one without the cell, whose own links are null |
| `Lists.List.LinkedIffNotAlone` | src/malloc.c:247-247 | the links of a cell are not both null if and only if its list has another cell |
| `Lists.MoveFits` | src/malloc.c:150-151 | detaching from one list and appending to the other keeps both in step with the mapped structures and disjoint |
| `Bitmaps.ClearBit` | src/malloc.c:141-141 | clearing a bit in its byte changes that one bit of the map and leaves the unused tail clear |
| `Bitmaps.SetBit` | src/malloc.c:238-238 | setting a bit in its byte changes that one bit of the map and leaves the unused tail clear |
| `Bitmaps.FreshBits` | src/malloc.c:53-56 | 0xFF bytes with a masked last one mark every block free and no bit beyond the last block |
| `Bitmaps.Memset` | libft/ft_memset.c:17-32 | exactly the first len cells are overwritten |
| `Bitmaps.ZoneHeader.constructor` | src/malloc.c:37-56 | header, bitmap and size table of a new zone stand for n free blocks |
| `Bitmaps.ZoneHeader.FindSetBit` | src/malloc.c:105-123 | the answer is the lowest free block, or -1 when there is none; never the number of a bit beyond the last block |
| `Bitmaps.ZoneHeader.FindSetBitGuarded` | bonus/src/malloc_bonus.c:116-136 | the same with the extra guard in place, so the guard never fires |
| `Bitmaps.ZoneHeader.TakeBit` | src/malloc.c:141-143 | bit, requested size and counter change together, at one index, and nothing else does |
| `Bitmaps.ZoneHeader.GiveBit` | src/malloc.c:238-239 | bit and counter change together, at one index, and nothing else does |
| `Zones.CountUpdate` | src/malloc.c:141-143 | changing one bit changes the number of free blocks by exactly what the counter is changed by |
| `Zones.AllocKeepsValid` | src/malloc.c:133-164 | every zone stays on exactly one list, the free one when it has a free block and else the full one, and its counter stays the number of set bits |
| `Zones.AllocTakesOne` | src/malloc.c:133-164 | one block that was free is taken and no other changes; none is found exactly when the free list is empty, and it is lost exactly when the replacing zone is refused |
| `Zones.AllocMoves` | src/malloc.c:133-164 | the block is the lowest free one of the first zone of the free list; a zone this fills goes to the back of the full list, and a zone that mmap granted to the back of the free list |
| `Zones.AllocRecordsSize` | src/malloc.c:142-142 | the requested size is recorded for the block taken and for no other |
| `Zones.AllocKeepsHead` | src/malloc.c:147-160 | the free list is empty afterwards only if the replacing zone was refused |
| `Zones.FreeKeepsValid` | src/malloc.c:237-261 | free keeps lists, bits and counters in agreement, and an emptied zone is on the free list it is detached from |
| `Zones.FreeGivesOne` | src/malloc.c:237-261 | exactly the named block is given back; a zone is unmapped exactly when that empties it and it is not alone on the free list, which never becomes empty |
| `Zones.FreeMoves` | src/malloc.c:242-261 | a zone that was full goes to the back of the free list, one that has become empty leaves it unless it is alone there, and no other zone moves |
| `Zones.FreeZoneHasBit` | src/malloc.c:138-140 | a zone on the free list always has a free block below its block count |
| `Blocks.FirstFit` | src/malloc.c:166-176 | the first cached block in list order that is large enough, or none exactly when all are smaller |
| `Blocks.AllocKeepsValid` | src/malloc.c:166-185 | the two large lists keep partitioning the mapped large blocks, and cached ones stay within 1024 < size <= 102400 |
| `Blocks.AllocFits` | src/malloc.c:166-185 | the block was not in use and is at least as large as asked; a cached one is used whenever one fits; above 102400 bytes the block is always fresh |
| `Blocks.FreeReleases` | src/malloc.c:262-270 | only the freed block leaves those in use; it stays mapped and cached exactly up to 102400 bytes |
| `Blocks.ListsMove` | src/malloc.c:166-185 | the first cached block that fits, or the mapped one, goes to the back of the list in use; a freed block up to 102400 bytes goes to the back of the cache |
| `Spaces.ZonePartsInOrder` | src/malloc.c:46-64 | bitmap, size table and slots of a zone follow one another, do not overlap and end inside the zone |
| `Spaces.SlotsApart` | src/malloc.c:125-129 | meta word and payload of two different blocks never overlap, whatever zones or large blocks they belong to |
| `Spaces.PayloadIsNotAllocator` | src/malloc.c:46-64 | no payload byte belongs to a header, a bitmap, a size table or a meta word |
| `Spaces.PtrInjective` | src/malloc.c:125-129 | two blocks have the same address only if they are the same block |
| `Spaces.DecodeFindsBlock` | src/malloc.c:233-236 | from the address of any existing block the word before it is mapped and leads back to that block |
| `Spaces.MetasWritten` | src/malloc.c:60-63 | the loop of create_zone leaves every slot with the packed word of its zone and index |
| `Spaces.PayloadWriteKeepsSpace` | src/malloc.c:46-64 | a client write inside a payload changes no allocator byte and keeps the whole space in order |
| `Spaces.NewZoneKeepsSpace` | src/malloc.c:33-64 | a zone mapped at a fresh address and filled in keeps every structure apart and every meta word right |
| `Spaces.UnmapKeepsSpace` | src/malloc.c:249-249 | unmapping one structure leaves the others mapped with their meta words |
| `Worlds.OwnedPayloadsDisjoint` | src/malloc.c:125-129 | payloads of owned blocks are mapped, pairwise disjoint and disjoint from every allocator byte |
| `Worlds.TakeKeepsWorld` | src/malloc.c:141-143 | taking a free bit gives its block one owner it did not have, and keeps bits and ownership equal |
| `Worlds.GiveKeepsWorld` | src/malloc.c:238-239 | giving a bit back ends exactly that ownership |
| `Worlds.DropZoneKeepsWorld` | src/malloc.c:247-250 | unmapping a zone none of whose blocks is owned keeps the invariant |
| `Worlds.WriteKeepsWorld` | src/malloc.c:46-64 | a write inside an owned payload keeps the invariant and every allocator byte |
| `Sections.AllocZoneOk` | src/malloc.c:133-164 | a whole find_free_block keeps the invariant of the shared state and of its class |
| `Sections.AllocZoneEffect` | src/malloc.c:133-164 | a block nobody owned gets the new owner, no other ownership changes, and every mapped byte keeps its value |
| `Sections.FreeZoneOk` | src/malloc.c:237-261 | a whole free of a zone block keeps the invariant; if the zone goes, the freed block was the last one owned in it |
| `Sections.FreeZoneEffect` | src/malloc.c:237-261 | every byte of every other owned block survives, even when the zone is unmapped |
| `Sections.AllocLargeOk` | src/malloc.c:166-185 | a whole find_free_large_block keeps the invariant and every mapped byte, and hands out an unowned block |
| `Sections.FreeLargeOk` | src/malloc.c:263-270 | a whole free of a large block keeps the invariant, and unmaps exactly above the cache limit |
| `Sequential.SetupOk` | src/malloc.c:91-103 | after setup both classes have a zone to offer; after a failed one the invariant still holds |
| `Sequential.MallocOk` | src/malloc.c:206-224 | malloc keeps the whole invariant, whatever mmap answers |
| `Sequential.MallocEffect` | src/malloc.c:206-224 | a successful malloc hands out a block nobody owned, of the class of the request and large enough; a failed one takes nothing from a client; mapped bytes keep their values |
| `Client.FreeOk` | src/malloc.c:226-273 | free of a live block keeps the whole invariant |
| `Client.FreeKeeps` | src/malloc.c:226-273 | only the freed block leaves; every other owned block keeps place, capacity and bytes |
| `Client.ReallocOk` | src/malloc.c:276-311 | realloc keeps the whole invariant |
| `Client.ReallocMoves` | src/malloc.c:276-311 | realloc stays when the request fits; else it fails and leaves the old block as it was, or moves to a block that was nobody's, of a larger class or another large one, and large enough |
| `Client.ReallocCopies` | src/malloc.c:305-306 | the block returned starts with every byte of the old one |
| `Client.ReallocKeeps` | src/malloc.c:276-311 | no other owned block is disturbed, whether realloc stays, fails or moves |
| `Runs.StepOk` | src/malloc.c:206-311 | every legal event - a call by pointer or a client write - keeps the invariant |
| `Runs.RunsKeepInvariant` | src/malloc.c:206-311 | every state of every run from the unmapped start satisfies the invariant, with mmap failing at will |
| `Runs.EventPointers` | src/malloc.c:206-311 | an event takes away exactly the pointer it frees or moves and adds exactly the one it returns; a failed realloc and a write leave the live pointers as they are |
| `Runs.MallocAddsPointer` | src/malloc.c:206-224 | after malloc the live pointers are those of before and the one returned, which was not live |
| `Runs.FreeRemovesPointer` | src/malloc.c:226-273 | after free every pointer is live that was, except the one given to it |
| `Runs.BlockAtPtr` | src/malloc.c:233-236 | decoding the word before a live pointer yields the block the client owns there |
| `Runs.LivePayloadsDisjoint` | src/malloc.c:125-129 | live payloads are mapped, pairwise disjoint and disjoint from every allocator byte |
| `Runs.LivePointersDecode` | src/malloc.c:233-236 | the word before a live pointer names its zone and index, or its large block, which is in use |
| `Runs.ListsInOrder` | src/malloc.c:133-185 | in every state the lists, counters and bits agree and the large lists partition the large blocks |
| `Runs.ClearedBitsAccountedFor` | src/malloc.c:141-160 | the cleared bits are the live zone blocks plus exactly one lost block for each refill that failed |
| `Runs.NoFailureNoLoss` | src/malloc.c:152-159 | without a failed refill every cleared bit is a live block |
| `Runs.SetupFailsExactly` | src/malloc.c:91-103 | setup fails if and only if mmap refuses the first zone, or the second one after it |
| `Runs.AllocFailsExactly` | src/malloc.c:187-204 | alloc_block finds nothing if and only if the one place it looks at has nothing or fills up, and mmap refuses what it is then asked for |
| `Runs.MallocRejects` | src/malloc.c:207-210 | malloc of 0 or of more than PTRDIFF_MAX gives nothing and changes nothing: no zone is mapped, mmap is not asked and the flag stays |
| `Runs.MallocFailsExactly` | src/malloc.c:206-224 | for every size: malloc fails if and only if the size is 0 or above PTRDIFF_MAX, or alloc_block fails; on a heap not yet set up, if and only if the size is turned down, the setup fails, or a large request finds nothing after it |
| `Runs.SmallRequestsServed` | src/malloc.c:187-192 | while no refill has been refused, every request of 1 to 1024 bytes on an initialised heap is served |
| `ZonePools.ZonePool.TakeFirst` | src/malloc.c:133-151 | on the linked headers: the lowest free block of the head zone is taken, and a filled zone moves to the back of the full list |
| `ZonePools.ZonePool.Release` | src/malloc.c:236-261 | on the linked headers: bit and counter, the test of the two links, and the move or removal do what free does to the pool |
| `ZonePools.ZonePool.AddNode` | src/malloc.c:66-72 | a filled-in header joins the back of the free list and disturbs no other zone |
| `ZonePools.ZonePool.AddZone` | src/malloc.c:37-72 | a new zone of free blocks at a new address joins the pool |
| `BlockPools.BlockPool.FindFit` | src/malloc.c:166-176 | the list walk finds the first fitting cached block, or null when there is none |
| `BlockPools.BlockPool.Release` | src/malloc.c:264-270 | the block leaves the list in use and is cached, or dropped for unmapping, by its size |
| `Heaps.WriteMetaWords` | src/malloc.c:60-63 | the loop writes exactly the meta words of the zone |
| `Heaps.Memcpy` | libft/ft_memcpy.c:16-29 | the loop computes the byte-by-byte copy |
| `Heaps.Heap.CreateZone` | src/malloc.c:14-74 | create_zone on the objects takes the state where the function does, and reports failure exactly when mmap refuses |
| `Heaps.Heap.SetupGlobalHeap` | src/malloc.c:91-103 | setup on the objects, with its two failing exits |
| `Heaps.Heap.FindFreeBlock` | src/malloc.c:133-164 | find_free_block on the objects, the exit that loses the block included, and the address returned |
| `Heaps.Heap.CreateBlock` | src/malloc.c:76-89 | a fresh large block is mapped, its size and meta word are written and it joins the list in use, or nothing changes when mmap refuses |
| `Heaps.Heap.FindFreeLargeBlock` | src/malloc.c:166-185 | find_free_large_block on the objects, and the address returned |
| `Heaps.Heap.Malloc` | src/malloc.c:206-224 | malloc on the objects, with the address returned; for 0 and above PTRDIFF_MAX it is NULL and no field changes |
| `Heaps.Heap.Free` | src/malloc.c:226-273 | free on the objects, from a bare pointer through the meta word |
| `Heaps.Heap.CurrentSize` | src/malloc.c:283-298 | the capacity found through the word before a live pointer is that of its block |
| `Heaps.Heap.Realloc` | src/malloc.c:276-311 | realloc on the objects: malloc, copy and free, or the same pointer |
| `Heaps.Heap.Perform` | src/malloc.c:206-311 | one event carried out on the objects is one step of a run |
| `Heaps.Heap.PerformAll` | src/malloc.c:206-311 | carrying out a run from a fresh heap leaves the objects in its last state, for which every theorem about runs holds |
| `Heaps.PointerLeadsBack` | src/malloc.c:233-236 | the pointer made from a live block is live and leads back to it |
| `ShowAlloc.EachBlockListedOnce` | src/show_alloc_mem.c:64-107 | the listing names every owned block, live or lost, exactly once and nothing else |
| `ShowAlloc.ListingInOrder` | src/show_alloc_mem.c:67-93 | tiny comes before small before large; in a zone class the free list comes before the full list, each in its order, and within a zone the indices rise |
| `ShowAlloc.LinesStartAtBlocks` | src/show_alloc_mem.c:49-56 | a line starts at the address whose preceding word names the very block, and ends as many bytes on as it reports |
| `ShowAlloc.LinesStartAtPointers` | src/show_alloc_mem.c:49-56 | for a live block this address is the pointer its client holds |
| `ShowAlloc.ReportedSizes` | src/show_alloc_mem.c:48-58 | the number reported for a zone block is what malloc was asked for, and for a large block its capacity |
| `ShowAlloc.ShowZone` | src/show_alloc_mem.c:45-62 | one line for each cleared bit, in order, with the sum of their sizes |
| `ShowAlloc.TotalFits` | src/show_alloc_mem.c:45-62 | at every point of the walk the sum is below 2^64, because the ranges listed lie apart in the address space, so no addition in a size_t wraps |
| `ShowAlloc.ShowAllocMem` | src/show_alloc_mem.c:64-107 | the lines are those of the listing, in order, and the total is the sum over it, which fits a size_t |
| `ThreadTheorems.StepFine` | bonus/src/malloc_bonus.c:221-365 | no step faults: nothing unmapped is touched and no mutex is unlocked by another thread; the invariant holds again and everything other threads rely on is kept |
| `ThreadTheorems.ExecutionsKeepInvariant` | bonus/src/malloc_bonus.c:221-365 | every state of every interleaving of any number of threads satisfies the invariant |
| `ThreadTheorems.NoStepFaults` | bonus/src/malloc_bonus.c:221-365 | in no reachable state can a thread touch unmapped memory, follow a meta word to a structure that is not there, or unlock a mutex it does not hold |
| `ThreadAlloc.BlockIsMappedExactly` | bonus/src/malloc_bonus.c:90-103 | for any size_t request, which realloc passes on without a check, mmap maps a whole block of that capacity if and only if the size and its two headers stay below 2^64 |
| `ThreadTheorems.ClassTouchedOnlyByHolder` | bonus/src/malloc_bonus.c:225-244 | lists, bitmaps and counters of a class change only in a step of the thread that holds its mutex, or of the initialiser before the flag is set |
| `ThreadTheorems.AtMostOneMutex` | bonus/src/mutex_bonus.c:3-21 | no thread holds two mutexes, and a thread that is not in a call holds none |
| `ThreadTheorems.PayloadsDisjointClassesInOrder` | bonus/src/malloc_bonus.c:138-200 | in every reachable state owned payloads are disjoint, and each class whose mutex is free has lists, bits and counters in order |
| `ThreadTheorems.SnapshotIsTheClass` | bonus/src/malloc_bonus.c:239-241 | whatever step enters a section, it changes nothing else and the snapshot is the class at that moment |
| `ThreadTheorems.SectionsRefineSequential` | bonus/src/malloc_bonus.c:239-244 | at its unlock a section has done to its snapshot exactly what the sequential malloc or free does, a zone or block it mapped being new, and returns the same block |
| `ThreadTheorems.StepTransfersOneBlock` | bonus/src/malloc_bonus.c:221-365 | a step changes the owner of at most one block, and only between the stepping thread, its client and nobody |
| `ThreadTheorems.OthersNeverDisturb` | bonus/src/malloc_bonus.c:300-312 | a block in the hands of a thread keeps its place, capacity and bytes through anything other threads and clients do |
| `ThreadTheorems.UnlockedReadsAreRight` | bonus/src/malloc_bonus.c:300-349 | the reads of meta word, class and size made with no mutex held hit mapped memory and find the block itself; the read under the mutex sees the same word |
| `ThreadTheorems.ReallocDelivers` | bonus/src/malloc_bonus.c:350-364 | a moving realloc hands over another block, large enough, that starts with every byte the old one held when realloc was called |
| `ThreadTheorems.SectionNeverBlocks` | bonus/src/malloc_bonus.c:227-242 | a thread that holds a mutex can always take its next step |
| `ThreadTheorems.NoDeadlock` | bonus/src/malloc_bonus.c:221-365 | if some call is under way, some thread can take a step |
| `ThreadTheorems.AnswersAccepted` | bonus/src/malloc_bonus.c:51-53 | whatever legal answer mmap gives, refusal or any fresh range, the thread that asked goes on with it |
| `ThreadTheorems.CallsCanBegin` | bonus/src/malloc_bonus.c:221-331 | an idle thread can begin any malloc, and the free or realloc of any block in client hands |
| `ThreadTheorems.CallsEnd` | bonus/src/malloc_bonus.c:221-365 | each step of a call brings its end nearer, on every path, so each mutex taken is released |
| `ThreadSections.SectionKeeps` | bonus/src/malloc_bonus.c:240-242 | from lock to unlock, with any moves of others between, the snapshot and the call stay the same |
| `ThreadSections.AllocSection` | bonus/src/malloc_bonus.c:240-242 | over an execution, from lock to unlock, an allocation takes its class from what it was to what the sequential allocation makes of it for a legal answer that mmap gave to this thread in between, and hands over the same block, which was nobody's; a block is lost exactly when the sequential one loses it |
| `ThreadSections.FreeSection` | bonus/src/malloc_bonus.c:312-314 | over an execution, from lock to unlock, a free takes the class of its block to what the sequential free makes of it, and the block is nobody's afterwards; realloc then returns the block with the old bytes |
| `ThreadSections.SectionTouchesMemory` | bonus/src/malloc_bonus.c:240-242 | inside a section the thread changes memory only by mapping what mmap granted, when the sequential operation asks for it, or by unmapping what this operation drops |
| `ThreadReallocs.ReallocIsMallocCopyFree` | bonus/src/malloc_bonus.c:350-364 | from the point where realloc has found the old block too small: one locked malloc; if that fails, the old block is back with its bytes; else a copy that touches no class and no byte but those of the new block, and one locked free of the old block |
| `ThreadCalls.MallocCall` | bonus/src/malloc_bonus.c:221-245 | over the whole call, whatever others do: for 0 and above PTRDIFF_MAX it returns at once and nothing changes; otherwise the thread runs exactly one allocation for the size and hands over its result, or mmap refused it one of the two setup zones while it held heap_mutex with the flag clear |
| `ThreadCalls.FreeCall` | bonus/src/malloc_bonus.c:293-332 | over the whole call of free, or of realloc to size 0: the thread runs exactly one section, the free of the block, and at its unlock nobody owns the block |
| `ThreadCalls.ReallocCall` | bonus/src/malloc_bonus.c:333-364 | over the whole call, for a size above 0: up to the capacity the thread enters no section and the client has its block back with every byte; above it the thread runs one allocation for the size and then, if that gave a block, a copy and one free of the old block, and the client gets a large enough block with the old bytes; if not, the client has the old block back |
| `ThreadCalls.FlagMeansSetup` | bonus/src/malloc_bonus.c:105-114 | the flag is set only by a thread that was granted the first tiny and the first small zone while it held heap_mutex with the flag clear |
| `ThreadHistories.SettledStep` | bonus/src/malloc_bonus.c:105-365 | any step of any thread leaves a class as it was settled, or finishes one operation that does what the sequential allocator does |
| `ThreadHistories.ClassHasHistory` | bonus/src/malloc_bonus.c:105-365 | every execution is, for each class, a sequential history from the empty class: one operation per finished section, in the order of the unlocks, each with the result its thread has |
| `ThreadClients.ClientBlocksUntouched` | bonus/src/malloc_bonus.c:247-365 | no step of any thread - allocation, copy, list move or unmapping - changes place, capacity or a byte of a block in client hands; only a client write to that block does |
| `ThreadClients.ClientBytesSurvive` | bonus/src/malloc_bonus.c:247-365 | over any stretch of any execution a block that stays in client hands and is not written by a client keeps every byte |
| `ThreadClients.MallocDelivers` | bonus/src/malloc_bonus.c:241-244 | the unlock of a malloc hands over the result of its section: a block that was in no other hands and is large enough, or nothing |
| `ThreadClients.ReallocGivesUp` | bonus/src/malloc_bonus.c:350-358 | a realloc that gets no block gives its client the old one back with every byte it held |
| `Numbers.Itoa` | libft/ft_itoa.c:39-63 | a buffer of exactly the computed length is filled, never outside it and with no signed overflow, with the decimal notation and a NUL; INT_MIN included |
| `Numbers.Numlen` | libft/ft_itoa.c:17-27 | the computed length is the number of characters of the notation |
| `Numbers.Numstorage` | libft/ft_itoa.c:29-37 | the digits end up just before the given position and nothing else is written |
| `Numbers.DecimalIsCanonical` | libft/ft_itoa.c:39-63 | the notation is digits of the absolute value, with a minus sign for a negative number and no other sign, and only 0 starts with a 0 |
| `Numbers.Atoi` | libft/ft_atoi.c:16-41 | reads past the end exactly for strings of white space alone; otherwise the value of the digits after at most one other character |
| `Numbers.ParsesNumber` | libft/ft_atoi.c:16-41 | white space, at most one other character, then digits: the value is their number, negated after a minus sign and after no other character, modulo 2^32 |
| `Numbers.ParsesStop` | libft/ft_atoi.c:26-28 | white space, then a letter or the escape character: the value is 0 |
| `Numbers.NothingElse` | libft/ft_atoi.c:23-40 | every string that is not white space alone is of one of these two forms |
| `Numbers.BlankIsOnlySpaces` | libft/ft_atoi.c:23-32 | the strings read past are those all of whose characters are white space, the empty one among them |
| `Numbers.RoundTrip` | libft/ft_itoa.c:39-63 | ft_atoi of ft_itoa is the identity on every 32-bit number, INT_MIN under wrapping |
| `Numbers.DecimalInjective` | libft/ft_itoa.c:39-63 | two numbers never print alike |
| `Split.RunsAreMaximal` | libft/ft_split.c:51-78 | the words are exactly the maximal stretches without the separator, in order and each once |
| `Split.CountWords` | libft/ft_split.c:34-49 | the separate counting loop counts exactly those words |
| `Split.SplitWords` | libft/ft_split.c:51-78 | NULL for NULL or when the array is refused; else each word is stored in order as a NUL-terminated copy, or NULL where its memory was refused, then the end mark, every store inside the array |
| `Split.Substr` | libft/ft_substr.c:16-31 | NULL for NULL or when memory is refused, else the substring cut at the end of the string; read past exactly when the start lies beyond it |
| `Split.Strlcpy` | libft/ft_strlcpy.c:16-37 | at most dstsize - 1 characters and a NUL are written, nothing else, and the length of the source is returned |
| `Printf.NotationMeans` | printf/ft_putnbr_base.c:31-36 | the digits printed denote the number |
| `Printf.NotationIsCanonical` | printf/ft_putnbr_base.c:31-36 | only 0 is printed with a leading 0 |
| `Printf.NumeralIsNotation` | printf/ft_putnbr_base.c:31-36 | there is one canonical text of digits of a base for each number |
| `Printf.NumlenBase` | printf/ft_numlen_base.c:15-26 | the count is the number of digits that are printed |
| `Printf.Output.PutnbrBase` | printf/ft_putnbr_base.c:15-38 | the recursion sends the signed notation and returns its length |
| `Printf.PrintedExactly` | printf/ft_putnbr_base.c:20-24 | the decimal printer is right for a long if and only if it is not the least one |
| `Printf.Output.Puthex` | printf/ft_puthex.c:15-27 | every unsigned 64-bit number is printed in canonical hexadecimal, although its upper part passes through a signed long |
| `Printf.Output.Putpointer` | printf/ft_putpointer.c:15-33 | 0x and the canonical lower-case hexadecimal of every 64-bit number, the two ready-made strings included |
| `Printf.PaddedMeans` | printf/ft_flagcheck.c:15-33 | zero padding gives the larger of length and width and denotes the same number |
| `Printf.Output.PutPaddedHex` | printf/ft_flagcheck.c:15-33 | the padded digits are sent and counted |
| `Printf.DirectiveSays` | printf/ft_flagcheck.c:35-54 | what each directive sends, said of the text and the argument: signed and unsigned values of the low 32 bits, hexadecimal in the right letter case with its padding, addresses, sizes, characters and strings |
| `Printf.Output.Flagcheck` | printf/ft_flagcheck.c:35-54 | each directive sends a text that says this, returns its length and uses up its argument |
| `Printf.ParseFormat` | printf/ft_printf.c:15-33 | the parsing loop reads the flag, the width and the type of the directive |
| `Printf.Output.Print` | printf/ft_printf.c:35-60 | the returned count is the number of characters sent, for every format that does not end inside a directive; exactly those that do are read past |
| `Printf.LiteralText` | printf/ft_printf.c:48-58 | characters outside directives are sent as they are, in order |
| `Printf.DirectiveText` | printf/ft_printf.c:15-33 | a percent sign, perhaps a 0, digits without zeros and a letter are one directive with that width; it sends what it says, and the rest of the format follows |
| `Printf.EndsPlainly` | printf/ft_printf.c:15-33 | a format that does not end in a percent sign, a z or a digit is never read past |
| `Printf.SizesPrintExactly` | printf/ft_flagcheck.c:49-50 | the z directive sends a size as its decimal digits if and only if it is below 2^63 |

## Left out

- The bytes of zone headers, bitmaps, size tables and list links: they are kept as typed objects, and the byte memory only knows that they are mapped; meta words and payloads are modelled byte by byte.
- The fields `base`, `zone_size`, `memory` and `type` of a header where they only repeat its address and class, and `block->free`, which is only ever set to 1 and never read.
- Page sizes for which the sum that rounds up to whole pages would itself wrap in a size_t: the sizes of the layout are unbounded before the conversion to int.
- Meta words are natural numbers below 2^64 with the C operators defined bit by bit, not machine words.
- ThreadHistories.ClassHasHistory: one history for each class; the order of operations on different classes is only that of their unlocks.
- Inside a locked section the three updates of one bitmap bit, one list operation, one search of the cache, and the whole of create_zone during initialisation are single steps; no other thread can look in between, by ThreadTheorems.ClassTouchedOnlyByHolder.
- The threaded version is a step machine on values; the linked cells and byte bitmaps behind its classes are modelled for the sequential version, whose list and bitmap code is the same.
- Memory ordering weaker than sequential consistency, in particular for the unlocked read of the initialised flag.
- The guesses of the threaded version about pointers it did not hand out (bonus/src/malloc_bonus.c:301-311): callers pass NULL or live pointers of their own.
- NULL arguments under threads: `free(NULL)` returns at once and `realloc(NULL, n)` is `malloc(n)`; the calls modelled start after that test.
- What a threaded `realloc` of 2^64 - 48 bytes or more goes on to do once its block has been mapped too short: the model calls that step a fault.
- Fairness: ThreadTheorems.NoDeadlock and ThreadTheorems.CallsEnd do not say that a waiting thread is ever scheduled.
- Payload alignment and any bound on the number of empty zones: the code provides neither.
- The text that show_alloc_mem prints, its digit buffers included (write_hex would need addresses below 16^15), and all tracing output.
- The bonus variant show_alloc_mem_ex, which walks the same lists in the same order and adds a dump of the bytes.
- Numbers.Atoi: the sum wraps around where the C code would overflow a signed int, which no result of Numbers.Itoa but the least number makes it do.
- Split.SplitWords: free_memory, which does nothing to an array that exists, is left out, and positions and counts are unbounded.
- Printf.Output.Print: arguments that do not match the format are excluded, writes succeed, and the width and the count are unbounded where the C code has ints.
- A width with a 0 after its first digit: the 0 ends the width and becomes an unknown type that prints nothing, in the code and in the model.
- ft_strtrim, the character and memory helpers of the library, the put functions that write to a descriptor, and the build and measurement files: they would add only easy members.
