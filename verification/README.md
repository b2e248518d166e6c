# RT-Thread kernel: a verified model

This project models the core of the RT-Thread kernel in Dafny and proves what its parts
promise: the three memory allocators, the timers, the IPC objects as step protocols, and
the scheduler with its two-level bitmap. `dafny verify dfyconfig.toml` checks all of it.

Each component comes in two layers. A class holds the fields the C code updates, with
methods that take the same branches; its contracts tie the new state to a specification on
values. Lemmas about the specification then say what a reader wants to know.

| files | component |
|---|---|
| `Lists`, `Words`, `KernelList` | lists of distinct numbers, machine words, and the intrusive doubly linked rings under every kernel list |
| `PageRuns`, `PageSpans` | the page allocator: canonical runs of free pages, and who owns the others |
| `SizeClasses`, `ZoneChunks`, `SlabState`, `SlabZones` | the slab allocator on top of it |
| `HeapBlocks`, `HeapData`, `SmallHeap` | the first-fit heap: tilings, user bytes, and the allocator |
| `MemHeap` | the heap with an address ring and a free ring |
| `WaitQueue`, `Mailbox`, `MessageQueue`, `Event`, `Mutex` | IPC |
| `BitScan`, `Scheduler` | lowest set bit, ready lists, thread states |
| `TimerList`, `Timers` | timers as one flat list on a clock that never wraps, and as a skip list of 32-bit ticks |
| `MemMove` | the overlap-safe copy |

How the model reads the code:

- `RT_ALIGN_SIZE` is 4 and pointers are 32 bits, so headers take 12 bytes in `src/mem.c`, 24 in
  `src/memheap.c` and 36 in `src/slab.c`. Sizes are 32-bit and alignment wraps where the C expression wraps.
- A stretch of code between disabling and enabling interrupts is one atomic step. A thread
  that was woken continues in a later step, and any other step may come first. The IPC
  machines quantify over all such runs, of any length.
- Threads, timers, message nodes and zones are named by numbers. Linked lists are modelled
  down to their pointers in `KernelList`, `PageRuns`, `MemHeap` and `MessageQueue`; elsewhere a list
  is a sequence field.
- Allocators are called one after the other. Their locks, hooks and debug output are not modelled.
- The scheduler is the variant with 256 priorities. The skip list has any number of rows and a mask of 1 or 3.
- Timeout functions are lists of actions on timers: start, stop, set the time, make periodic or one-shot.

Where the code and its own comments or the obvious claim part ways, the model follows the
code and says exactly when the claim holds:

- `src/mem.c` calls `lfree` the lowest free block (lines 127 and 229). A shrinking `rt_realloc` breaks that:
  `SmallHeap.CutHintLowest` gives the exact condition, `SmallHeap.ShrinkCanStrandSpace` an instance.
- First fit of `src/mem.c` passes over an exact fit that ends at the sentinel, and only that
  (`SmallHeap.PassesOverOnlyExactTail`). On a heap smaller than a minimum block the search never ends
  (`SmallHeap.SearchNeverEnds`), which is why `Malloc` asks for `SearchEnds`. Sizes above 0xFFFFFFFC wrap
  (`SmallHeap.RequestHonoured`).
- `src/memheap.c` refuses a request equal to `available_size` (`MemHeap.RefusedExactFit`,
  `MemHeap.WholePoolRefused`), and its init takes a size that does not hold two headers (`MemHeap.Pool.constructor`).
- Mutex `hold` has 8 bits: a nested take is right if and only if it is below 255 (`Mutex.NestedKeeps`). With n takes
  outstanding a release gives the mutex away if and only if n leaves the remainder 1 modulo 256 (`Mutex.ReleaseLeavesIff`), so
  after 257 takes one release frees it (`Mutex.NestingWraps`).
- A thread that holds two mutexes can keep a lent priority for good (`Mutex.PriorityStaysLent`) or lose it while the
  lender still waits (`Mutex.LoanEndsEarly`).
- With first-in-first-out queueing the owner of a mutex can be less urgent than a waiter (`Mutex.FifoInverts`).
  `Mutex.UrgentOverRuns` says when it is not: if and only if every handover finds the most urgent waiter at the head.
- `rt_thread_delete` takes a thread off the lists that was never put on one, with masks nobody has set. The index
  survives if and only if those masks meet no bit that is set (`Scheduler.SpareIndexed`, `Scheduler.UnstartedDeletionHides`).
- `rt_timer_control` stores any time. The wrapping comparisons fire a timer on time, alone and among others, if and only
  if its time is at least 1 and at most `RT_TICK_MAX / 2` (`Timers.TimeWorks`); `rt_timer_start` asserts that it is below
  that, and lets 0 pass. A periodic timer of time 0 keeps `rt_timer_check` in its loop for ever
  (`TimerList.ZeroPeriodNeverEnds`); of the times the assertion lets pass, the check ends if and only if it is not 0
  (`TimerList.CheckEndsIff`).
- A timeout function that leaves its own timer started again has the check insert it twice, or leave it on the list
  without its mark. A turn of the check keeps the timers sound if and only if the function does not
  (`TimerList.FiredKeepsIff`).

## Model

| member | source | states |
|---|---|---|
| `Words.AlignMeans` | include/rtdef.h:264 | rounding up to 4 gives the next multiple of 4, or 0 where the 32-bit addition wraps |
| `KernelList.LinkMemory.Init` | include/rtservice.h:51-54 | a node initialised this way is a ring of its own; no other node is touched |
| `KernelList.LinkMemory.InsertAfter` | include/rtservice.h:62-69 | in any ring, the new node comes right behind the given one, all others keep their order, and nodes outside the ring are untouched |
| `KernelList.LinkMemory.InsertBefore` | include/rtservice.h:77-84 | in front of a member, or at the tail when the list head is given |
| `KernelList.LinkMemory.Remove` | include/rtservice.h:90-96 | the ring closes over the removed node, which becomes a ring of its own; a node alone in its ring stays that |
| `KernelList.LinkMemory.IsEmpty` | include/rtservice.h:102-105 | true exactly when the head is the whole ring |
| `KernelList.RingUnique` | include/rtservice.h:51-105 | the stored links determine the ring: two rings with the same head agree at every place |
| `KernelList.RingMeans` | include/rtservice.h:51-105 | in a ring next leads from each node to the one behind it and prev back, and from the last to the first |
| `KernelList.RingsEqual` | include/rtservice.h:51-105 | hence the whole list a head stands for is unique |
| `KernelList.OtherRingKept` | include/rtservice.h:62-96 | an operation on one ring leaves every disjoint ring a ring |
| `KernelList.InsertedRing` | include/rtservice.h:62-84 | the four pointer writes of an insertion are right for every ring and every place in it |
| `KernelList.RemovedRing` | include/rtservice.h:90-96 | and so are the writes of a removal |
| `PageRuns.PageAllocator.constructor` | src/slab.c:337-344 | the whole area becomes one free run |
| `PageRuns.PageAllocator.Alloc` | src/slab.c:246-280 | returns the lowest stretch of that many free pages, fails exactly when there is none (or none is asked for), takes exactly those pages, and keeps the list canonical |
| `PageRuns.PageAllocator.Free` | src/slab.c:282-332 | adds exactly those pages and keeps the list address-ordered and fully merged |
| `PageRuns.PageAllocator.GrowUp` | src/slab.c:302-311 | the merge with the run in front, and with the one behind if the gap closes |
| `PageRuns.PageAllocator.LinkIn` | src/slab.c:313-328 | the merge with the run behind, or a run that stands alone |
| `PageRuns.PageAllocator.Store` | src/slab.c:255-276 | a write through the pointer-to-link of the walk changes that link only |
| `PageRuns.CanonicalUnique` | src/slab.c:282-332 | the list is determined by the set of free pages alone |
| `PageRuns.TakeThenFreeRestores` | src/slab.c:246-332 | freeing what was just taken restores the exact list |
| `PageRuns.FreesCommute` | src/slab.c:282-332 | two frees in either order leave the same list |
| `PageRuns.StretchInsideRun` | src/slab.c:255-276 | consecutive free pages always lie in one run, so searching run by run misses nothing |
| `PageRuns.FitIsLowest` | src/slab.c:255-276 | the first run long enough holds the lowest stretch |
| `PageRuns.NoRunFits` | src/slab.c:255-276 | if no run is long enough there is no stretch |
| `PageRuns.CarveTakes` | src/slab.c:257-274 | carving the low end of a run takes exactly those pages and counts them |
| `PageSpans.SpanTaken` | src/slab.c:512-519 | pages taken become one new span; every heap page stays in exactly one span or on the free list |
| `PageSpans.SpanFreed` | src/slab.c:835-848 | and the reverse when a span is given back |
| `PageSpans.SpanRoundTrip` | src/slab.c:246-332 | taking and giving back restores free list and spans |
| `SizeClasses.ChunkFits` | src/slab.c:411-469 | every request up to 16383 bytes fits its chunk; less than 8 bytes are wasted below 128, less than an eighth above |
| `SizeClasses.ClassBounds` | src/slab.c:411-469 | the class index is in 0..71 |
| `SizeClasses.ClassesMonotone` | src/slab.c:411-469 | the index is strictly monotone in the chunk size, so a class has one size |
| `SizeClasses.RoundingStable` | src/slab.c:738-747 | rounding a rounded request below 16384 changes nothing |
| `SizeClasses.BitTestIsPowerOfTwo` | src/slab.c:647-648 | the bit test of the layout code holds exactly for powers of two, on all words below 2^31 |
| `SizeClasses.BitTestPlacesChunks` | src/slab.c:646-650 | on every chunk size the bit test of the code gives the offset of the layout |
| `SizeClasses.ZoneHolds` | src/slab.c:641-658 | for every zone size and every class served from zones, the chunks lie behind the header and inside the zone; there are at least three, no place is left for one more, and less than a chunk (or 8 bytes) is lost in front |
| `SizeClasses.LimitMeans` | src/slab.c:389-391 | requests below a quarter of the zone size, and below 16384, are small |
| `SizeClasses.PowersAligned` | src/slab.c:641-660 | power-of-two chunks up to a page are aligned to their size in every page-aligned zone |
| `ZoneChunks.TakeFresh` | src/slab.c:571-575 | the next never-used chunk is not live, and handing it out keeps counter, free list and live chunks in agreement |
| `ZoneChunks.TakeFreed` | src/slab.c:576-583 | when all chunks were used once, a positive counter means the free list is not empty; its first chunk is not live |
| `ZoneChunks.GiveBack` | src/slab.c:861-877 | pushing a live chunk keeps the agreement |
| `ZoneChunks.NewZone` | src/slab.c:652-660 | a zone set up with its first chunk handed out satisfies it |
| `ZoneChunks.AllFree` | src/slab.c:885-886 | a zone whose counter equals its maximum has no live chunk |
| `ZoneChunks.FreeWithinMax` | src/slab.c:873 | the counter never exceeds the maximum |
| `ZoneChunks.NotWhole` | src/slab.c:861-886 | a zone with a live chunk is below the maximum |
| `ZoneChunks.ChunkInside` | src/slab.c:571-575 | a chunk lies clear of its zone's header and inside its zone |
| `ZoneChunks.ChunksApart` | src/slab.c:571-583 | two chunks of a zone never overlap |
| `SlabState.LiveInSpan` | src/slab.c:488-684 | every live pointer lies inside the pages of its owner, behind the header of a zone |
| `SlabState.LiveApart` | src/slab.c:488-684 | any two live pointers, small or large, never overlap |
| `SlabState.LiveOnUsedPages` | src/slab.c:488-684 | no live pointer reaches a free page or the page index |
| `SlabState.IndexFindsOwner` | src/slab.c:826-857 | for every live pointer the index entry of its page yields the true zone base, or the exact length of the run |
| `SlabState.ServedKeeps` | src/slab.c:554-592 | serving from the head of a class list: the pointer is new and the whole invariant is kept |
| `SlabState.OpenedKeeps` | src/slab.c:638-671 | setting up a zone for a class keeps it |
| `SlabState.Unparked` | src/slab.c:605-610 | taking a parked zone keeps index, spans and lists right |
| `SlabState.Parking` | src/slab.c:902-905 | so does parking a zone |
| `SlabState.ZoneTakenKeeps` | src/slab.c:617-634 | so does taking pages for a zone and marking them in the index |
| `SlabState.LargeTakenKeeps` | src/slab.c:510-519 | so does a large allocation, which sets only the entry of its first page |
| `SlabState.LargeFreedKeeps` | src/slab.c:828-851 | so does freeing one, although the stale entry keeps its type |
| `SlabState.GivenBackKeeps` | src/slab.c:857-877 | giving a chunk back keeps everything but, for this zone alone, the bound on wholly free zones |
| `SlabState.MayStay` | src/slab.c:885-886 | if the parking condition is false the bound holds for this zone too |
| `SlabState.RetiredKeeps` | src/slab.c:894-899 | taking a wholly free zone out of service strands no live pointer and restores the bound |
| `SlabState.ReleasedKeeps` | src/slab.c:912-928 | releasing a zone's pages keeps the rest |
| `SlabZones.SlabAllocator.constructor` | src/slab.c:354-404 | a heap of whole pages starts with the page index at its bottom and everything else free; the zone size follows the heap size |
| `SlabZones.SlabAllocator.Init` | src/slab.c:354-370 | there is a heap exactly when a whole page lies in the range given, and it is made of all of those |
| `SlabZones.WholePages` | src/slab.c:361-362 | rounding the start up and the end down leaves exactly the whole pages in between |
| `SlabZones.SlabAllocator.Malloc` | src/slab.c:488-684 | small requests get a chunk, large ones pages, of exactly the memory the rules choose; less than a page is lost on large ones, less than 8 bytes or an eighth on small ones; a large request is refused exactly when no stretch of free pages covers its bytes, a small one exactly when no zone of its chunk size has a free chunk, none is parked and no stretch holds a new one; other pointers untouched, statistics exact |
| `SlabZones.SlabAllocator.MallocLarge` | src/slab.c:508-536 | the page-run path: the lowest fit, page alignment, less than a page lost, refused exactly when no stretch of free pages covers the bytes |
| `SlabZones.SlabAllocator.TakeChunk` | src/slab.c:554-592 | the first zone of the class gives the next chunk never used before, else the first that was given back; its counter, and its place on the list, follow |
| `SlabZones.SlabAllocator.GetZone` | src/slab.c:605-635 | a parked zone first, else the lowest pages that hold one, else nothing changes |
| `SlabZones.SlabAllocator.MarkZone` | src/slab.c:628-634 | each page of the zone records its distance from the first |
| `SlabZones.SlabAllocator.OpenZone` | src/slab.c:638-671 | header fields, first chunk and list link of a new zone |
| `SlabZones.SlabAllocator.Free` | src/slab.c:793-932 | exactly this pointer stops being live and used_mem drops by what it occupied: a large one gives its run back; a chunk heads its free list, and its zone is then parked or released exactly under the guards of the code |
| `SlabZones.SlabAllocator.FreeLarge` | src/slab.c:828-851 | the run goes back to the page allocator; zones, class lists and parked list stay as they are |
| `SlabZones.SlabAllocator.FreeChunk` | src/slab.c:853-931 | the zone stays, with all lists and pages, unless the chunk makes it wholly free and its class has another zone with a free chunk; then it is parked if fewer than two are parked, else its pages go back |
| `SlabZones.SlabAllocator.GiveChunk` | src/slab.c:857-877 | the chunk heads the free list and a zone that was full is listed again |
| `SlabZones.SlabAllocator.Unlink` | src/slab.c:894-896 | the loop always finds its zone and removes just that one |
| `SlabZones.SlabAllocator.Park` | src/slab.c:885-931 | the zone leaves service; with fewer than two parked it keeps its pages and heads the parked list, else they go back and the parked list stays |
| `SlabZones.SlabAllocator.Release` | src/slab.c:917-928 | clears the index entries of the zone and frees exactly its pages |
| `SlabZones.SlabAllocator.Realloc` | src/slab.c:695-757 | a chunk of the same rounded size returns its pointer with nothing changed; else no room leaves all as it was; else the contents move, the common prefix is kept, and every other live piece keeps its bytes; null allocates and size 0 frees |
| `SlabZones.SlabAllocator.Move` | src/slab.c:725-753 | allocate, copy the shorter length, free |
| `SlabZones.SlabAllocator.MallocThenFree` | src/slab.c:488-932 | gives back live pointers and used_mem, and for large requests the exact free list |
| `SlabZones.PagesEnough` | src/slab.c:510-512 | the page rounding covers the request with less than a page to spare, unless the 32-bit addition wraps, and then it asks for no page |
| `SlabZones.LargeRefusedIff` | src/slab.c:508-516 | for sizes up to 0xFFFFF000 a large request has no room iff no stretch of free pages covers its bytes |
| `SlabZones.SmallRefusedIff` | src/slab.c:554-619 | a small one has no room iff no zone of its chunk size has a free chunk, none is parked, and no stretch of pages holds a zone |
| `SlabZones.GrantedMeans` | src/slab.c:411-516 | less than a page is wasted on a large request, less than 8 bytes or an eighth on a small one |
| `SlabZones.SpareMeans` | src/slab.c:885-886 | the guard for parking holds iff the chunk makes the zone wholly free and its class has another zone with a free chunk |
| `SlabZones.SumWithout` | src/slab.c:839-866 | used_mem is a sum over the live pointers, in any order |
| `HeapBlocks.TilingUnique` | src/mem.c:246-558 | the used blocks determine a tiling without adjacent free blocks |
| `HeapBlocks.LayoutUnique` | src/mem.c:246-558 | hence two heaps with the same blocks in use are the same heap |
| `HeapBlocks.PlugCoalesced` | src/mem.c:136-174 | plugging around a freed block leaves no two adjacent free blocks |
| `HeapBlocks.PlugUsed` | src/mem.c:136-174 | and changes no used block |
| `HeapBlocks.TakeUsed` | src/mem.c:285-340 | taking a block adds exactly one used block and counts its extent |
| `HeapBlocks.TakeHandsOut` | src/mem.c:290-331 | a block handed out has at least the bytes wanted and fewer than a header and 12 bytes more; if that much was left it is cut to size and the rest is one free block |
| `HeapBlocks.RaisedMeans` | src/mem.c:321-338 | a running maximum is at least what it was and what is reached, and one of the two |
| `HeapBlocks.AddThenDrop` | src/mem.c:246-558 | adding a used block and dropping it again leaves the same used blocks |
| `HeapBlocks.AllFreed` | src/mem.c:504-558 | with nothing in use the heap is one free block and nothing is counted |
| `SmallHeap.Heap.constructor` | src/mem.c:184-231 | one free block and a sentinel, inside the range given |
| `SmallHeap.Heap.Malloc` | src/mem.c:246-374 | takes the first free block from the hint on that is large enough, failing exactly when none is eligible; hands out at least the rounded request and fewer than 24 bytes more, the rest staying one free block; headers, counters and hint are right afterwards and no data byte changes |
| `SmallHeap.Heap.Carve` | src/mem.c:285-342 | cut to size when 24 bytes or more would be left, else whole, with used_mem and the running maximum |
| `SmallHeap.Heap.NextLfree` | src/mem.c:344-351 | the hint walk ends at the next free block or the sentinel |
| `SmallHeap.Heap.PlugHoles` | src/mem.c:136-174 | merges with both neighbours and moves the hint with them |
| `SmallHeap.Heap.Free` | src/mem.c:504-558 | exactly this block leaves the used blocks; pointers outside the heap change nothing; a lowest hint stays lowest |
| `SmallHeap.Heap.Shrink` | src/mem.c:430-454 | the block shrinks in place; the hint moves only if it pointed at the merged neighbour |
| `SmallHeap.Heap.Realloc` | src/mem.c:385-466 | all outcomes; the piece returned is large enough and begins with the old data, every other block's data is untouched, and max_mem is raised only by a move, to the peak with both blocks |
| `SmallHeap.Heap.Move` | src/mem.c:457-465 | allocate, copy, free, with max_mem the running maximum of used_mem on the way |
| `SmallHeap.Heap.MallocThenFree` | src/mem.c:246-558 | blocks, hint and used_mem are as before, on every heap |
| `SmallHeap.Heap.FreeAll` | src/mem.c:504-558 | freeing all live blocks in any order leaves one free block, the hint at its start, and used_mem 0 |
| `SmallHeap.RequestHonoured` | src/mem.c:263-274 | the rounding covers the request iff it does not wrap, with less than 4 bytes to spare above the minimum of 12 |
| `SmallHeap.FirstFitMeans` | src/mem.c:279-285 | first fit passes over no free block from the hint on that is large enough and in front of the one it takes |
| `SmallHeap.ExtentMeans` | src/mem.c:290-331 | what malloc takes: the rounded request and a header, or the whole block if fewer than 24 bytes would be left |
| `SmallHeap.PassesOverOnlyExactTail` | src/mem.c:279-285 | with a lowest hint, malloc fails exactly when every roomy block is an exact fit that ends at the sentinel |
| `SmallHeap.WholeHeapRequestFails` | src/mem.c:279-281 | on a fresh heap the request for all of it is such a case |
| `SmallHeap.SearchNeverEnds` | src/mem.c:279-285 | on a heap smaller than a minimum block the bound wraps and the search stays on the sentinel for ever |
| `SmallHeap.TookHintLowest` | src/mem.c:344-351 | malloc keeps the hint at the lowest free block |
| `SmallHeap.FreedHintLowest` | src/mem.c:545-549 | so does clearing the used flag |
| `SmallHeap.PlugHintLowest` | src/mem.c:154-170 | so does plugging |
| `SmallHeap.CutHintLowest` | src/mem.c:430-454 | a shrink does if and only if the hint was not the sentinel and lay no further than the block behind |
| `SmallHeap.ShrinkCanStrandSpace` | src/mem.c:430-454 | malloc(96) on a heap of 100 bytes and a shrink to 12, after which malloc fails although a block has room |
| `SmallHeap.MallocThenFreeRestores` | src/mem.c:246-558 | block list and hint return, whatever the hint was |
| `HeapData.CopyBytes` | src/mem.c:461 | byte copy between areas that do not overlap |
| `HeapData.MoveKeeps` | src/mem.c:457-465 | copy and free keep the data of every block in use before and after |
| `MemHeap.Pool.constructor` | src/memheap.c:60-131 | one free item on both rings, and the tail; a pool results iff the size holds two headers, below that available_size wraps |
| `MemHeap.Pool.Alloc` | src/memheap.c:146-288 | takes the first item of the free ring that is large enough; refuses exactly when the request reaches available_size or no item has room; hands out at least the rounded request and fewer than 36 bytes more, the rest staying a free item at the front of the ring; both rings and all byte counts stay right |
| `MemHeap.Pool.TakeItem` | src/memheap.c:190-265 | cut to size when 36 bytes or more would be left, else whole, on both rings |
| `MemHeap.Pool.Free` | src/memheap.c:499-593 | merges with both neighbours; the free ring stays the free items, each once |
| `MemHeap.Pool.AbsorbRight` | src/memheap.c:558-576 | the right merge |
| `MemHeap.Pool.GrowItem` | src/memheap.c:354-406 | growth into the free item behind |
| `MemHeap.Pool.ShrinkItem` | src/memheap.c:436-495 | the tail becomes a free item, merged with a free one behind it |
| `MemHeap.Pool.Move` | src/memheap.c:413-420 | allocate elsewhere, copy, free, with max_used_size the running maximum on the way |
| `MemHeap.Pool.Realloc` | src/memheap.c:291-496 | all outcomes; the piece returned is large enough and begins with the old data, other items' data are untouched, and max_used_size is stated on every path |
| `MemHeap.Pool.Resize` | src/memheap.c:317-496 | the same for an item in use and a rounded size |
| `MemHeap.Pool.UnlinkFree` | src/memheap.c:223-226 | the free ring without that item |
| `MemHeap.Pool.LinkFront` | src/memheap.c:229-232 | the free ring with that item first |
| `MemHeap.Pool.LinkAfter` | src/memheap.c:217-220 | the address ring with a new item behind |
| `MemHeap.Pool.Unlink` | src/memheap.c:548-549 | the address ring without that item |
| `MemHeap.BytesConserved` | src/memheap.c:238-249 | over a tiling: data of free items + data of used items + one header per item |
| `MemHeap.Pool.AccountsBalance` | src/memheap.c:72-74 | in every pool: pool_size = available_size + used bytes + a header for each item and for the tail |
| `MemHeap.RefusedExactFit` | src/memheap.c:162 | a refusal in spite of room asks for exactly the bytes available, all in one item |
| `MemHeap.AllocatedMeans` | src/memheap.c:175-265 | what the search and the split come to, in numbers |
| `MemHeap.SizeAligned` | src/memheap.c:154-157 | the rounding covers the request iff it does not wrap, with less than 4 bytes to spare above the minimum of 12 |
| `MemHeap.WholePoolRefused` | src/memheap.c:162 | an instance: a fresh pool refuses a request for all its bytes, although its item has room |
| `MemHeap.TakeMatches` | src/memheap.c:190-265 | after a split or a whole take the free ring is again exactly the free items |
| `MemHeap.FreedPool` | src/memheap.c:533-589 | after a free: layout, coalescing, ring and byte count at once |
| `MemHeap.GrownPool` | src/memheap.c:354-406 | after growing in place, the same |
| `MemHeap.CutPool` | src/memheap.c:436-490 | after shrinking in place, the same |
| `MemHeap.AllocThenFreeRestores` | src/memheap.c:146-593 | the item list and every byte count return; only the order of the free ring may differ |
| `MemHeap.HeadersClearOfData` | src/memheap.c:200-232 | no item header lies in data in use |
| `WaitQueue.Suspend` | src/ipc.c:92-135 | at the tail, or behind all at least as urgent and before the first less urgent |
| `WaitQueue.ResumeAll` | src/ipc.c:169-196 | takes every waiter off |
| `WaitQueue.JoinKeepsOrder` | src/ipc.c:92-135 | a priority queue stays sorted |
| `WaitQueue.JoinPlace` | src/ipc.c:92-135 | a thread joins at the very end, or by priority behind all at least as urgent and before all less urgent; nobody else moves |
| `WaitQueue.JoinIsStable` | src/ipc.c:106-133 | who is at least as urgent and already waits stays in front |
| `Mailbox.SendKeeps` | src/ipc.c:1404-1522 | one atomic section of a sender keeps first-in-first-out order, the size bound, separate queues and no lost wakeup |
| `Mailbox.ReceiveKeeps` | src/ipc.c:1551-1674 | so does one section of a receiver, on entry or after a wakeup |
| `Mailbox.TimeoutKeeps` | src/thread.c:633-654 | so does the timeout of a waiter |
| `Mailbox.StepKeeps` | src/ipc.c:1404-1715 | every step of any thread, timer or control call keeps the invariant |
| `Mailbox.EveryRunKeeps` | src/ipc.c:1404-1715 | over every run and interleaving: mails received then mails held are the mails sent, and while a thread waits, enough others are on their way |
| `Mailbox.NobodyStuck` | src/ipc.c:1434-1673 | once all woken threads have gone on, no receiver waits while there is mail and no sender while there is room |
| `Mailbox.NotOvertaken` | src/ipc.c:92-160 | over every run: while a thread waits, nobody who came later and is not more urgent (by arrival order: nobody who came later) is resumed before it |
| `Mailbox.MailboxObject.constructor` | src/ipc.c:1253-1281 | an empty mailbox of the pool's size |
| `Mailbox.MailboxObject.Send` | src/ipc.c:1423-1521 | stores the mail and resumes the first receiver, exactly when there is room; a full mailbox is refused without a timeout and waited for with one |
| `Mailbox.MailboxObject.Receive` | src/ipc.c:1568-1673 | takes the oldest mail and resumes the first sender, exactly when there is one; an empty mailbox is refused without a timeout and waited for with one |
| `Mailbox.MailboxObject.Timeout` | src/thread.c:633-654 | a waiter leaves its queue with an error |
| `Mailbox.MailboxObject.Reset` | src/ipc.c:1691-1712 | all waiters leave with an error and the mailbox is empty |
| `MessageQueue.EveryRunKeeps` | src/ipc.c:1924-2278 | over every run with sections of several calls interleaved: each node is on the free list, in the queue or in one thread's hands; queued bytes are the messages of the deque; no wakeup is lost |
| `MessageQueue.StepKeeps` | src/ipc.c:1924-2278 | each section and each copy keeps that |
| `MessageQueue.LinkKeeps` | src/ipc.c:1964-1979 | linking appends a normal message and prepends an urgent one |
| `MessageQueue.TakeKeeps` | src/ipc.c:2127-2205 | taking removes the first message |
| `MessageQueue.FillContents` | src/ipc.c:1958-1961 | copying into a node in hand disturbs no queued message |
| `MessageQueue.ReceivedIsSent` | src/ipc.c:2208 | what is copied out agrees with what was sent, as far as both lengths go |
| `MessageQueue.ResetKeeps` | src/ipc.c:2241-2270 | reset keeps the partition while sends and receives are under way |
| `MessageQueue.QueueFits` | src/ipc.c:1979 | the entry counter never exceeds the number of nodes |
| `MessageQueue.RefusedOnlyWhenUsedUp` | src/ipc.c:1943-1951 | a send is refused only when every node is queued or in some thread's hands |
| `MessageQueue.NobodyStuck` | src/ipc.c:2127-2195 | once all woken receivers have gone on, none waits while a message is queued |
| `MessageQueue.NotOvertaken` | src/ipc.c:92-160 | the same for its receivers |
| `MessageQueue.MessageQueueObject.constructor` | src/ipc.c:1738-1785 | the pool is divided into as many nodes as fit, all on the free list, each with its own message area |
| `MessageQueue.NodesFit` | src/ipc.c:1765-1773 | no node reaches beyond the pool, and there is no place for one more unless the count does not fit in 16 bits |
| `MessageQueue.AreaMeans` | src/ipc.c:1769-1775 | the message area of node n lies behind n whole nodes and a link of 4 bytes |
| `MessageQueue.NodesApart` | src/ipc.c:1769-1775 | no byte of the pool belongs to two nodes, nor to both the link and the message area of one |
| `MessageQueue.WrittenApart` | src/ipc.c:1769-1775 | so bytes written into one message area change no other area and no link |
| `MessageQueue.MessageQueueObject.Claim` | src/ipc.c:1934-1956 | too long exactly if it is longer than a node; else a node off the free list, or a refusal exactly if there is none |
| `MessageQueue.MessageQueueObject.Fill` | src/ipc.c:1958-1961 | the end mark and the copy |
| `MessageQueue.MessageQueueObject.Link` | src/ipc.c:1964-1997 | the pointer writes at the tail append to the list, also to an empty one, and the first receiver is resumed |
| `MessageQueue.MessageQueueObject.LinkUrgent` | src/ipc.c:2050-2079 | and those at the head prepend |
| `MessageQueue.MessageQueueObject.Take` | src/ipc.c:2117-2205 | the head leaves the list; an empty queue is refused without a timeout and waited for with one |
| `MessageQueue.MessageQueueObject.CopyOut` | src/ipc.c:2208 | at most a whole node, beginning with the message |
| `MessageQueue.MessageQueueObject.Release` | src/ipc.c:2211-2216 | the node heads the free list |
| `MessageQueue.MessageQueueObject.Timeout` | src/thread.c:633-654 | a waiting receiver leaves the queue with an error |
| `MessageQueue.MessageQueueObject.Flush` | src/ipc.c:2250-2264 | all queued nodes go to the free list, in reverse |
| `MessageQueue.MessageQueueObject.Reset` | src/ipc.c:2241-2275 | no message is left and no receiver waits |
| `Event.ServeSplits` | src/ipc.c:1018-1067 | a send splits the waiters into those that wait on and those resumed, both in their old order; only the latter's records change |
| `Event.CommonMeans` | src/ipc.c:1032-1045 | the bits of a request that are set are the and of the two words |
| `Event.ClearedMeans` | src/ipc.c:1058 | clearing is the and with the complement |
| `Event.UnionMeans` | src/ipc.c:1017-1018 | setting is the or |
| `Event.SatisfiedMeans` | src/ipc.c:1029-1046 | in bits: an AND request is satisfied iff all its bits are set, an OR request iff any is |
| `Event.LeftMeans` | src/ipc.c:1057-1058 | in bits: the word loses the bits of the request for CLEAR, and is otherwise kept |
| `Event.SendMeans` | src/ipc.c:1018-1067 | after a send the word is the old one and the new bits, without exactly what resumed threads have received with CLEAR |
| `Event.SendInTurn` | src/ipc.c:1023-1066 | each waiter in list order is resumed iff the word, without what those in front have received with CLEAR, satisfies it, and gets its bits of that word |
| `Event.GatheredMeans` | src/ipc.c:1057-1058 | what resumed threads have received with CLEAR meets a mask iff one of them received such a bit |
| `Event.NoneLeftSatisfied` | src/ipc.c:1018-1067 | nobody left waiting is satisfied by the bits left |
| `Event.AllAnswered` | src/ipc.c:1018-1067 | every resumed thread gets wanted bits that were set: all for AND, at least one for OR |
| `Event.ClearedBitsGoOnce` | src/ipc.c:1057-1058 | bits received by a clearing thread go to no thread behind it and are cleared |
| `Event.ReceivedMeans` | src/ipc.c:1123-1147 | the same of a receive that need not wait |
| `Event.RecvAnswersAnd` | src/ipc.c:1123-1127 | a receive with AND is answered at once iff all its bits are set |
| `Event.RecvAnswersOr` | src/ipc.c:1128-1132 | with OR iff any is |
| `Event.RecvWord` | src/ipc.c:1139-1147 | it gets its bits of the word, which loses them for CLEAR and is otherwise kept |
| `Event.EveryRunKeeps` | src/ipc.c:998-1236 | in every reachable state no suspended thread is satisfied by the event set |
| `Event.SendKeeps` | src/ipc.c:998-1077 | a send keeps that |
| `Event.RecvKeeps` | src/ipc.c:1093-1199 | a receive keeps that |
| `Event.TimeoutKeeps` | src/thread.c:633-654 | a timeout keeps that |
| `Event.EventObject.constructor` | src/ipc.c:889-906 | no bits, nobody waiting |
| `Event.EventObject.Offer` | src/ipc.c:1029-1058 | one turn of the loop does what an immediate receive would: same received set, cleared for CLEAR and only then |
| `Event.EventObject.Send` | src/ipc.c:998-1077 | the loop equals setting the bits and then answering each waiter in list order; the word loses only what was received with CLEAR |
| `Event.EventObject.Recv` | src/ipc.c:1093-1175 | answered at once exactly if satisfied, with the word kept without CLEAR; else refused without a timeout and waiting with one |
| `Event.EventObject.Report` | src/ipc.c:1187-1191 | a resumed thread reports the bits it was resumed with, never none |
| `Event.ResumedKept` | src/ipc.c:1018-1191 | no step changes the record of a thread that was resumed and has not run yet |
| `Event.ReportAnswers` | src/ipc.c:1018-1191 | over every run: what a resumed thread reports answers its request out of the bits set by the send that resumed it |
| `Event.EventObject.Timeout` | src/thread.c:633-654 | a waiter leaves with an error |
| `Event.EventObject.Reset` | src/ipc.c:1216-1233 | no bits, nobody waiting |
| `Mutex.EveryRunKeeps` | src/ipc.c:642-859 | over every run: value is 1 iff there is no owner iff hold is 0; waiters imply an owner; only the owner has takes outstanding; all others run at their own priority and the owner at the most urgent of those it keeps waiting; with priority queueing no waiter is more urgent than the owner |
| `Mutex.TakeKeeps` | src/ipc.c:642-760 | a take keeps that |
| `Mutex.ReleaseKeeps` | src/ipc.c:772-859 | a release keeps that, and the final one restores every priority |
| `Mutex.TimeoutKeeps` | src/thread.c:633-654 | a timeout keeps that |
| `Mutex.NestedKeeps` | src/ipc.c:667-671 | a nested take keeps that if and only if hold is below 255 |
| `Mutex.ReleaseLeavesIff` | src/ipc.c:802-849 | with n takes outstanding a release leaves its owner the mutex iff n does not leave the remainder 1 modulo 256 |
| `Mutex.NestingWraps` | src/ipc.c:667-671 | an instance: a run nests 255 deep, the next take wraps hold to 0 and breaks the invariant, and after 257 takes one release frees the mutex |
| `Mutex.OwnerCanRelease` | src/ipc.c:772-859 | an owner can always release |
| `Mutex.FifoInverts` | src/ipc.c:820-838 | with first-in-first-out queueing a run exists that leaves the owner less urgent than a waiter |
| `Mutex.PriorityStaysLent` | src/ipc.c:688-818 | an instance: a thread that takes a second mutex while it runs at a lent priority keeps that priority holding nothing |
| `Mutex.LoanEndsEarly` | src/ipc.c:688-818 | an instance: releasing the second mutex takes the lent priority away while the lender still waits for the first |
| `Mutex.TakeUrgent` | src/ipc.c:642-735 | with either flag, after a take no waiter is more urgent than the owner iff none was before, or the thread had to wait and no earlier waiter is more urgent than it |
| `Mutex.ReleaseUrgent` | src/ipc.c:772-859 | with either flag, after the last release that holds iff the first waiter is at least as urgent as the rest, and a nested release changes nothing |
| `Mutex.HandOverUrgent` | src/ipc.c:820-838 | the case of a release that hands the mutex over |
| `Mutex.TimeoutUrgent` | src/thread.c:633-654 | after a timeout it holds iff the owner is at least as urgent as each of the others |
| `Mutex.StepUrgent` | src/ipc.c:642-859 | of all steps only a handover can break it, and does iff the first waiter is not the most urgent |
| `Mutex.UrgentOverRuns` | src/ipc.c:642-859 | over every run, with either flag: no waiter is ever more urgent than the owner iff each handover goes to the most urgent waiter |
| `Mutex.MutexObject.constructor` | src/ipc.c:525-544 | free |
| `Mutex.MutexObject.Take` | src/ipc.c:642-735 | nested, free, refused or waiting with inheritance; the invariant survives iff the take is not one nested beyond 255 |
| `Mutex.MutexObject.HandOver` | src/ipc.c:809-849 | priority back, then the first waiter owns the mutex at once, or it is free |
| `Mutex.MutexObject.Release` | src/ipc.c:772-859 | only the owner can; the last release hands over |
| `Mutex.MutexObject.Timeout` | src/thread.c:633-654 | a waiter leaves; the owner keeps its priority |
| `BitScan.TableIsRight` | src/kservice.c:1205-1223 | for each of the 255 non-zero bytes the table gives the lowest set bit |
| `BitScan.FfsIsLowest` | src/kservice.c:1235-1249 | for every 32-bit word the result is the lowest set bit counted from 1, and 0 only for 0 |
| `BitScan.Update8` | src/scheduler.c:298-341 | setting or clearing a mask changes that bit of a table byte and no other |
| `BitScan.Update32` | src/scheduler.c:300-344 | the same of the group word |
| `Scheduler.InsertIndexed` | src/scheduler.c:298-300 | inserting keeps the two-level index right |
| `Scheduler.RemoveIndexed` | src/scheduler.c:338-345 | so does emptying a list |
| `Scheduler.SpareIndexed` | src/scheduler.c:338-345 | clearing masks that were never set keeps the index iff they meet no bit that is set |
| `Scheduler.UnstartedDeletionHides` | src/thread.c:340-366 | an instance: deleting an unstarted thread hides a ready one |
| `Scheduler.IndexUnique` | src/scheduler.c:298-345 | the lists alone determine table and group |
| `Scheduler.ScanIsMostUrgent` | src/scheduler.c:210-217 | the two scans lead to the most urgent list that is not empty |
| `Scheduler.SchedulerObject.constructor` | src/scheduler.c:120-147 | empty lists, empty index |
| `Scheduler.SchedulerObject.InsertThread` | src/scheduler.c:267-304 | tail of its list, state ready, index right |
| `Scheduler.SchedulerObject.RemoveThread` | src/scheduler.c:313-353 | off its list; for a started thread the index stays right |
| `Scheduler.SchedulerObject.Schedule` | src/scheduler.c:191-258 | picks the head of the most urgent list unless the scheduler is locked |
| `Scheduler.SchedulerObject.Startup` | src/thread.c:203-234 | ready at its initial priority with its ticks unchanged, then the most urgent thread runs |
| `Scheduler.SchedulerObject.Suspend` | src/thread.c:554-582 | only a ready thread; off the lists |
| `Scheduler.SchedulerObject.Resume` | src/thread.c:592-624 | only a suspended thread; at the tail of its list |
| `Scheduler.SchedulerObject.Timeout` | src/thread.c:633-654 | ready again, then the most urgent thread runs |
| `Scheduler.SchedulerObject.Yield` | src/thread.c:377-411 | to the tail of its list if others share it |
| `Scheduler.SchedulerObject.YieldInTurn` | src/thread.c:377-411 | n yields hand over, one after the other, to the threads of the top priority in the order of their list, counted round and round |
| `Scheduler.SchedulerObject.ChangePriority` | src/thread.c:485-526 | from one ready list to the tail of another, or only the attributes; initial priority and ticks stay |
| `Scheduler.SchedulerObject.Close` | src/thread.c:340-366 | off the lists for good, whether ready, suspended or never started; the index survives iff the thread was started or its stray masks clear no bit that is set |
| `Scheduler.SchedulerObject.Slice` | src/clock.c:90-99 | counts the slice down and yields when it is used up |
| `TimerList.InsertSorted` | src/timer.c:329-354 | insertion behind all deadlines that are not later keeps the list sorted |
| `TimerList.StartOrder` | src/timer.c:346-353 | a start goes behind every timer due no later and before every other |
| `TimerList.StartedMeans` | src/timer.c:290-399 | a start marks the timer, sets its deadline and puts it in one place of the list; nothing else changes |
| `TimerList.StoppedMeans` | src/timer.c:409-432 | a stop takes the timer off the list and clears its mark; its time, its period flag, all other timers, the clock and the log stay |
| `TimerList.StoppedNeverFires` | src/timer.c:409-530 | over every run that leaves it alone, a stopped timer is never called |
| `TimerList.RestartedFires` | src/timer.c:290-530 | a timer stopped and started again is called as one never stopped: a periodic one at every period |
| `TimerList.StoppedByItself` | src/timer.c:508-526 | a timer stopped by its own function is off the list and inactive, periodic or not |
| `TimerList.FiredKeeps` | src/timer.c:491-527 | each turn of the check keeps the invariant and makes progress |
| `TimerList.FiredKeepsIff` | src/timer.c:491-527 | a turn of the check keeps the invariant iff the function called does not leave its own timer started again |
| `TimerList.CheckedKeeps` | src/timer.c:478-530 | a check ends with nothing due, whatever allowed timeout functions do to other timers |
| `TimerList.TurnsEnd` | src/timer.c:491-527 | with times of at least 1 the loop ends after at most as many turns as timers were due |
| `TimerList.ZeroPeriodNeverEnds` | src/timer.c:491-527 | a due periodic timer of time 0 that no function touches keeps the loop going after any number of turns |
| `TimerList.CheckEndsIff` | src/timer.c:491-527 | of the times the start asserts, the check of a due periodic timer ends iff its time is at least 1 |
| `TimerList.CheckedView` | src/timer.c:491-530 | a check leaves a timer that is not due alone |
| `TimerList.CheckedFires` | src/timer.c:491-530 | and calls one that is due exactly once, at this tick |
| `TimerList.ExecKeeps` | src/clock.c:83-105 | over every run of starts, stops, changes and ticks no deadline is ever left behind |
| `TimerList.ExecInOrder` | src/clock.c:83-105 | operations of a run take effect one after the other |
| `TimerList.ScriptInOrder` | src/timer.c:508 | and so do the actions of a timeout function |
| `TimerList.RunExact` | src/timer.c:290-530 | with one check per tick a timer left alone is called exactly at its deadline, a periodic one at every period after it, a one-shot one never again |
| `TimerList.EveryMeans` | src/timer.c:515-520 | the ticks expected are d, d + p, d + 2p and so on, as many as have come by then |
| `TimerList.StartedFires` | src/timer.c:290-530 | the same from the start: first after init_tick ticks |
| `TimerList.TiesOverRuns` | src/timer.c:491-527 | whatever else goes on until then, timers that are due together are called in the order they stand in |
| `TimerList.TiesInStartOrder` | src/timer.c:341-353 | hence ties are called in the order of their starts |
| `Timers.LaterInWindow` | src/timer.c:346-353 | the wrapping comparison orders any two deadlines of the window truly |
| `Timers.DueInWindow` | src/timer.c:500 | and the wrapping test finds exactly what is due now |
| `Timers.OnTimeIff` | src/timer.c:311-500 | alone, a timer of any 32-bit time is due at its tick and not before iff the time is 1 to 0x80000002; else it is due at the next check |
| `Timers.InOrderIff` | src/timer.c:341-353 | a timer of any time is compared rightly with every timer of an allowed time started while it waits, iff its time is at most RT_TICK_MAX / 2 |
| `Timers.TimeWorks` | src/timer.c:311-500 | both hold iff the time is 1 to RT_TICK_MAX / 2 |
| `Timers.RowPoint` | src/timer.c:329-357 | each row's insertion point is the flat list's, counted in that row |
| `Timers.RowInsert` | src/timer.c:366-378 | inserting in the rows reached is inserting in the flat list |
| `Timers.RowRemove` | src/timer.c:121-129 | removing from every row is removing from the flat list |
| `Timers.RowsNest` | src/timer.c:329-378 | every row is sorted and a sublist of the row below |
| `Timers.SearchRow` | src/timer.c:332-354 | one row's walk, from wherever the row above left off, ends at the linear-search point |
| `Timers.TimerSystem.constructor` | src/timer.c:654-662 | empty rows |
| `Timers.TimerSystem.Search` | src/timer.c:329-357 | so does the whole search, for any number of rows |
| `Timers.TimerSystem.Promote` | src/timer.c:363-378 | whatever the counter, the new timer enters the lowest rows up to some height |
| `Timers.TimerSystem.Start` | src/timer.c:290-399 | refuses an active timer, else does what the flat list does; the due tick is counted from now with wrap, and flags and times stay |
| `Timers.TimerSystem.LinkIn` | src/timer.c:366-380 | the insertion itself |
| `Timers.TimerSystem.Remove` | src/timer.c:121-129 | out of every row |
| `Timers.TimerSystem.Stop` | src/timer.c:409-432 | refuses an inactive timer, else takes it off every row and clears its mark; its flags and times, and all other timers, stay |
| `Timers.TimerSystem.SetTime` | src/timer.c:444-466 | any time is stored and only later starts are affected; the timers stay sound if it is below half the tick range, as the start asserts |
| `Timers.TimerSystem.SetPeriodic` | src/timer.c:444-466 | sets or clears the flag of this timer and of no other, running or not |
| `Timers.TimerSystem.Call` | src/timer.c:508 | a timeout function does to the timers what the flat list says, whatever it does to its own |
| `Timers.TimerSystem.Fire` | src/timer.c:493-527 | one turn of the check |
| `Timers.TimerSystem.Check` | src/timer.c:478-530 | the check terminates and equals the flat one |
| `Timers.TimerSystem.TickIncrease` | src/clock.c:83-105 | tick and check, across the wrap of the counter |
| `Timers.TimerSystem.Run` | src/clock.c:83-105 | over any run of starts, stops, changes and ticks the skip list on wrapping ticks does what the flat list does |
| `Timers.TimerSystem.Quiet` | src/timer.c:409-530 | a timer stopped and left alone is not called in any run |
| `Timers.TimerSystem.Restart` | src/timer.c:290-530 | stopped and started again, it is called at every period from then on, or once if it is not periodic |
| `Timers.TimerSystem.FirstCall` | src/timer.c:290-530 | a timer started at tick s is first called when the counter equals s + init_tick mod 2^32, in that very check |
| `MemMove.MemMove` | src/kservice.c:293-312 | the destination gets what the source held before, also when they overlap, and nothing else changes |
| `MemMove.SourceSurvives` | src/kservice.c:293-312 | when they do not overlap the source is intact |

## Left out

- HeapData.CopyBytes: states the result of the byte copy, not the word-at-a-time branches of `rt_memcpy`.
- SlabZones.SlabAllocator.Malloc: makes no claim about `heap_sem`, which the out-of-pages path releases twice.
- SlabZones.SlabAllocator.Realloc: models user bytes apart from zone headers and free-chunk links, whose places are shown clear of live memory.
- SlabZones.SlabAllocator.Unlink: class lists, the parked list and free-chunk lists are sequences, so the pointer-to-link walk is an index walk.
- SlabZones.SlabAllocator.Init: a heap that would begin at address 0 is excluded, as `rt_page_free` asserts (line 287 of `src/slab.c`).
- MemHeap.Pool.Realloc: the bytes of item headers are kept apart from user bytes; `MemHeap.HeadersClearOfData` shows the places do not meet.
- Mailbox.EveryRunKeeps: threads are not deleted while they wait, and a waiting thread's priority does not change (a change would not re-sort the queue).
- Mutex.EveryRunKeeps: each thread uses one mutex and nobody else changes priorities; `Mutex.PriorityStaysLent` and `Mutex.LoanEndsEarly` show what two mutexes do.
- Scheduler.SchedulerObject.RemoveThread: for a thread that was never started, a stray `number` of 32 or more indexes outside the table; that is not modelled.
- Scheduler.SchedulerObject.Schedule: some thread must be ready, as the idle thread always is.
- Timers.TimerSystem.Start: the tick is read together with the insertion, although the code reads it just before disabling interrupts.
- Timers.TimerSystem.Stop: the flag is cleared together with the removal, although the code clears it just after enabling interrupts again.
- TimerList.RunExact: times set are at least 1 and below half the tick range, functions do not leave their own timer started again, and there is one check per tick and no `rt_tick_set`.
- Semaphores: a counter with the same wait queue; the IPC objects modelled are the harder ones.
- Memory pools: the blocking path does not test again after a wakeup, so the natural invariant does not hold.
- Soft timers, their thread and the next-timeout query.
- The cross-heap wrappers at the end of `src/memheap.c`, `rt_calloc` and aligned allocation.
- Modules, devices, the object registry, idle and interrupt bookkeeping, formatted output.
- Context switching, stacks, interrupt control, board support and build tools.
