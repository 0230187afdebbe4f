# Models of memcached's storage layer

This project models the parts of memcached that keep and move items, and proves what they promise.
Verify it with `dafny verify dfyconfig.toml`.

| modules | what they model |
|---|---|
| `Common` | C addresses, byte strings, facts about sequences |
| `SlabMover`, `SlabMoverInv`, `SlabMoverSteps`, `SlabMoverSafety`, `SlabMoverMeaning`, `SlabMoverExact`, `SlabMoverCas`, `SlabMoverProgress` | the slab page mover as a state machine, beside threads that allocate, link, read, change, unlink and free items |
| `Slabs`, `SlabAllocator` | the slab allocator: size classes, freelists, requested bytes, the global page pool, both ends of a page move |
| `SlabMoverBooks` | mover and allocator in one run: the books of the classes under every step of the state machine |
| `Extstore`, `ExtstoreInv`, `ExtstoreSteps`, `ExtstorePages`, `ExtstoreRuns`, `ExtstoreSafety`, `ExtstoreTheorems`, `ExtstoreExact`, `ExtstoreLedger` | the page engine of external storage as a state machine: writers, buffers, io threads, readers, maintenance |
| `ItemImage`, `Compaction` | the bytes of an item in a write buffer, and the compactor that reads them back |
| `Assoc`, `ItemLocks`, `ItemLocksProgress` | the incrementally expanding hash table with its chains, and the lock striping it relies on |
| `LruList`, `LruCrawl`, `PullTail`, `PullTailExact`, `PullTailRun` | one linked LRU list with its crawler, and `lru_pull_tail` |
| `BipBuffer`, `BumpQueue`, `BumpDrain` | the bip buffer and the asynchronous bumps that go through it |
| `Store`, `ChunkCopy` | the storage commands with CAS ids, and the copying of chunked values |

The state machines (`SlabMover`, `Extstore`, `ItemLocks`, `BumpQueue`) take one step for each region in which
the program holds a lock, or for each read or write of the page file; a run is any sequence of steps of any
threads, and a step that is not enabled is skipped. Record fields that the program does not have (`role`,
`held`, `chain`, `blocks`, `receipts`, `live`, `accepted` and the like) keep books for the proofs. The walks
over chained chunks follow the next pointers, bounded by the number of cells and not by the books.
`SlabMover.Attach` takes from the books only which chunk is the last of an item, which the program is given by
its caller, and `Enabled` looks at them only for what the program's callers guarantee. The sequential code is
in classes whose methods follow the source's loops and are proved against functions of the old state. The modules
`ExtstoreExact`, `SlabMoverExact` and `PullTailExact`, the section of `Store` on what each command answers, and the
contracts of `SlabAllocator` say what single steps do without those functions, from the fields alone.

Results that say the code does less than one may think:

* `ExtstoreTheorems.SecondWriterAsserts`: the assertion on top of `_allocate_page` holds only because each
  bucket has one writing thread.
* `ExtstoreTheorems.DeleteTotals`: deleting keeps the engine's totals equal to the sums over the pages if and
  only if no more is deleted from a page than it has; the page's numbers stop at 0, the totals do not. The totals
  are right in every run in which each object is deleted at most once (`ExtstoreLedger.TotalsInRuns`), and
  `ExtstoreLedger.DoubleDeleteRun` is a run of four steps after which they are not.
* `Compaction.StaleObjectReturns`: the compactor compares page and version of a header, not the offset, so a
  page that holds two objects of one key can bring the older one back. `Compaction.CompactKeeps` says exactly
  when a key reads as before.
* `ItemLocks.OneLockIsEnough`: as many locks as buckets would already be safe; the program asks for fewer.
* `BipBuffer.PollKeepsExactly`: the guard of a poll lets through sizes that break the buffer, as in
  `BipBuffer.PollBreaks`.
* `PullTailRun.KeptIsHanded`: a walk that asks for an item and ends on one leaves its count one higher, but hands
  it to the caller only for a COLD list without eviction. `PullTailRun.Removed`: a crawler that blocks the walk makes it return 0 whatever was removed.
* `ChunkCopy`: a copy whose bytes reach the room of the last chunk asks in the end for one more chunk, for 0
  bytes: each new chunk has the size of what remains, so the last one always fills up. `ChunkCopy.Needed` is the
  exact number of allocations, a copy succeeds if and only if all of them are granted, and it fails with all
  bytes in place if and only if the last one is refused (`ChunkCopy.Destination.FailsWithoutNeed`, with
  `ChunkCopy.NeedlessFailure` as an example).
* `SlabMoverCas.RescueCas`: where CAS ids are in use the rescue of a whole item gives its key a new one, and that
  of a chunk does not. By `SlabMoverCas.RescueLosesCas` the new id is beyond every id that a client can have read,
  so a client's cas fails after such a rescue although nobody has stored to the key.
* `SlabAllocator.Allocator.ClsId`: a size that fits no class is given the largest class all the same.
* `Store.LaterFlushRevives`: an item that was flushed but is still linked can be read again while a flush ordered
  for later is pending. What a CAS id proves holds all the same (`Store.CasProvesUnchanged`).
* `Store.OnlyNamedKey`: an append that is answered NOT_STORED may have evicted other keys.

Where copies of the code differ, the models follow these readings: `memory_rebalance/slabs.c:246-247` repeats a
test that `memory_lru/slabs.c:233-234` has right; `memory_rebalance/slabs.c:796-798` leaves out the source class
that `memory_lru/slabs.c:797` sets; `memory_lru/slabs.c:825` is read as a test of `it_flags`;
`memory_lru/slabs.c:215` says FIFO and takes the last page; `memory_lru/bipbuffer.c:93` writes at the wrong
cursor, and its callers use request and push instead; `slabs_curd/items.c:894` starts with the wrong result and
`memory_lru/items.c:1256` with the right one; `slabs_curd/memcached.c:409-410` with `:433-434` releases an item
twice, which is taken as once; `exstore/extstore.c:312` leaves page 0 off every list, and page 0 is reserved;
`memory_lru/crawler.c:371-376` ends a class without taking its list lock, which is taken as if it did.

## Model

| member | source | states |
|---|---|---|
| SlabMoverSafety.PageClear | memory_lru/slabs.c:786-1028 | in every run, under every interleaving, when the mover finds the page clear each of its chunks is marked, unreferenced, on no freelist or LRU, in no table and in no chain |
| SlabMoverSafety.ClearedForever | memory_lru/slabs.c:816-824 | a cleared chunk stays exactly as it is in every later run |
| SlabMoverSafety.ClearedStays | memory_lru/slabs.c:719-749 | no single step of any thread touches a cleared chunk |
| SlabMoverSafety.ClearedUnreachable | memory_lru/slabs.c:990-996 | what the mover has marked as cleared cannot be reached from anywhere |
| SlabMoverSafety.NeighboursLive | memory_lru/items.c:212-236 | head, prev and next of a chained chunk lead to its header and to chunks of the same item |
| SlabMoverSafety.NeverStuck | memory_lru/slabs.c:799-884 | in every phase the mover's pointers are good, it can go on, and its assertions hold |
| SlabMoverSafety.StepKeeps | memory_lru/slabs.c:786-1028 | each step of the mover and of the other threads keeps the invariant of cells, freelists, table and lists |
| SlabMoverSafety.RunKeeps | memory_lru/slabs.c:786-1028 | so does every run |
| SlabMoverSafety.BootInv | memory_lru/slabs.c:205-212 | the invariant holds when all chunks are on the freelists of their classes |
| SlabMoverProgress.GetsDone | memory_lru/slabs.c:786-1028 | from any state in which nobody else holds a reference, the mover by itself finds the page clear within 7 steps for each of its chunks and 2 more |
| SlabMoverProgress.OneChunk | memory_lru/slabs.c:799-989 | the mover by itself makes the chunk it stands at vacant and goes on to the next within 3 steps, in one step if it was vacant before |
| SlabMoverMeaning.MoverMeaning | memory_lru/slabs.c:852-989 | no step of the mover changes what a key maps to; a key leaves the map only as expired or flushed, for lack of memory, or as busy for too many passes |
| SlabMoverMeaning.FateDecided | memory_lru/slabs.c:890-926 | an item falls to the mover if and only if it is linked and not busy, is dropped as expired if and only if it is, and for lack of memory if and only if all chunks tried lie in the page |
| SlabMoverExact.BusyDeleted | memory_lru/slabs.c:852-864 | with the item lock the busy delete begins if and only if the item is linked, somebody else refers to it, and more than 1000 passes have been busy |
| SlabMoverExact.BusyPassed | memory_lru/slabs.c:833-884 | a lock not to be had, an unlinked item, or a referenced one before that leaves everything as it was and makes the pass busy |
| SlabMoverExact.LookDecides | memory_lru/slabs.c:799-831 | what a chunk is decides what the mover does, although it sees only flags: a free one is cleared, an item in the table or a chunk of one is tried, a cleared one passed, any other is busy; a pass is repeated, and counted, if and only if something in it was busy |
| SlabMoverExact.Falls | memory_lru/slabs.c:907-926 | an item falls to the mover with a reference of its own, and with a chunk from the freelist outside the page if and only if it is to be saved |
| SlabMoverExact.Finishes | memory_lru/slabs.c:929-989 | the key of a saved item leads to the new header, that of a dropped one nowhere, every other key where it led; only a dropped item makes the pass busy |
| SlabMoverExact.Deletes | memory_lru/slabs.c:859-882 | the busy delete takes the key out, gives back two references, and leaves what is stored to those who hold the rest |
| SlabMoverExact.CountsFollow | memory_lru/items.c:446-507 | counts, links and list membership follow get, link, unlink, release and the moves between lists exactly; an item is up for freeing when and only when its count reaches 0 |
| SlabMoverExact.AllocHands | memory_lru/slabs.c:281-291 | an allocation hands out the head of the freelist with a count of one |
| SlabMoverExact.InitStores | memory_lru/items.c:293-331 | what a fresh item stores: its expiry, flags and bytes, or no bytes yet if it is to be chained |
| SlabMoverExact.AttachStores | memory_lru/items.c:212-236 | chaining a chunk appends its bytes to what the item stores |
| SlabMoverMeaning.RescueKeepsMeaning | memory_lru/slabs.c:930-956 | moving an item keeps the whole map of keys to exptime, flags and payload |
| SlabMoverMeaning.ChunkRescueKeepsMeaning | memory_lru/slabs.c:957-972 | moving one chunk keeps the whole map |
| SlabMoverMeaning.DropMeaning | memory_lru/slabs.c:973-982 | dropping an item removes its key and nothing else |
| SlabMoverMeaning.DeleteMeaning | memory_lru/slabs.c:852-864 | the busy delete removes the item's key and nothing else |
| SlabMoverCas.RescueCas | memory_lru/slabs.c:929-972 | a rescue changes the id of the key if and only if it moves a whole item, not a chunk, and CAS ids are in use |
| SlabMoverCas.RescueLosesCas | memory_lru/items.c:446-466 | in every run from the start the id of a key after the rescue of its item is beyond every id any key had at any time before |
| SlabMoverCas.RunCas | memory_lru/items.c:446-466 | in every run linked items have ids of their own, none beyond the last one given out, and 0 where ids are switched off |
| SlabMoverCas.StepCas | memory_lru/items.c:446-466 | so does each step of the mover and of the other threads |
| SlabMoverMeaning.OthersMeaning | memory_lru/items.c:446-507 | of the other threads' steps only link, unlink, touch and an increment in place change the map, at one key, and of what it stores only the expiry or the value |
| SlabMoverMeaning.AttachKeepsMeaning | memory_lru/items.c:212-236 | chaining a chunk to an item that is not linked changes nothing stored |
| SlabMoverMeaning.FreeKeepsMeaning | memory_lru/slabs.c:307-396 | freeing an unreferenced item with its chunks changes nothing stored |
| SlabMoverMeaning.NewPageKeepsMeaning | memory_lru/slabs.c:225-255 | a new page changes nothing stored |
| SlabMoverMeaning.Lifecycle | memory_lru/items.c:446-507 | in every run a count is the link plus the references out; an item is linked if and only if it is in the table under its key and on an LRU list or between two; a free cell is on one freelist, once |
| SlabMoverMeaning.ReturnsUnreferenced | memory_lru/items.c:499-507 | a chunk comes to a freelist only from an unlinked item at count 0, from the mover's drop of one to which only the link and the mover refer, or from a new page |
| SlabMoverMeaning.LookKeepsMeaning | memory_lru/slabs.c:799-824 | looking at a chunk, and cutting a free one off, changes nothing stored |
| SlabMoverMeaning.TryKeepsMeaning | memory_lru/slabs.c:831-926 | trying an item's lock, and allocating for its rescue, changes nothing stored |
| SlabMoverSteps.RebalanceExact | memory_lru/slabs.c:719-749 | the rescue allocation pulls a prefix of the freelist, clears what lies in the page, and returns the first chunk outside it if one comes within perslab tries |
| SlabMoverSteps.CutFree | memory_lru/slabs.c:753-762 | cutting a free chunk and marking it keeps every freelist exact |
| SlabMoverSteps.RescueCells | memory_lru/slabs.c:930-956 | the exact state of every cell, the table and the lists after an item was moved |
| SlabMoverSteps.FixChainExact | memory_lru/slabs.c:941-949 | walking the next pointers to their end repoints the head of every chunk of the item and nothing else, however long the walk may be |
| SlabMoverSteps.ChunkWrites | memory_lru/slabs.c:957-972 | the exact state of the cells after one chunk was moved |
| SlabMoverSteps.KeepRescueItem | memory_lru/slabs.c:930-956 | after the move of an item chains are doubly linked and point at the new head |
| SlabMoverSteps.KeepRescueChunk | memory_lru/slabs.c:957-972 | after the move of a chunk its chain is doubly linked through the new chunk |
| SlabMoverSteps.KeepTry | memory_lru/slabs.c:831-926 | the step from trylock to the fate of an item keeps the invariant |
| SlabMoverSteps.KeepLook | memory_lru/slabs.c:799-884 | the step that looks at a chunk keeps the invariant |
| SlabMoverSteps.KeepDrop | memory_lru/slabs.c:973-982 | dropping an item keeps the invariant |
| SlabMoverSteps.KeepDelete | memory_lru/slabs.c:852-864 | the busy delete keeps the invariant |
| SlabMoverInv.FreeItemExact | memory_lru/slabs.c:307-396 | freeing an item gives back its header and all of its chunks, each to its class, and nothing else |
| SlabMoverInv.WalkFrees | memory_lru/slabs.c:337-353 | following the next pointers to their end frees exactly the chain, however long the walk may be |
| SlabMoverInv.KeepAlloc | memory_lru/slabs.c:281-291 | allocation keeps the invariant |
| SlabMoverInv.KeepAttach | memory_lru/items.c:212-236 | chaining a chunk keeps the invariant |
| SlabMoverInv.KeepLink | memory_lru/items.c:446-466 | linking keeps the invariant |
| SlabMoverInv.KeepUnlink | memory_lru/items.c:468-481 | unlinking keeps the invariant |
| SlabMoverInv.KeepRelease | memory_lru/items.c:499-507 | releasing a reference keeps the invariant |
| SlabMoverInv.KeepTouch | memory_lru/items.c:1035-1042 | a touch keeps the invariant |
| SlabMoverInv.KeepEdit | slabs_curd/memcached.c:156-170 | so does an increment that overwrites the number in place |
| SlabMoverInv.KeepNewPage | memory_lru/slabs.c:225-255 | a new page that another thread takes for a class during the move keeps the invariant |
| SlabMoverBooks.MoveInRuns | memory_lru/slabs.c:719-1077 | in every run of mover, other threads and allocator the books of all classes agree with the cells, and when the mover is done all chunks of the page are cleared in them, so that it can change its class: books right, pages the same, chunks in use and requests the same |
| SlabMoverBooks.StepJoint | memory_lru/slabs.c:719-1028 | each step keeps freelists, chunks in use, cleared chunks and page lists of the books in agreement with the cells |
| SlabMoverBooks.LiveIsInUse | memory_lru/slabs.c:281-299 | the requested bytes of a class are the sum over chunks which are exactly its cells in use |
| SlabMoverBooks.DoneIsCleared | memory_lru/slabs.c:1030-1066 | when the mover finds the page clear, the books have as many chunks cleared as the page has |
| SlabMoverBooks.Finish | memory_lru/slabs.c:1030-1077 | the allocator's end of a move, with nothing to ask for but that the mover is done |
| SlabMoverBooks.BootJoint | memory_lru/slabs.c:205-212 | books and cells agree at the start, with the page that will be moved as the only one |
| Slabs.PoppedOk | memory_lru/slabs.c:281-299 | taking the head of the freelist keeps chunks unique and counted and `requested` the sum of the requests |
| Slabs.FreedOk | memory_lru/slabs.c:370-391 | so does freeing |
| Slabs.ClearedFreeOk | memory_lru/slabs.c:753-762 | so does clearing a free chunk |
| Slabs.ClearedLiveOk | memory_lru/slabs.c:731-743 | so does the inline reclaim |
| Slabs.RescuedOk | memory_lru/slabs.c:956-988 | after a rescue the adjustment leaves `requested` the sum of what the chunks in use were asked for |
| Slabs.WithPageOk | memory_lru/slabs.c:205-212 | splitting a page adds its chunks, each once |
| Slabs.WithoutPageOk | memory_lru/slabs.c:1059-1066 | a page all of whose chunks are cleared can leave the class: none of its chunks is free or in use |
| Slabs.PagesUpdate | memory_lru/slabs.c:1063-1068 | how the count of each page over all classes follows a change of one class |
| SlabAllocator.ClassSizes | memory_lru/slabs.c:95-138 | the sizes are exactly the aligned ones that list or factor ask for, one after the other, up to where list, factor or number of classes end them; the last is the largest chunk; they ascend for proper settings |
| SlabAllocator.Allocator.constructor | memory_lru/slabs.c:95-155 | the allocator starts with its books in order, its classes empty, cut by the page size, and sorted for proper settings |
| SlabAllocator.Allocator.ClsId | memory_lru/slabs.c:78-89 | 0 exactly for sizes out of range; else a class that fits if any does, and the last one if none does; with sorted classes the smallest, and then what is returned fits if and only if the size is at most the largest chunk |
| SlabAllocator.Allocator.NewSlab | memory_lru/slabs.c:225-255 | a class gets one page if and only if the pool has one, or the system has one and the limit allows it or the class has none yet; the pages are otherwise the same |
| SlabAllocator.Allocator.SplitPage | memory_lru/slabs.c:205-212 | all chunks of the page come on the freelist, each once, the last one first, in front of what was there |
| SlabAllocator.Allocator.Alloc | memory_lru/slabs.c:257-305 | the head of the freelist is handed out, with or without leave to take a page; from an empty one a chunk comes if and only if a page may be taken, is to be had, and holds a chunk, and then it is the last chunk of that page; the size is booked |
| SlabAllocator.Allocator.Free | memory_lru/slabs.c:358-396 | the chunk becomes the head of the freelist and its request is taken off |
| SlabAllocator.Allocator.FreeChunked | memory_lru/slabs.c:307-356 | header and chunks are on the freelists of their own classes, in front of what was there; exactly they are in use no more, and exactly their requests are off the books |
| SlabAllocator.Allocator.StartMove | memory_lru/slabs.c:662-716 | a move starts exactly under these conditions, with the first page; each refusal leaves all as it was |
| SlabAllocator.Allocator.CutFree | memory_lru/slabs.c:753-762 | a free chunk of the page is off the freelist, whose order stays, and cleared |
| SlabAllocator.Allocator.RebalanceAlloc | memory_lru/slabs.c:719-749 | at most perslab chunks come off the freelist, in order; those of the page are cleared, the first that lies elsewhere is handed out, and requested bytes grow by its size only |
| SlabAllocator.Allocator.Rescue | memory_lru/slabs.c:956-988 | the old chunk is cleared and in use no more, the new one stands for the old request, and what was booked for the new one is off |
| SlabAllocator.Allocator.FinishMove | memory_lru/slabs.c:1030-1077 | the cleared page changes its class and all pages are the same; for the pool as destination all other classes are as before, and only pages of the pool are released to the system, none as long as the limit is kept |
| SlabAllocator.Allocator.TakeFirstPage | memory_lru/slabs.c:1063-1066 | shuffling the page list backwards drops its first page |
| SlabAllocator.Allocator.MemoryRelease | memory_lru/slabs.c:554-567 | nothing with preallocated memory or without slab reassignment; else pages leave the end of the pool until the limit is met or the pool is empty, no more than that takes, and no other class changes |
| SlabAllocator.Allocator.MovePoolPage | memory_lru/slabs.c:662-701 | a move out of the pool starts under the same conditions, and in one step splits its first page into the destination; other classes are as before |
| SlabAllocator.Allocator.AllocItem | memory_lru/items.c:238-283 | an item gets a chunk if and only if its sizes are in range and its class, the first that fits, has one or gets a page; the size assertion holds under settings whose largest chunk holds a header; every item and header is booked with the size its free takes off; a large item is one beyond the largest chunk |
| SlabAllocator.Allocator.AllocItemChunk | memory_lru/items.c:212-221 | so does every chunk of a large item, whose size is that of what remains, up to the largest chunk; the size assertion holds |
| SlabAllocator.Allocator.FreeItem | memory_lru/items.c:334-347 | the chunk is the head of the freelist and in use no more, and what was booked is off, also for a header whose nbytes is that of the stored item |
| ExtstoreTheorems.ReadYourWrites | exstore/extstore.c:693-810 | in every run a read of an object ever written misses only if its page was closed, freed or reused, else returns exactly its bytes, from the buffer or from disk, as does every read still waiting for the disk |
| ExtstoreTheorems.ReceiptRead | exstore/extstore.c:756-774 | a read under a receipt misses if and only if the page was closed, freed or reused since |
| ExtstoreTheorems.PinnedRead | exstore/extstore.c:764-803 | a pread under way keeps its page and delivers the object whenever it happens |
| ExtstoreTheorems.WriteReceipt | exstore/extstore.c:567-585 | a write succeeds if and only if its page is active and has room, and then adds exactly one receipt, with the page, version and offset it returns |
| ExtstoreExact.WriteSubmits | exstore/extstore.c:541-545 | a write that does not fit into the buffer of its active page submits it, full with what it holds, by one io; no other write submits anything or touches another page |
| ExtstoreExact.WriteAttaches | exstore/extstore.c:547-549 | a write to an active page without buffer, but with room, attaches the top of the stack behind what is allocated, if the stack has one; no other write takes a buffer |
| ExtstoreExact.WriteAppends | exstore/extstore.c:551-585 | what is written goes behind what the buffer holds, and counts once, with its length |
| ExtstoreExact.WriteTurns | exstore/extstore.c:530-539 | a new page is asked for if and only if the page is not active, or allocated to its end without a buffer that takes more |
| ExtstoreExact.PageTaken | exstore/extstore.c:383-417 | a request takes the head of the free bucket asked for if it has one, else of the default freelist, with a version of its own, as the head of its bucket; without such a page nothing changes |
| ExtstoreExact.BeginChooses | exstore/extstore.c:519-526 | the first lock of a write request chooses the head of the bucket, after taking a page if there was none |
| ExtstoreExact.TurnTakes | exstore/extstore.c:534-538 | a full page is replaced at the head of its bucket if a page is to be had |
| ExtstoreExact.LandWrites | exstore/extstore.c:783-788 | a pwrite puts the content of the buffer and zeros behind it at its place in the file, and changes nothing else |
| ExtstoreExact.FlushReturns | exstore/extstore.c:448-474 | the flush callback counts one buffer as written, gives buffer and io back, and ends the page if and only if it is written to its end |
| ExtstoreExact.ReadPins | exstore/extstore.c:756-774 | a read holds its page if and only if the page has the version, is neither free nor closed, and the object is written out or the page not active |
| ExtstoreExact.EndReadUnpins | exstore/extstore.c:799-810 | the end of a pread lets go of its page |
| ExtstoreExact.DeleteTakesOff | exstore/extstore.c:634-657 | a delete takes effect if and only if the page has the version and is not closed; the page stops at 0, the totals do not |
| ExtstoreExact.CloseCloses | exstore/extstore.c:675-685 | a close takes effect if and only if the page has the version |
| ExtstoreTheorems.OthersKeepReceipts | exstore/extstore.c:567-585 | no other step adds a receipt or takes one away |
| ExtstoreTheorems.ReadbackBlock | exstore/extstore.c:479-500 | walking any flushed buffer in use gives exactly the objects written to it, in order, each once |
| ExtstoreTheorems.Conservation | exstore/extstore.c:420-500 | in every run buffers and ios are conserved, pages and buffers are coupled, no submit finds the io stack empty, no assertion of the flush callback or of page allocation fails |
| ExtstoreTheorems.PageCoupling | exstore/extstore.c:430-463 | with a buffer written is its offset and allocated its end, without one they are equal, at most the page size |
| ExtstoreTheorems.SecondWriterAsserts | exstore/extstore.c:383-386 | after a page was taken for a bucket a second request for it would fail the assertion |
| ExtstoreTheorems.OneList | exstore/extstore.c:383-417 | every page but 0 is on exactly one list, and page_free counts the free ones |
| ExtstoreTheorems.FreedQuiet | exstore/extstore.c:813-944 | a page is freed only by maintenance, never while active, buffered or being read; empty or closed, or of the lowest version among the candidates |
| ExtstoreTheorems.FreedBy | exstore/extstore.c:896-944 | the two places where a page can be freed |
| ExtstoreTheorems.EvictionCloses | exstore/extstore.c:927-944 | the end of a scan changes one page at most: the victim, a default page in use, of the lowest version among those seen; it is freed if nobody reads it, else closed |
| ExtstoreTheorems.SeenIs | exstore/extstore.c:896-925 | over any run of a scan, what was seen grows by exactly the versions of the pages that were candidates when visited, and eviction stays due as long as no page was freed |
| ExtstoreTheorems.ScanEvicts | exstore/extstore.c:886-944 | over a whole scan, with any other steps between, the page evicted has the lowest version of all candidates visited, and none is evicted when the scan freed one |
| ExtstoreExact.ScanFreesExactly | exstore/extstore.c:896-925 | a visit of the scan gives its page back if and only if that is in use, not active, empty or closed, and not being read; it comes empty on the list of its own free bucket, and its numbers are off the totals |
| ExtstoreExact.WakeMeans | exstore/extstore.c:880-894 | maintenance means to evict if and only if no page is free for the default |
| ExtstoreExact.EvictionHappens | exstore/extstore.c:927-944 | at the end of a scan that was to evict and freed nothing the victim is closed, and given back if nobody reads it |
| ExtstoreExact.NoEviction | exstore/extstore.c:927-944 | otherwise the end of a scan changes nothing |
| ExtstoreExact.ScanHasVictim | exstore/extstore.c:886-925 | a whole scan that found none free and freed none has a victim as soon as it has visited a candidate |
| ExtstoreTheorems.DeleteTotals | exstore/extstore.c:627-660 | delete keeps the totals equal to the sums if and only if it takes no more than the page has |
| ExtstoreTheorems.StepTotals | exstore/extstore.c:567-585 | every other step keeps the totals equal to the sums |
| ExtstoreLedger.TotalsInRuns | exstore/extstore.c:627-660 | in every run in which each object is deleted at most once, with its length, the totals of objects and bytes are the sums over the pages |
| ExtstoreLedger.KeepLedger | exstore/extstore.c:567-660 | each page counts at least the objects and bytes written to it and not yet deleted; every step but a delete keeps that |
| ExtstoreLedger.KeepDeleted | exstore/extstore.c:627-660 | so does the deletion of one of these objects, and it keeps the totals |
| ExtstoreLedger.TwiceDeleted | exstore/extstore.c:638-652 | deleting again what emptied a page breaks the totals |
| ExtstoreLedger.DoubleDeleteRun | exstore/extstore.c:627-660 | a run from the start that deletes its one object twice, after which the totals are wrong, and were right after the first time |
| ExtstoreTheorems.BootInv | exstore/extstore.c:299-330 | the engine starts in order, page 0 reserved |
| ExtstoreTheorems.Reachable | exstore/extstore.c:383-944 | the invariant holds in every run |
| ExtstoreSafety.StepKeeps | exstore/extstore.c:383-944 | each step keeps the invariant of pages, buffers, ios, lists, threads, reads and receipts |
| ExtstoreSafety.KeepScan | exstore/extstore.c:896-925 | so does a visit of the maintenance scan |
| ExtstoreSafety.KeepEndScan | exstore/extstore.c:927-944 | so does the eviction |
| ExtstoreSafety.KeepFreePage | exstore/extstore.c:813-859 | so does freeing a quiet page |
| ExtstoreSafety.KeepStartRead | exstore/extstore.c:756-774 | so does the start of a read |
| ExtstoreRuns.FlushAssertsHold | exstore/extstore.c:456-463 | the assertions of the flush callback hold for every io in flight |
| ExtstoreRuns.KeepWrite | exstore/extstore.c:528-585 | the second lock of a write request, with the write, keeps the invariant; what it does is in `ExtstoreExact.WriteSubmits` and the rows after it |
| ExtstoreRuns.KeepBegin | exstore/extstore.c:519-526 | so does its first lock |
| ExtstoreRuns.KeepTurn | exstore/extstore.c:532-539 | so does the turn to a new page |
| ExtstoreRuns.KeepLand | exstore/extstore.c:783-788 | so does a pwrite, which leaves the other blocks of the page alone |
| ExtstoreRuns.KeepFlushed | exstore/extstore.c:448-474 | so does the flush callback |
| ExtstoreSteps.IoAvailable | exstore/extstore.c:479-484 | the io stack is not empty when a buffer is submitted |
| ExtstoreSteps.KeepSubmit | exstore/extstore.c:479-500 | submitting keeps the invariant |
| ExtstoreSteps.KeepAllocateWbuf | exstore/extstore.c:420-440 | attaching a buffer keeps the invariant |
| ExtstoreSteps.KeepAppend | exstore/extstore.c:567-585 | writing an object keeps the invariant |
| ExtstorePages.KeepAllocatePage | exstore/extstore.c:383-417 | taking a page keeps the invariant |
| ExtstorePages.HeadIsFull | exstore/extstore.c:385-385 | the head page of a bucket is full whenever its writer asks for another |
| ItemImage.RoundTrip | exstore/storage.c:329-404 | walking a packed buffer from 0 gives back the objects, for any number of them and any padding |
| ItemImage.ImageOk | memory_rebalance/memcached.h:65-67 | ITEM_ntotal evaluated on the bytes of an item finds its end |
| Compaction.Compactor.Readback | exstore/storage.c:322-404 | the readback loop visits exactly the objects written, in order, and does to each what a visit does |
| Compaction.VisitCounts | exstore/storage.c:344-398 | an object whose key is live and points into the page is taken off the page with its length, and skipped, rescued or lost for exactly these reasons; any other is passed over |
| Compaction.CompactKeeps | exstore/storage.c:349-398 | after compaction and close a key reads as before if and only if the first object of that key that is rewritten is a copy of the one it points at |
| Compaction.OnePerKey | exstore/storage.c:349-398 | with one object per key in the page a key reads as before if rewritten, else not at all |
| Compaction.StaleObjectReturns | exstore/storage.c:349-356 | with two objects of a key the overwritten one comes back |
| Compaction.OthersKeep | exstore/storage.c:339-356 | keys that do not point into the page, or are dead, are left alone |
| Assoc.HashTable.constructor | slabs_curd/assoc.c:53-62 | the table starts empty |
| Assoc.HashTable.Find | slabs_curd/assoc.c:64-87 | finds what the plain map has, in every intermediate state of an expansion |
| Assoc.HashTable.HashItemBefore | slabs_curd/assoc.c:92-107 | the place that points at the item, or at the end of its chain |
| Assoc.HashTable.Insert | slabs_curd/assoc.c:136-151 | the map with the new key; chains stay acyclic and disjoint |
| Assoc.HashTable.Delete | slabs_curd/assoc.c:154-172 | the map without the key; its assertion needs the key to be there |
| Assoc.HashTable.Expand | slabs_curd/assoc.c:110-122 | the same map, in the old table of a doubled one, or nothing when memory is short |
| Assoc.HashTable.MigrateBucket | slabs_curd/assoc.c:198-212 | the same map with one more bucket moved; expansion ends with nothing left in the old table |
| Assoc.HashTable.MoveChain | slabs_curd/assoc.c:199-204 | every item of the bucket ends in its new chain |
| Assoc.HashTable.OldEmptyBelow | slabs_curd/assoc.c:206-212 | old buckets below expand_bucket are empty |
| Assoc.HashTable.InItsChain | slabs_curd/assoc.c:68-73 | a key is in the map if and only if it is in the chain the lookup chooses |
| Assoc.HashTable.Maintain | slabs_curd/assoc.c:186-223 | between two waits of the maintenance thread each lock obtained moves one bucket while the expansion lasts, and nothing moves without a lock; the expansion ends exactly with the last bucket; the map is kept |
| ItemLocks.OneLockIsEnough | slabs_curd/thread.c:268-276 | no two threads with different locks use one chain, in any run with any number of expansions, if and only if there are at most as many locks as buckets |
| ItemLocks.EnoughBuckets | slabs_curd/assoc.c:191-219 | also no thread uses a chain being moved, or an old table already freed |
| ItemLocks.TooManyLocks | slabs_curd/thread.c:43-61 | with more locks than buckets two threads meet on a chain |
| ItemLocks.SameChainSameStripe | slabs_curd/assoc.c:191-197 | hash values that lead to one chain share a lock |
| ItemLocks.TouchedSameStripe | slabs_curd/assoc.c:198-206 | what the migration of a bucket touches is guarded by the lock of that bucket |
| ItemLocks.AdvanceKeepsChoice | slabs_curd/assoc.c:68-73 | moving a bucket does not change the choice of a thread that holds another lock |
| ItemLocksProgress.ChoosesSlot | slabs_curd/assoc.c:64-87 | the chain a thread chooses is the one its key is in, if it is in the table at all |
| ItemLocksProgress.ExpansionEnds | slabs_curd/assoc.c:186-223 | with nobody in its way the maintenance thread moves the remaining buckets, four steps each, and ends the expansion with every lock free |
| ItemLocksProgress.WholeExpansion | slabs_curd/assoc.c:186-237 | from a table at rest an expansion runs through and leaves twice the buckets |
| ItemLocksProgress.InAndOut | slabs_curd/thread.c:43-61 | taking a lock and giving it back leaves everything as it was |
| ItemLocks.StepKeeps | slabs_curd/assoc.c:186-237 | every step keeps locks exclusive and every chain that was chosen right |
| ItemLocks.ItemLockTable.Init | slabs_curd/thread.c:241-285 | a lock table is made if and only if it is smaller than the hash table, and every table made is safe |
| BipBuffer.PushAppends | memory_lru/bipbuffer.c:69-82 | a push appends exactly the requested span to the queue of regions A and B |
| BipBuffer.SpanIsFree | memory_lru/bipbuffer.c:59-67 | the requested span lies in the buffer and apart from every live byte |
| BipBuffer.SpanIsWhole | memory_lru/bipbuffer.c:11-17 | the longest span granted ends at the next live byte or at the end of the buffer |
| BipBuffer.SwitchesExactly | memory_lru/bipbuffer.c:50-57 | after a push region B is used if and only if it was, or there is now more room in front of region A than behind it |
| BipBuffer.SwitchesOnPoll | memory_lru/bipbuffer.c:130-143 | a poll of all of region A puts region B in its place, or starts anew; one of less moves the start of region A, and the same test follows |
| BipBuffer.PollDrops | memory_lru/bipbuffer.c:120-146 | a poll within region A drops the oldest bytes |
| BipBuffer.PollKeepsExactly | memory_lru/bipbuffer.c:120-146 | the buffer stays in order if and only if no more is polled than region A holds |
| BipBuffer.PollBreaks | memory_lru/bipbuffer.c:120-146 | a poll of two bytes when one is held is let through and breaks the buffer |
| BipBuffer.EmptyExact | memory_lru/bipbuffer.c:46-48 | region A is empty if and only if the queue is |
| BipBuffer.Bipbuf.Request | memory_lru/bipbuffer.c:59-67 | granted exactly up to the unused length, apart from live bytes |
| BipBuffer.Bipbuf.Push | memory_lru/bipbuffer.c:69-82 | the queue grows by the span that was handed out, if it fits, for any size |
| BipBuffer.Bipbuf.Enqueue | memory_lru/items.c:1259-1266 | request, copy and push append the bytes, or nothing when they do not fit |
| BipBuffer.Bipbuf.PeekAll | memory_lru/bipbuffer.c:112-118 | a prefix of the queue, nothing exactly when it is empty |
| BipBuffer.Bipbuf.Poll | memory_lru/bipbuffer.c:120-146 | what remains is the rest of the queue |
| BipBuffer.Bipbuf.Used | memory_lru/bipbuffer.c:23-25 | the length of the queue |
| BipBuffer.Bipbuf.IsEmpty | memory_lru/bipbuffer.c:46-48 | whether the queue is empty |
| BumpQueue.ExactlyOnce | memory_lru/items.c:1255-1318 | in every run the bumps carried out are the accepted ones in order, each once; references balance; the todo loop reads whole entries and ends at zero |
| BumpQueue.PeekedUntouched | memory_lru/items.c:1293-1314 | no producer writes into the peeked region |
| BumpQueue.Drained | memory_lru/items.c:1291-1317 | with the maintainer away and the buffer empty every accepted bump was carried out and its reference given back |
| BumpDrain.Drains | memory_lru/items.c:1285-1318 | from wherever it is, the maintainer by itself comes to an empty buffer, with every accepted bump carried out and its reference given back |
| BumpDrain.GetsIn | memory_lru/items.c:1255-1277 | a bump gets in if and only if the free piece behind the newest entry is long enough, else its reference is given back |
| BumpDrain.PeekTakes | memory_lru/items.c:1293-1302 | a peek takes all of region A |
| BumpQueue.NextEntry | memory_lru/items.c:1303-1310 | the next entry of a batch can be read whole, never split over the two regions |
| BumpQueue.StepKeeps | memory_lru/items.c:1255-1318 | every step of producers and maintainer keeps regions, batch and references in order |
| LruList.LruList.LinkQ | memory_lru/items.c:367-392 | the item becomes the head; size and bytes follow |
| LruList.LruList.UnlinkQ | memory_lru/items.c:407-438 | the item is cut out of the list; size and bytes follow |
| LruList.LruList.LinkTailQ | memory_lru/items.c:1704-1723 | the crawler becomes the tail, which no count notices |
| LruList.LruList.UnlinkTailQ | memory_lru/items.c:1725-1744 | the crawler leaves the list, also when it has run off its head |
| LruList.LruList.CrawlQ | memory_lru/items.c:1748-1800 | the crawler goes one place towards the head, the order of the items stays |
| LruList.LruList.Crawl | memory_lru/crawler.c:335-385 | a crawl considers the items from the tail on, each once, exactly the number asked for or all; it shows the module exactly those it gets to itself, and the list then lacks exactly those of them the module unlinks |
| LruCrawl.CrawlLeaves | memory_lru/crawler.c:335-385 | a crawl leaves the list in its order, without exactly those that it considered, got to itself and found dead |
| LruList.NobodyDead | memory_lru/crawler.c:160-245 | a module that unlinks nothing, as the dump, leaves the list as it was |
| LruList.SwappedItems | memory_lru/items.c:1766-1795 | the shuffle with a neighbour keeps the order of the items |
| LruList.CutItem | memory_lru/items.c:424-435 | what taking an item out does to count and bytes |
| PullTail.StepKeepsPartition | memory_lru/items.c:1104-1216 | after each visit every linked item is on exactly one list, that of its class and segment |
| PullTail.StepOutcome | memory_lru/items.c:1104-1216 | a visit leaves the item alone, clears its mark, moves it within its slab class, or unlinks it as expired, flushed or evicted; the reference count follows |
| PullTailExact.UnlinkedExactly | memory_lru/items.c:1104-1184 | an item whose lock was obtained is unlinked if and only if it has expired or was flushed, or the call evicts from COLD and may |
| PullTailExact.ToColdExactly | memory_lru/items.c:1134-1157 | it goes to COLD if and only if it is not over, on HOT or WARM, not active, and its list is beyond its share of the bytes or the item too old |
| PullTailExact.ToWarmExactly | memory_lru/items.c:1134-1184 | it goes to WARM if and only if it is not over, active, and on HOT, or on COLD with segments in use and a call that neither evicts nor asks for the item |
| PullTailExact.VisitFate | memory_lru/items.c:1104-1216 | in each of these cases, in WARM kept by an access, and otherwise: the exact item, its count, and both lists afterwards |
| PullTailExact.LeftAlone | memory_lru/items.c:1072-1102 | a crawler, or an item whose lock is not to be had, is left as it is |
| PullTailRun.Lrus.LruPullTail | memory_lru/items.c:1048-1221 | the walk ends after at most five items besides the crawler, visits from the tail towards the head, leaves every item of the cache in an allowed outcome and the lists a partition, and evicts the tail of COLD whenever it should |
| PullTailRun.TailEvicted | memory_lru/items.c:1158-1184 | a call that evicts, and may, unlinks the tail of COLD if it gets its lock; if the tail was not over it returns 1 after this one visit, else at least 1 unless a crawler that blocks the walk makes it forget |
| PullTailRun.WalkOutcome | memory_lru/items.c:1068-1204 | the outcomes of a whole walk, also for an item that is visited twice |
| PullTailRun.KeptIsHanded | memory_lru/items.c:1185-1217 | a walk that asks for an item and ends on one leaves its count one higher than before the walk, and hands it to the caller if and only if the list is COLD and the call is not an eviction |
| PullTailRun.OthersStay | memory_lru/items.c:1069-1070 | the item noted before a visit is still on the list after it |
| Store.Cache.DoStoreItem | slabs_curd/memcached.c:318-443 | the table and the answer under any clock and flush are those of the five rows below; while the clock does not go back, what clients see afterwards is that of the commands on what they saw, with lazy expiry |
| Store.SetAnswer | slabs_curd/memcached.c:360-443 | set always stores what it brings, with a fresh id and the time of now, and touches no other key |
| Store.AddAnswer | slabs_curd/memcached.c:326-331 | add stores if and only if the key is absent or dead; what it finds has the time of now afterwards unless it was accessed within a minute and is not an active item on COLD |
| Store.ReplaceAnswer | slabs_curd/memcached.c:329-331 | replace stores if and only if the key is present |
| Store.CasAnswer | slabs_curd/memcached.c:332-359 | cas is answered NOT_FOUND, STORED or EXISTS if and only if the key is absent, present with the id sent, or with another; it stores what it brings in the second case only |
| Store.JoinAnswer | slabs_curd/memcached.c:366-431 | append and prepend store if and only if the key is present, an id sent is its id, the value is not in storage and memory is granted; then old flags and expiry, and old payload before new or new before old |
| Store.Cache.DoItemGet | slabs_curd/items.c:747-812 | unlinking a dead item does not change what clients see |
| Store.Cache.LinkItem | slabs_curd/items.c:123-143 | the linked item gets a fresh id and shows up unless it is dead at once |
| Store.Cache.DoItemUpdate | slabs_curd/items.c:276-303 | a bump changes nothing a client sees |
| Store.OnlyNamedKey | slabs_curd/memcached.c:318-443 | a command changes the named key only, and only when it answers STORED; what else is gone was evicted for a joined item |
| Store.JoinedPayload | slabs_curd/memcached.c:286-310 | append and prepend join the payloads and keep one line end |
| Store.CasProvesUnchanged | slabs_curd/memcached.c:332-350 | a cas answered STORED means that nobody stored to the key since the id was read, and the value is what was read, in every run over the table, with items that are dead but linked, under any clocks and flushes |
| Store.SameId | slabs_curd/memcached.c:332-350 | at any two times with the same id a key has the same item, and none was stored between |
| Store.LaterFlushRevives | slabs_curd/items.c:733-744 | an item that is flushed but linked is there again while a flush ordered for later is pending |
| Store.CommandedView | slabs_curd/memcached.c:318-443 | what a client sees of a command on the table is the table of commands on what it sees |
| Store.IdsDistinct | slabs_curd/items.c:136-136 | ids of linked items are distinct over all keys, dead ones included |
| Store.WithoutIds | slabs_curd/items.c:136-136 | with ids switched off a cas succeeds after another client's set |
| Store.RunKeeps | slabs_curd/items.c:123-143 | in every run over the table, under any clocks and flushes, a linked item is the one stored last to its key and has the id of that store |
| ChunkCopy.Destination.CopyChunks | slabs_curd/memcached.c:215-284 | a copy succeeds if and only if the allocations it needs, an exact number, are granted; then it has appended exactly the first len bytes, else those that fitted before the first refusal; no chunk overflows, all but the last are full; the copy ends |
| ChunkCopy.Destination.CopyChunked | slabs_curd/memcached.c:226-260 | the same of the loop over a source in chunks of any fill |
| ChunkCopy.Destination.CopyFlat | slabs_curd/memcached.c:261-282 | the same of the loop over a source in one piece |
| ChunkCopy.Destination.FailsWithoutNeed | slabs_curd/memcached.c:245-252 | a copy that fails has all bytes in place if and only if it is the last allocation, for 0 bytes, that was refused |
| ChunkCopy.AfterIsCeiling | slabs_curd/items.c:425-449 | chunks asked for after the first room is used up: as many as hold the remaining bytes, rounded up |
| ChunkCopy.LastForNothing | slabs_curd/memcached.c:272-279 | of the allocations of a copy the last one, and no other, is asked for when everything has been copied |
| ChunkCopy.NeedlessFailure | slabs_curd/memcached.c:272-279 | 5 bytes into a chunk with room for 3: one more chunk holds them all, and the copy fails for want of a second |
| ChunkCopy.Destination.AllocChunk | slabs_curd/items.c:425-449 | the new chunk has the room left to fill, up to the largest chunk |
| ChunkCopy.Destination.CopyData | slabs_curd/memcached.c:286-303 | a chunked item ends up with the joined value |
| ChunkCopy.CopyDataFlat | slabs_curd/memcached.c:293-307 | so does an item in one piece, whose second copy overwrites the first line end |
| ChunkCopy.Gather | exstore/storage.c:62-80 | a chunked value goes into the write buffer in one piece |

## Left out

- SlabMoverSafety.PageClear: the mover takes one chunk per lock region (`slab_bulk_check` is 1); what it tells external storage, statistics and times are left out; the region in which it holds only an item lock is one step.
- SlabMover and Extstore are protocols on values: the order of the writes inside one lock region is not part of them.
- SlabMoverSafety.PageClear: the source is a class of chunks; a source page in the global pool has nothing to clear (`SlabAllocator.Allocator.MovePoolPage`).
- SlabMoverMeaning.MoverMeaning: the order of the LRU lists is not part of that state; `LruList` has it.
- SlabAllocator.Allocator.Alloc: growth of the page list by realloc, preallocated memory and page sizes other than `slab_page_size`; freelists are sequences here, their links are in `SlabMover`.
- SlabMoverBooks.MoveInRuns: one move of one page; what is given back is what was booked, which `SlabAllocator.Allocator.FreeItem` has for the sizes the program computes; pages do not go back to the system during the move.
- SlabAllocator.Allocator.AllocItem: needs the header of a large item to fit the largest chunk, which is what the allocator's own assertion asks.
- SlabAllocator.ClassSizes: needs a positive growth factor, by which sizes are multiplied without rounding; that the sizes ascend is stated for a factor of at least 1, or a list that ascends, and an aligned largest chunk.
- ExtstoreTheorems.ReadYourWrites: reads and writes of the file are whole and without error; versions do not wrap; a read asks for the length that was written.
- ExtstoreTheorems.FreedQuiet: delete and close name a version that a write returned, which is never 0.
- Extstore: the queues of the io threads, iovecs and the batching of ios; any order of landing is allowed instead.
- Compaction.CompactKeeps: other threads that change a header between two objects; each visit is one region under the item lock.
- Compaction.Compactor.Readback: the buffer is one that was flushed; on other bytes the loop would read past its end.
- Assoc.HashTable.Insert: hash functions are an arbitrary function of the key, without the cut to 32 bits; the key is fresh, as the source demands.
- ItemLocks.OneLockIsEnough: what threads do inside a chain; pausing is a step that needs all locks free.
- LruList.LruList.Crawl: which items are free and which ones the module unlinks is given from outside, and nobody else changes the list during the crawl; single steps are proved for any list.
- PullTailRun.Lrus.LruPullTail: tail repair (off by default), statistics and the slab reassignment after an eviction; the lists are sequences, and sizes_bytes is computed from them.
- Store.Cache.DoStoreItem: allocation is an outcome given from outside, which never evicts the key whose lock is held; refcounts, external storage and increments are left out.
- ChunkCopy.Destination.CopyChunks: the destination has all but its last chunk full, as allocation leaves it; a largest chunk no bigger than its header would make the loop run on.
- BipBuffer.Bipbuf.Push: sizes are not negative; `bipbuf_offer` and `bipbuf_peek` are not modelled.
- BumpQueue.ExactlyOnce: one buffer; the list of buffers only repeats it.
- Widths of counters, CAS ids, versions and sizes are unbounded; times wrap at 32 bits where they are subtracted in `PullTail` and `Store`.
- Networking, connections, statistics, logging, option parsing, the automover's heuristics and incr/decr.
