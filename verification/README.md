# Allocators, alarms, scheduling and monitors of a small kernel

Dafny models of five components of the kernel, each with the properties its code decides. An operation that
works in place is a method of a class over the same data (words of memory, pointers, queues, a bit mask), proved
against a specification on values; the theorems are about the specification, over all inputs and all runs.

| files | models |
|---|---|
| `Bits`, `GmaIndex`, `GmaBitmaps`, `Tiling`, `FreeLists`, `GmaHeap`, `GmaRequests` | size classes, bitmaps, heap, requests over all 32 bits and runs of the Grid Memory Allocator (TLSF), on values |
| `Words`, `GmaMemory`, `GmaTags`, `GmaGrid`, `GmaChunks`, `GmaSteps`, `GmaInit`, `GmaAllocSteps`, `Gma` | the allocator itself, on an array of 32-bit words: intrusive lists with tagged links, boundary tags, two-level bitmaps |
| `FirstFitHeap`, `FirstFitMemory`, `FirstFitSteps`, `FirstFit` | the first-fit allocator, on values and on words |
| `Sequences`, `SortedInsert`, `KList` | the doubly linked list of the kernel, and its sorted insertion |
| `Time`, `ClockModel`, `ArchTimer` | time_t arithmetic, and the timer that splits long delays |
| `AlarmModel`, `AlarmRuns`, `Alarms` | the alarm queue and its firing loop, on top of that timer, and runs of both |
| `Wrappers`, `ThreadModel`, `ThreadCalls`, `Threads` | threads, queues and the dispatcher with its ready mask, over runs and call by call |
| `EdfModel`, `EdfRuns`, `Edf` | choice and hand-over of earliest-deadline-first threads, on the dispatcher's queues, and runs of both |
| `MonitorModel`, `MonitorHistory`, `MonitorConditions`, `Monitors` | monitors with condition queues, on the dispatcher's queues, who is inside them and who waits on a condition |

The instance is the 32-bit one: 5 bits of second level, alignment 4, 64 priorities. Memory is an array of words,
word i at byte address 4·i; a pointer in memory is such a byte address, so its low bits can hold flags as they do
in the code. `Valid` of `Gma.MemoryPool` ties every word of the index, every link and every tag to the ghost heap
`h`; `Alloc` and `Free` state the new `h` by the functions that the theorems of `GmaHeap` are about.

## Where the code falls short of its intent

Each of these is kept as it is in the code, and the exact condition is proved.

- Rounding of huge requests wraps around in 32 bits, and a far too small chunk is handed out: `GmaHeap.RoundedSuffices`,
  `FirstFitHeap.RoundedSuffices`; examples in `GmaHeap.RoundingWraps` and `FirstFitHeap.RoundingWraps`.
- The search size of the grid allocator wraps too (`GmaIndex.SearchSoundIff`), and so does its test for splitting a
  chunk. A chunk that is too small is then handed out (`GmaRequests.ShortIff`, `GmaRequests.ShortExample`), or the code
  leaves its index or the chunk (`GmaRequests.UndefinedIff`, `GmaRequests.UndefinedExample`,
  `GmaRequests.StrayExample`). With both kinds of wrap,
  `GmaRequests.AllocGives` says when the client gets what it asked for. For the first-fit allocator, what is undefined is in
  `FirstFitHeap.UndefinedIff` and `FirstFitHeap.UndefinedExample`, the rest in `FirstFitHeap.AllocGives`.
- `gma_init` never clears FL_bitmap: `GmaBitmaps.StaleFirstLevel`; a stale bit sends the search to an empty row:
  `GmaBitmaps.StaleSearch`, `GmaBitmaps.StaleExample`.
- The room `gma_init` asks for (MIN_POOL_SIZE) counts one row of the grid only: `Gma.RoomIff`, `Gma.MinPoolSizeShort`.
- `gma_init` accepts minimal chunks that its index formulas cannot handle, below 32 bytes or not a multiple of 4:
  `GmaIndex.ShiftDefinedIff`, `GmaHeap.AlignedIff`; examples in `Gma.ShortMinimalChunk`, `Gma.UnalignedMinimalChunk`.
- `time_add` carries only above 10^9 nanoseconds, so 10^9 itself stays; values remain exact, but comparison then tells
  equal times apart: `Time.CanonicalSum`, `Time.CmpExact`, `Time.UncarriedSum`. The timer is therefore set exactly a
  threshold ahead in the case of `Alarms.FirstWaits`; `Alarms.ThresholdAhead` is an example.
- A programmed interval can be shorter than min_interval: `ClockModel.ShortIntervalIff`, `ClockModel.ShortIntervalLoaded`.
- A periodic alarm without a positive period that is due keeps the firing loop going for ever: `AlarmModel.InstantsPass`,
  `AlarmModel.ZeroPeriod`.
- The ready mask divides by the bytes of a word, not by its bits, so it uses 4 bits of each of 16 words. This works;
  the model does the same.
- An undo of a first-fit allocation restores the order of the free list only when its head is taken:
  `FirstFitHeap.UndoExactIff`, `FirstFitHeap.UndoExample`.
- An EDF thread whose deadline has passed when the alarm for its period goes off is taken out of its queue and lost,
  and so is one that the alarm for its deadline, being early, finds in time: `EdfRuns.PeriodIff`, `EdfRuns.OverdueIff`.
  One that finds in EDF_WAIT or EDF_EXIT that its deadline has passed, or sets new parameters, gives up its turn, and
  nobody gets it until the next k_edf_schedule: `EdfRuns.GiveUpIff`.
- A monitor locked again by its owner breaks: `MonitorModel.LockSafeIff`, `MonitorModel.LockTwice`.

## Model

| member | source | states |
|---|---|---|
| Bits.MsbIndex32 | lib/bits_generic.h:42-55 | The branch sequence returns the index of the most significant set bit of every non-zero 32-bit word. |
| Bits.MsbIndexGeneric | lib/bits_generic.h:75-91 | So does the halving loop, for every word of twice a power-of-two number of bits. |
| GmaIndex.SlotBracket | lib/mm/gma.h:20-29 | A chunk's list is the one whose documented size range [2^fl + sl·2^(fl-5), 2^fl + (sl+1)·2^(fl-5)) holds its size. |
| GmaIndex.SlotPartition | lib/mm/gma.h:27-40 | Both ways: a size belongs to list k if and only if it lies in the range of list k. |
| GmaIndex.SlotAtLeast | lib/mm/gma.h:27-40 | The map from sizes to lists is monotone: a size is in list k or a later one exactly when it reaches the least size of list k. |
| GmaIndex.BumpReaches | lib/mm/gma.c:180-184 | Rounding the search size up lands on a list whose least size is the request or more, also when the sum carries into the next power of two. |
| GmaIndex.SearchExact | lib/mm/gma.c:180-196 | The lists from the search index on, with the search size as the 32-bit addition leaves it, hold exactly the chunks that reach a threshold. |
| GmaIndex.ThresholdBounds | lib/mm/gma.h:335-342 | Unless the addition wraps, the threshold is the request itself below 256 bytes and at most 1/32 above it from there on. |
| GmaIndex.SearchSoundIff | lib/mm/gma.c:180-196 | Every chunk in the lists that are searched is large enough for the request if and only if the 32-bit addition does not wrap around. |
| GmaIndex.ShiftDefinedIff | lib/mm/gma.c:186-191 | The shift by fl - 5 is one to the right for every chunk size if and only if the minimal chunk has 32 bytes or more; gma_init accepts 16. |
| GmaBitmaps.SearchFound | lib/mm/gma.c:198-215 | With bitmaps that agree with the lists, the two-level bit search finds the first non-empty list from [fl][sl] on, and fails only if there is none. |
| GmaBitmaps.MarkedIndexed | lib/mm/gma.c:220-224 | Setting the two bits after an insertion restores the agreement of both bitmaps with the lists. |
| GmaBitmaps.UnmarkedIndexed | lib/mm/gma.c:226-231 | Clearing the second-level bit, and the first-level one when the row became empty, restores it after the last removal. |
| GmaBitmaps.IndexUnique | lib/mm/gma.h:57-62 | The bitmaps are determined by the lists: there is one right value for them. |
| GmaBitmaps.StaleFirstLevel | lib/mm/gma.c:58-77 | gma_init does not clear FL_bitmap; after it has marked the row of its only chunk, the two bitmaps agree with the lists if and only if no bit of another row was set before. |
| GmaBitmaps.StaleSearch | lib/mm/gma.c:198-215 | What any such bit does: a search that comes to it takes the first bit of a second-level word that is zero, or of one beyond the rows. |
| GmaBitmaps.StaleExample | lib/mm/gma.c:198-215 | Four rows, a chunk in the second, a stale bit for the fourth: a search from the third on, which should find nothing, is sent to the fourth and its empty word. |
| GmaHeap.RoundedSuffices | lib/mm/gma.c:99-102 | A chunk of the rounded size has room for the request exactly when the 32-bit rounding does not wrap around. |
| GmaHeap.RoundingWraps | lib/mm/gma.c:94-102 | A request that gma_alloc accepts and that rounds to the minimal chunk. |
| GmaHeap.AlignedIff | lib/mm/gma.c:99-102 | The rounded size of every accepted request is aligned if and only if the minimal chunk size is; gma_init accepts one that is not. |
| GmaHeap.ChosenIsLargeEnough | lib/mm/gma.c:104-108 | Unless the search size wraps around, every chunk in the list that a search returns is large enough, so taking its head without a size check is right. |
| GmaHeap.AllocTakes | lib/mm/gma.c:107-119 | An allocated chunk was free, reached the threshold of the search and is now in use, with the rounded size and less than a minimal chunk more, or whole if it was smaller than that; no other chunk in use changes. |
| GmaRequests.AllocFailsIff | lib/mm/gma.c:89-120 | For every request, wrapped sums included: gma_alloc returns NULL if and only if its search stays in the grid and no free chunk reaches the threshold. |
| GmaRequests.UndefinedIff | lib/mm/gma.c:89-120 | The code leaves its index, or splits a chunk beyond its end, if and only if the search size wraps to less than the first row holds, or the 32-bit split test wraps and some free chunk reaches the threshold of the search. |
| GmaRequests.ShortIff | lib/mm/gma.c:89-120 | gma_alloc hands out a chunk below the rounded size if and only if the search size wraps but stays in the grid, the split test does not wrap, and some free chunk lies between the wrapped threshold and the rounded size. |
| GmaRequests.AllocGives | lib/mm/gma.c:94-119 | The chunk returned has room for the request next to its header if and only if the rounding did not wrap around and the chunk is not such a short one. |
| GmaRequests.GoodFit | lib/mm/gma.c:180-215 | Good fit: no free chunk that reaches the threshold is in an earlier list than the chunk handed out. |
| GmaRequests.ThresholdIs | lib/mm/gma.c:173-193 | The threshold of a search over the whole 32-bit range: the rounded size or up to 1/32 more without a wrap, less than it with one, which takes a size of 2^31 or more. |
| GmaRequests.ShortExample | lib/mm/gma.c:89-120 | 4294967200 bytes are asked of a fresh pool of 128 MB, and its one chunk of 128 MB is handed out. |
| GmaRequests.UndefinedExample | lib/mm/gma.c:89-120 | With 4294967280 bytes the split test wraps as well. |
| GmaRequests.StrayExample | lib/mm/gma.c:173-196 | With 4227858432 bytes the search size wraps to 3, for which there is no row. |
| GmaHeap.AllocValid | lib/mm/gma.c:89-120 | Allocation keeps the heap invariant whenever it is defined: chunks tile the pool, no two neighbours are free, each free chunk is in exactly the list its size maps to. |
| GmaHeap.ReleaseValid | lib/mm/gma.c:126-160 | So does gma_free with its joining of neighbours on both sides. |
| GmaHeap.ReleaseKeeps | lib/mm/gma.c:126-160 | Freeing gives back exactly the chunk; every other chunk in use stays in place with its size. |
| GmaHeap.AllocThenRelease | lib/mm/gma.c:89-160 | gma_free right after gma_alloc restores the heap exactly: boundaries, flags and the order of every free list. |
| GmaHeap.RunValid | lib/mm/gma.c:89-160 | The heap invariant holds after every run of calls with a defined outcome of a client that frees only what it holds. |
| GmaHeap.RunKeepsLive | lib/mm/gma.c:89-160 | Over every run a chunk in use stays where it is with its size until it is freed. |
| GmaHeap.NothingLeaks | lib/mm/gma.c:126-160 | However a run got there, a heap with nothing in use is the initial heap again: one free chunk in one list. |
| GmaHeap.FreeingAll | lib/mm/gma.c:126-160 | Freeing every chunk in use, in any order, from any state the pool can be in, leads back to the initial heap. |
| GmaHeap.FirstRelease | lib/mm/gma.c:73-77 | Freeing the first chunk, as gma_init does, leaves that initial heap. |
| Tiling.ExactCover | lib/mm/gma.h:291-308 | Every word of the pool lies in one chunk and in one only, so chunks are disjoint. |
| Tiling.Conservation | lib/mm/gma.h:291-308 | Used and free words always add up to the pool. |
| Tiling.AllFreeIsOneBlock | lib/mm/ff_simple.c:110-144 | With nothing in use, coalescing has left one chunk that is the whole pool. |
| Tiling.ReleasedTiles | lib/mm/ff_simple.c:118-140 | Joining a chunk with free neighbours on both sides leaves a tiling. |
| FreeLists.RemoveInserted | lib/mm/gma.c:233-253 | Removing the chunk that was just inserted restores every list. |
| Gma.MemoryPool.constructor | lib/mm/gma.c:18-80 | gma_init on a segment with room leaves a pool in order whose heap is the fresh one: the bitmaps begin at the aligned start of the segment, behind the descriptor if that is new, the pool after 33 words for each row, and its right border ends with the segment; no word outside of the segment is touched. |
| Gma.RoomIff | lib/mm/gma.c:24-66 | Which segments and minimal chunk sizes the index formulas can handle, with room for the whole index, two borders and a minimal chunk: both directions, in the numbers a caller passes, a minimal chunk size of 0 included. |
| Gma.MinPoolSizeShort | lib/mm/gma.h:332 | MIN_POOL_SIZE, which gma_init asserts, is 172 bytes; a segment of 172 bytes needs 396 for its index alone. |
| Gma.ShortMinimalChunk | lib/mm/gma.c:41-54 | A minimal chunk of 16 bytes is accepted; a request of 1 byte is then looked up as 16 bytes, with fl = 4 and so a shift by -1. |
| Gma.UnalignedMinimalChunk | lib/mm/gma.c:41-54 | One of 33 bytes is accepted too; a request of 1 byte is then rounded to 33 bytes, which is not aligned. |
| GmaSteps.IndexAgrees | lib/mm/gma.c:220-264 | What `Valid` means for the index in memory: each free chunk is in exactly the list its size maps to, every member of a list is free, a second-level bit is set exactly when its list is not empty and a first-level bit exactly when a list of its row is not. |
| GmaSteps.HeapDetermines | lib/mm/gma.c:220-264 | Two memories in order for the same heap have the same bitmaps of both levels, list headers and links, and the same word in front of every chunk. |
| Gma.MemoryPool.Alloc | lib/mm/gma.c:89-120 | On the word array: the heap becomes that of the specification of gma_alloc. If the address is not NULL, the chunk that begins two words before it was not in use and is now, the words from the address to the chunk's end are the client's, and they hold the request unless its rounding or the search size wraps around. No word of a chunk in use, and none outside of the pool, is touched. |
| Gma.MemoryPool.Free | lib/mm/gma.c:126-160 | The same for gma_free: the heap becomes the released one, and no word of another chunk in use, and none outside of the pool, is touched. |
| Gma.AllocThenFree | lib/mm/gma.c:89-160 | gma_free right after gma_alloc, in memory: both bitmap levels, every list header, every link and every header of a chunk are as they were. |
| Gma.MemoryPool.GetIndexes | lib/mm/gma.c:173-218 | For insertion the indexes are those of the size's list; for search they are those of the chosen list, and it fails exactly when there is none. |
| Gma.MemoryPool.SearchBitmaps | lib/mm/gma.c:194-215 | The masked words in memory yield the first non-empty list from the given one on. |
| Gma.MemoryPool.SizeClass | lib/mm/gma.c:186-193 | The shift formulas compute the list of a size. |
| Gma.MemoryPool.InsertChunkInFreeList | lib/mm/gma.c:233-242 | The chunk is the first of the list its size maps to, bitmaps included; only index words and the tags around the chunk change. |
| Gma.MemoryPool.RemoveChunkFromFreeList | lib/mm/gma.c:244-253 | The chunk is out of its list, which it finds through its own links, bitmaps included; only index words change. |
| Gma.MemoryPool.RemoveFirstChunk | lib/mm/gma.c:255-264 | Takes the head of a non-empty list, bitmaps included. |
| GmaMemory.UnlinkChains | lib/mm/gma.h:413-439 | Unlinking one chunk leaves every list in memory a well-formed doubly linked list, the chunk's own without it. |
| GmaMemory.LinkChains | lib/mm/gma.h:387-405 | Linking a chunk in leaves every list well formed, its own with the chunk first. |
| GmaTags.NeighbourTags | lib/mm/gma.h:291-301 | Tags that agree with the blocks tell both neighbours: what the code reads as the chunk after and the free chunk before are those. |
| FirstFitHeap.RoundedSuffices | lib/mm/ff_simple.c:67-72 | A chunk of the rounded size has room for the request exactly when the 32-bit rounding does not wrap around; the requests that round to nothing are exactly three sizes. |
| FirstFitHeap.RoundingWraps | lib/mm/ff_simple.c:67-72 | A request that rounds to a header and a tail, and one that rounds to nothing. |
| FirstFitHeap.AllocFailsIff | lib/mm/ff_simple.c:61-79 | ffs_alloc returns NULL if and only if no free chunk reaches the rounded size. |
| FirstFitHeap.AllocTakes | lib/mm/ff_simple.c:61-102 | An allocated chunk is the end of a chunk that was free, with the rounded size and less than a header more; no other chunk in use changes. |
| FirstFitHeap.UndefinedIff | lib/mm/ff_simple.c:67-92 | A chunk is cut where no chunk, or no remainder, is if and only if the request rounds to nothing or its split test wraps around, and some free chunk reaches the rounded size. |
| FirstFitHeap.UndefinedExample | lib/mm/ff_simple.c:67-92 | A request of 4294967285 bytes rounds to nothing, and the first free chunk is cut at its very end. |
| FirstFitHeap.AllocGives | lib/mm/ff_simple.c:61-102 | The chunk handed out has room for the request between its header and tail if and only if the rounding did not wrap around. |
| FirstFitHeap.AllocValid | lib/mm/ff_simple.c:61-102 | Allocation, also from the end of a chunk that stays listed, keeps the invariant whenever it is defined: a tiling, no two free neighbours, a list of exactly the free chunks, once each. |
| FirstFitHeap.ReleaseValid | lib/mm/ff_simple.c:110-144 | So does ffs_free. |
| FirstFitHeap.ReleaseKeeps | lib/mm/ff_simple.c:110-144 | Freeing gives back exactly the chunk; every other chunk in use stays in place with its size. |
| FirstFitHeap.AllocThenRelease | lib/mm/ff_simple.c:61-144 | ffs_free right after ffs_alloc restores every block; of the list only the position of the chunk changes, which is now the head. |
| FirstFitHeap.UndoExactIff | lib/mm/ff_simple.c:61-144 | So the undo is exact, the order of the list included, if and only if the chunk at the head of the list reaches the rounded size. |
| FirstFitHeap.UndoExample | lib/mm/ff_simple.c:61-144 | Two free chunks, of 16 and of 40 bytes: after 32 bytes have been allocated and freed, their order in the list is the other one. |
| FirstFitHeap.RunValid | lib/mm/ff_simple.c:61-144 | The invariant holds after every run of calls with a defined outcome. |
| FirstFitHeap.RunKeepsLive | lib/mm/ff_simple.c:61-144 | Over every run a chunk in use stays where it is with its size until it is freed. |
| FirstFitHeap.NothingLeaks | lib/mm/ff_simple.c:110-144 | However a run got there, a pool with nothing in use is the one it began as. |
| FirstFitHeap.FreeingAll | lib/mm/ff_simple.c:110-144 | Freeing every chunk in use, in any order, from any state the pool can be in, leads back to the one free chunk the pool began with. |
| FirstFit.MemoryPool.Init | lib/mm/ff_simple.c:16-53 | Null exactly when there is no room for two headers; otherwise a pool in order with one free chunk between used borders. |
| FirstFit.MemoryPool.constructor | lib/mm/ff_simple.c:37-52 | The tags of both borders and of the chunk, and the list, agree with the fresh heap; no word outside of the segment is touched. |
| FirstFit.MemoryPool.Alloc | lib/mm/ff_simple.c:61-102 | On the word array: NULL exactly when no free chunk reaches the rounded size; otherwise the chunk whose header is the word before the address was not in use and is now, the words from the address up to its tail are the client's, and they hold the request unless its rounding wraps around. Tags and links agree again, no word of a chunk in use and none outside of the pool is touched. |
| FirstFit.MemoryPool.Search | lib/mm/ff_simple.c:74-76 | The loop stops at the first listed chunk of at least the size. |
| FirstFit.MemoryPool.Free | lib/mm/ff_simple.c:110-144 | The heap becomes the released one, tags and links agree with it, and no word of another chunk in use, and none outside of the pool, is touched. |
| FirstFit.AllocThenFree | lib/mm/ff_simple.c:61-144 | ffs_free of the address that ffs_alloc gave: every chunk is as it was, and no client's word is touched. |
| FirstFitMemory.UnlinkChain | lib/mm/ff_simple.c:151-160 | Unlinking leaves a well-formed list without the chunk. |
| FirstFitMemory.LinkChain | lib/mm/ff_simple.c:167-176 | Linking leaves a well-formed list with the chunk first. |
| FirstFitMemory.NeighbourTags | lib/mm/ff_simple.h:57-64 | Tags that agree with the blocks tell both neighbours: the tail before a chunk leads to the chunk before it, its own size to the one after. |
| SortedInsert.ShortcutIsScan | lib/list.c:58-80 | On a list sorted by a total preorder the tail shortcut of list_sort_add picks the same position as a scan from the head. |
| SortedInsert.SortAddSorted | lib/list.c:58-103 | The result is sorted and stable: the new element is after everything not greater and before the rest, which keep their order; nothing is lost. |
| SortedInsert.RemoveSorted | lib/list.c:141-173 | Removing any element keeps a list sorted. |
| KList.List.Append | lib/list.c:20-37 | The object is last, and first, last, prev and next agree. |
| KList.List.Prepend | lib/list.c:40-55 | The object is first, and first, last, prev and next agree. |
| KList.List.SortAddHook | lib/list.c:58-103 | The pointer code inserts at the position of the sequence specification, all links in agreement. |
| KList.List.Get | lib/list.c:106-121 | The first or the last object, nothing for an empty list. |
| KList.List.GetNext | lib/list.c:124-130 | The next object, nothing at the end. |
| KList.List.Remove | lib/list.c:141-173 | Removes exactly the referenced hook, or the one at the asked end, and returns its object; the rest keeps its order and its links. |
| KList.List.FindAndRemove | lib/list.c:183-214 | The same if the hook is in the list; otherwise nothing is returned and nothing changes. |
| Time.Exact | lib/types.h:153-182 | time_add and time_sub are exact on values and keep 0 <= nsec <= 10^9. |
| Time.CanonicalSum | lib/types.h:158-162 | The carry test is strict: canonical times have a canonical sum exactly when their nanoseconds do not add up to one second. |
| Time.UncarriedSum | lib/types.h:153-208 | Half a second twice: a time that is equal to one second but compares as less. |
| Time.CmpExact | lib/types.h:190-208 | time_cmp agrees with the values, except that it tells an uncarried time from its carried form; it does so for no other pair. |
| Time.CmpOrder | lib/types.h:190-208 | time_cmp is a total order. |
| ClockModel.ClockConserved | arch/i386/arch/time.c:52-119 | Over every interleaving of arch_timer_set, interrupts and elapsing time, the time read is the hardware time since arch_timer_init. |
| ClockModel.PendingCallback | arch/i386/arch/time.c:93-118 | A pending callback is called at most once, between its delay less the threshold and its delay; until then it stays pending. |
| ClockModel.DelayKept | arch/i386/arch/time.c:52-118 | For any delay d and D = max(d, min_interval): the callback is called at most once, after E with D - threshold <= E <= D, and has been called once more than D has passed. |
| ClockModel.InterruptShrinks | arch/i386/arch/time.c:99-117 | An interrupt before the end leaves the time still ahead as it is, with a strictly smaller delay above the threshold. |
| ClockModel.SilentWithoutHandler | arch/i386/arch/time.c:107-111 | Once called, nothing is called until the next arch_timer_set. |
| ClockModel.ShortIntervalIff | arch/i386/arch/time.c:52-117 | After arch_timer_set for a delay d, with D = max(d, min_interval): some run loads an interval below min_interval before the callback if and only if threshold < D mod max_interval < min_interval. |
| ClockModel.InitValid | arch/i386/arch/time.c:27-45 | The state arch_timer_init leaves, at clock 0, is one the run theorems start from. |
| ClockModel.ShortIntervalLoaded | arch/i386/arch/time.c:112-117 | A delay for which such an interval is loaded. |
| ArchTimer.Timer.constructor | arch/i386/arch/time.c:27-45 | Clock 0, the longest interval loaded and nothing passed of it, no callback; the threshold is half the least interval. |
| ArchTimer.Timer.Set | arch/i386/arch/time.c:52-72 | The time_t fields move as the step on nanoseconds does: time passed goes to the clock, the delay is raised to the least interval, the load cut to the longest. |
| ArchTimer.Timer.GetTime | arch/i386/arch/time.c:78-87 | The value read is clock plus the time since the interval was loaded. |
| ArchTimer.Timer.Handler | arch/i386/arch/time.c:93-119 | The fields move as the interrupt step does, and the same callback, if any, is called. |
| ArchTimer.HalfValue | arch/i386/arch/time.c:39-42 | Halving seconds and nanoseconds apart halves the time. |
| AlarmModel.EveryInstantOnce | kernel/time.c:60-76 | A periodic alarm goes off at exactly those of e, e + p, e + 2p, ... that now + threshold has reached, once each, and is left waiting for the next. |
| AlarmModel.OneShot | kernel/time.c:64-76 | A one-shot alarm goes off once, when due, and is then inactive. |
| AlarmModel.InstantsPass | kernel/time.c:57-115 | The instants of an alarm leave a time behind if and only if the period is positive or the first one already has; with any other period the loop would not end. |
| AlarmModel.ZeroPeriod | kernel/time.c:57-115 | The alarm for second 1 with period zero stays due however often it is fired. |
| AlarmModel.LooksCompose | kernel/time.c:46-115 | It makes no difference how often and when the loop looks: for any two times, what goes off up to one and then up to the other is what goes off up to the later of them, in the order of time_cmp, at once. |
| AlarmModel.DueBetween | kernel/time.c:60-76 | An alarm goes off at no instant before its expiry or after now + threshold. |
| AlarmModel.FireKeeps | kernel/time.c:62-76 | A turn of the loop keeps the queue sorted by alarm_cmp and holding an alarm once exactly when its active flag is set. |
| AlarmModel.FireProgress | kernel/time.c:62-76 | A turn moves one instant of one alarm from those due to those fired and leaves every other alarm's instants alone; firing times do not decrease. |
| AlarmModel.FireShrinks | kernel/time.c:57-115 | The due instants that remain get fewer with each turn, so the loop ends. |
| Alarms.AlarmClock.constructor | kernel/time.c:23-36 | No alarms, clock 0, threshold half the least interval. |
| Alarms.AlarmClock.FireDue | kernel/time.c:57-115 | The loop fires every alarm at its due instants, once each, in order of time over all alarms, and leaves nothing due and the queue consistent. |
| Alarms.AlarmClock.ScheduleAlarms | kernel/time.c:46-126 | Moreover, if an alarm is left, the timer is set to the earliest expiry less now, which is at least the threshold; if none is, the timer is untouched. |
| Alarms.AlarmClock.New | kernel/time.c:171-196 | A new alarm whose expiry is set goes off at its instants up to now + threshold, once each, and waits for the next; one whose expiry is not set is recorded and does not go off. Every other alarm goes off at its own due instants. |
| Alarms.AlarmClock.AddAlarm | kernel/time.c:132-145 | The common part: the active flag and the queue agree, everything due is fired, the timer is set. |
| Alarms.AlarmClock.Set | kernel/time.c:203-229 | With an unchanged expiry only flags and period change; otherwise the alarm goes off and waits as a new one does. |
| Alarms.AlarmClock.Remove | kernel/time.c:236-266 | The alarm is gone from queue and records and does not go off; everything else due is fired and the timer set to what is left. |
| Alarms.AlarmClock.Interrupt | kernel/time.c:39-43 | A timer interrupt fires what is due when the delay is over and changes no alarm before; either way the timer stays set for the first alarm. Like every method here, it is a step of the runs of `AlarmRuns`. |
| Alarms.FirstWaits | kernel/time.c:60-123 | The alarm the timer is set for is after now + threshold in the order of time_cmp; it is later by value, and the delay above the threshold, if and only if it is not that very instant in its carried form. |
| Alarms.ThresholdAhead | kernel/time.c:60-123 | That case arises: at half a second, with a threshold of half a second, the alarm for second 1 is not due and the delay is exactly the threshold. |
| AlarmRuns.NeverOverdue | kernel/time.c:117-123 | Over alarms and timer together, no alarm in the queue is ever overdue by more than min_interval less the threshold. |
| AlarmRuns.OnTime | kernel/time.c:39-126 | Over every step of time passing, interrupts and k_alarm_new, set and remove of other alarms: an alarm that goes off does so no earlier than the threshold before its instant and no later than min_interval less the threshold after it. |
| AlarmRuns.EachInstantOnce | kernel/time.c:39-126 | Over every run that does not touch an alarm, it goes off at exactly the instants due at the latest look, once each and in order, and is left waiting for the next. |
| AlarmRuns.NoInstantMissed | kernel/time.c:39-126 | After every such run, the k-th instant of a periodic alarm has been the k-th to go off once it lies more than min_interval less the threshold back. |
| AlarmRuns.OneShotOnce | kernel/time.c:39-126 | A one-shot alarm goes off at most once in a run, and has once its expiry lies that far back. |
| AlarmRuns.SetOnce | kernel/time.c:132-229 | From k_alarm_new, or k_alarm_set with another expiry, on: over every run that leaves the alarm alone it goes off at exactly its instants due at the latest look, once each and in order, if its expiry is set, and never if it is not. |
| AlarmRuns.SetInTime | kernel/time.c:132-229 | Each of these is no earlier than the threshold before its instant and no later than min_interval less the threshold after it, unless that was over when the alarm was set; then it goes off at once. |
| AlarmRuns.SetNoneMissed | kernel/time.c:132-229 | Each instant that lies more than min_interval less the threshold back has gone off, at its place among the others. |
| ThreadModel.ScheduleDispatches | kernel/thread.c:253-296 | After kthreads_schedule a thread runs whose priority is at least that of every ready thread, and every thread is in exactly its place. |
| ThreadCalls.ScheduleChooses | kernel/thread.c:253-290 | The running thread goes on exactly while no ready thread has a higher priority; otherwise the first of the highest level runs, the preempted one being the last of its own, and every level is what that leaves. |
| ThreadCalls.WaitersStay | kernel/thread.c:253-290 | No thread that waits is moved, and no queue of waiting threads changes. |
| ThreadModel.RunSafe | kernel/thread.c:253-446 | Over every run of blocking, waking, changing priority and creating threads: every ready or waiting thread is in exactly the queue it names, once, ready ones in that of their priority, no other thread is queued, and the running one is not outranked. |
| ThreadModel.FirstInFirstOut | kernel/thread.c:253-296 | Over every run that gives none of the threads of a level a new priority, changes of priority of others included: once n of them have been served, those left are at the front of the level in their order, so the thread at position i is served as number i + 1. |
| ThreadModel.LevelKeepsOrder | kernel/thread.c:253-446 | Over every run whatever, the threads that were in a level are at its front in their order, except those that were served when first and those given a new priority: nobody passes them. |
| ThreadModel.ReleaseAllInOrder | kernel/thread.c:346-354 | kthreadq_release_all empties the queue; its threads are at the ends of the queues of their priorities, in their order. |
| ThreadModel.SetPrioSafe | kernel/thread.c:891-931 | A change of priority leaves every thread in its place and the highest one running, whatever state the thread is in. |
| ThreadCalls.SetPrioGives | kernel/thread.c:891-931 | After kthread_set_prio the thread has the priority asked for, in each of its four states, and every other thread has its own. |
| ThreadCalls.SetPrioPlace | kernel/thread.c:891-931 | A thread that could run and is not running afterwards is ready and the last of its new level. |
| ThreadCalls.CreateGives | kernel/thread.c:213-230 | A new thread has the priority asked for, or the nearest of 0 to 63, and is the last of its level; no other thread changes. |
| ThreadCalls.BlockJoins | kernel/thread.c:305-316 | A thread that blocks waits at the end of the queue it was told to; no other queue of waiting threads changes. |
| ThreadModel.ReleaseAppends | kernel/thread.c:323-339 | The first thread of a queue that is released joins the end of the level of its priority, and no other level changes. |
| ThreadModel.BootSafe | kernel/thread.c:33-55 | kthreads_init leaves the idle thread running and everything in its place. |
| Threads.WordShows | kernel/thread.c:377-389 | A mask word that is zero stands for empty queues only; one that is not has its highest queue at its highest bit. |
| Threads.Scheduler.constructor | kernel/thread.c:363-374 | Empty queues and a mask that says so. |
| Threads.Scheduler.Highest | kernel/thread.c:377-389 | The search through the mask words returns the highest priority with a ready thread, -1 when there is none. |
| Threads.Scheduler.MoveToReady | kernel/thread.c:417-428 | The thread is ready, at the asked end of the queue of its priority, and the mask still shows exactly the non-empty queues. |
| Threads.Scheduler.RemoveFromReady | kernel/thread.c:431-446 | The thread is out of the queue of its priority, if it was there, which the result tells; the mask is right. |
| Threads.Scheduler.Enqueue | kernel/thread.c:305-316 | The thread waits at the end of the queue. |
| Threads.Scheduler.ReleaseOne | kernel/thread.c:323-339 | The first of the queue is at the end of the ready queue of its priority; the result tells whether there was one. |
| Threads.Scheduler.ReleaseAll | kernel/thread.c:346-354 | The queue is released thread by thread; the result counts them. |
| Threads.Scheduler.Schedule | kernel/thread.c:253-296 | With the mask, the effect is that of the dispatcher on values: the running thread is not outranked, all are in their places. |
| Threads.Scheduler.SetPrio | kernel/thread.c:891-931 | In each state of the thread the effect is that on values, mask included: the thread has the priority asked for, no other priority changes; the result is the old one. |
| Threads.Scheduler.Create | kernel/thread.c:213-230 | The thread has the priority asked for, clamped to 0 to 63, and is ready. |
| EdfModel.ChoiceIsEarliest | kernel/sched_edf.c:266-297 | The chosen thread has the earliest deadline of the active EDF thread and all that are ready; a tie goes to the active one, then to queue order. |
| EdfModel.HandOver | kernel/sched_edf.c:299-335 | The choice leaves the EDF queue for the end of its priority level, the preempted thread, if it can run, leaves its level for the end of the EDF queue and is deactivated if it was running; all other members of every queue keep their order, and every thread is in exactly one place. |
| EdfModel.BlockedStays | kernel/sched_edf.c:309-330 | A thread that is blocked stays exactly as it was. |
| EdfModel.SecondCallChangesNothing | kernel/sched_edf.c:250-338 | Calling k_edf_schedule again changes nothing. |
| EdfModel.ChangedRuns | kernel/sched_edf.c:334-337 | After a change there is a thread to dispatch. |
| EdfRuns.EnteredIsStep | kernel/thread.c:253-354 | The calls that the runs below take from the dispatcher are its steps, when no hook changes anything. |
| EdfRuns.DispatchGood | kernel/thread.c:262-290 | kthreads_schedule with its deactivation hook leaves every thread in its place, the highest one running and the EDF threads settled, if they are settled or the hook is called for an EDF thread. |
| EdfRuns.RunGood | kernel/sched_edf.c:125-402 | Over every run of EDF_SET, EDF_WAIT and EDF_EXIT by the active thread, of the alarms for period and deadline, and of all calls that do not concern EDF: all that is kept, k_edf_schedule has nothing to change between calls, and no thread that waits for its period has the turn. |
| EdfRuns.EarliestFirst | kernel/sched_edf.c:250-338 | Earliest deadline first: at every point of such a run the EDF thread let run has the earliest deadline of all that are ready, and when none is let run none is ready. |
| EdfRuns.StartGood | kernel/sched_edf.c:43-52 | A kernel with its dispatcher in order and no thread in an EDF queue is where the runs start. |
| EdfRuns.GiveUpIff | kernel/sched_edf.c:133-165 | A thread that gives up its turn without the call going on to k_edf_schedule, as when its deadline has passed, leaves the EDF threads settled if and only if it was not its turn or nobody waits for one. |
| EdfRuns.PeriodIff | kernel/sched_edf.c:341-367 | The alarm for a period keeps a waiting thread in order if and only if its deadline has not passed: otherwise the thread is taken out of its queue and put in no other. |
| EdfRuns.OverdueIff | kernel/sched_edf.c:372-434 | The alarm for a deadline does so if and only if the deadline has passed: a thread it finds waiting in time, the alarm being early by up to the threshold, is lost in the same way. |
| EdfRuns.AdoptEffect | kernel/sched_edf.c:133-161 | EDF_SET stores the deadline of the caller and of no other thread, and the caller gives up its turn. |
| EdfRuns.WaitEffect | kernel/sched_edf.c:133-208 | EDF_WAIT: the caller waits for its next period, last in that queue, or, when the period has come, joins the EDF threads that are ready and may get the turn at once; its deadline changes only when its time has passed. |
| EdfRuns.PeriodEffect | kernel/sched_edf.c:341-361 | The alarm for its period makes a waiting thread ready among the EDF threads, or gives it the turn at once. |
| EdfRuns.LeaveEffect | kernel/sched_edf.c:210-240 | EDF_EXIT leaves the caller without a deadline; every EDF thread that was ready still is, or has the turn. |
| Edf.EdfScheduler.Choose | kernel/sched_edf.c:266-297 | The loop over the queue computes that choice. |
| Edf.EdfScheduler.Schedule | kernel/sched_edf.c:250-338 | On the dispatcher's queues the effect is that on values, the flag of the preempted thread included, and so is the result. |
| MonitorModel.RunGood | kernel/monitor.c:102-256 | Over every run of lock, unlock, wait, signal, broadcast and other kernel calls without recursive locking: lock is set exactly when there is an owner, a free monitor has nobody at its entrance, the owner waits neither at its entrance nor on a condition for it, and each blocked thread is in exactly one queue. |
| MonitorModel.StartGood | kernel/monitor.c:24-31 | With new monitors and no thread blocked, everything is in that order: where the runs start. |
| MonitorHistory.CallHands | kernel/monitor.c:102-256 | For every permitted call but a lock that does not block: a thread whose blocked lock or wait returns owns the monitor, and a new owner is such a thread. |
| MonitorHistory.StepInside | kernel/monitor.c:102-256 | If exactly the owner was inside a monitor before a call, exactly the owner is inside after it. |
| MonitorHistory.OnlyOwnerInside | kernel/monitor.c:102-256 | Over every run: the threads whose lock or wait has returned and that have not called unlock or wait since are exactly the owner, or none when there is none. |
| MonitorHistory.MutualExclusion | kernel/monitor.c:102-256 | So, starting from a monitor nobody owns, there is never more than one thread inside it, and that one owns it. |
| MonitorModel.LockSafeIff | kernel/monitor.c:116-124 | Locking keeps all that if and only if the caller is not the owner already. |
| MonitorModel.LockTwice | kernel/monitor.c:116-124 | Locking a free monitor twice in a row always breaks it. |
| MonitorModel.NoOvertaking | kernel/monitor.c:116-190 | Over every run, after n releases of a monitor the first n at its entrance have left it in order and nobody else, and the n-th owns it: whoever is at position i owns it after exactly i + 1 releases. |
| MonitorModel.BroadcastLine | kernel/monitor.c:225-248 | Broadcast ends with the condition queue empty and every waiter, in order, at the end of the line of its own monitor: the first of a free one owns it, the others are at the entrance. |
| MonitorModel.SignalLine | kernel/monitor.c:225-248 | Signal does the same for the first waiter only. |
| MonitorConditions.CallWaits | kernel/monitor.c:157-256 | Of every condition queue, each call leaves exactly this: the owner's wait adds the caller at the end of the condition it names, a signal takes the first of its condition, a broadcast takes all, everything else leaves the queue alone. |
| MonitorConditions.FirstComeFirstServed | kernel/monitor.c:157-248 | Over every run without a broadcast on a condition, n signals take its first n waiters in order, so whoever is at position i has left after exactly i + 1 signals; those that came since are behind the rest, in order. |
| MonitorConditions.AfterBroadcast | kernel/monitor.c:225-256 | After a broadcast, those on the condition are the ones that have come since. |
| MonitorConditions.WaitEffect | kernel/monitor.c:157-192 | Wait is refused exactly for callers that do not own the monitor and then changes nothing; otherwise the caller is the last on the condition, blocked, with the monitor noted that it comes back to. |
| MonitorConditions.LockEffect | kernel/monitor.c:102-127 | A free monitor becomes the caller's; at a locked one the caller waits as the last at its entrance, and no monitor changes. |
| MonitorModel.MoveAllOk | kernel/monitor.c:225-248 | The broadcast loop ends and keeps every monitor in order. |
| Monitors.MonitorSystem.Lock | kernel/monitor.c:102-127 | The effect is that on values; the system is in order afterwards if and only if the caller was not the owner. |
| Monitors.MonitorSystem.Unlock | kernel/monitor.c:130-154 | The result is true exactly for the owner, and nothing changes otherwise; the first at the entrance owns the monitor, or it is free. |
| Monitors.MonitorSystem.Wait | kernel/monitor.c:157-192 | The result is true exactly for the owner, and nothing changes otherwise; the caller is the last on the condition it names, with the monitor noted, and the monitor is passed on. |
| Monitors.MonitorSystem.ReleaseWaiters | kernel/monitor.c:210-256 | The loop moves the first waiter, or all of them, and dispatches if one became an owner. |

## Left out

- Gma.MemoryPool.constructor: asks for FL_bitmap initially clear (a new object), a minimal chunk size of at least 32 and a multiple of 4, and a segment with room for the whole index, two borders and one minimal chunk; `GmaBitmaps.StaleFirstLevel`, `GmaIndex.ShiftDefinedIff`, `GmaHeap.AlignedIff` and `Gma.RoomIff` say what happens without.
- Gma.MemoryPool.Alloc: excludes the calls with an undefined outcome, those of `GmaRequests.UndefinedIff`, in which the code writes outside of its index or of the chunk; every other accepted request is included, whatever wraps.
- Gma.MemoryPool.GetIndexes: excludes the searches that leave the grid, in which the code reads outside of its index.
- Gma.MemoryPool.Free: asks for a chunk in use, as the assertions of gma_free do; the return value, always 0, is not modelled, nor is the default pool used for a null descriptor.
- FirstFit.MemoryPool.Alloc: excludes the calls with an undefined outcome, those of `FirstFitHeap.UndefinedIff`.
- FirstFitHeap.UndefinedIff: is about pools of less than 2^32 bytes.
- FirstFit.MemoryPool.Free: asks for a chunk in use; ffs_free does not check it.
- Time.Exact: time_t values are passed and returned, not updated through pointers; seconds and nanoseconds are unbounded integers.
- ArchTimer.Timer.Handler: interrupts come at the very end of the loaded interval; interrupt latency and the rounding of intervals to device counts are not modelled.
- Alarms.AlarmClock.ScheduleAlarms: an action is an entry in the result, not a call or a new thread; threads waiting for an alarm and the rescheduling they cause are not modelled. Actions that set alarms themselves are not modelled.
- Alarms.AlarmClock.New: alarms are sound, with nanoseconds in range and a positive period if periodic, as the code assumes of its callers.
- ThreadModel.RunSafe: threads of the FIFO policy, whose activation hooks do nothing; the idle thread never blocks.
- EdfRuns.RunGood: EDF parameters are set by the thread itself; deadlines, and whether they and the time of the next run have passed, are inputs of the events; no deadline is found missed by a thread that has the turn while others wait for one, nor by the alarm for a period, nor is one found in time by the alarm for it (`EdfRuns.GiveUpIff`, `EdfRuns.PeriodIff`, `EdfRuns.OverdueIff`).
- MonitorModel.RunGood: the monitors exist from the start; creating and destroying monitors and condition queues is not modelled.
- The array of words is the only client of the allocators' memory; kmalloc and its callers are not modelled.
- Cancelling and joining threads, whose reference counting does not reach the passive state for ready and waiting threads.
- Round Robin, which together with a change of priority can queue a thread twice, and what the flags for missed deadlines (EDF_TERMINATE, EDF_SKIP) do.
- Semaphores, messages, unique ids, device locks, user threads, buffers and strings.
- System call arguments, address translation, errno, logging, context switching, interrupt vectors and boot code: input and output or machine state.
