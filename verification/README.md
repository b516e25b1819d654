# A verified model of the PHP 8.3 engine's allocator and its neighbours

The project models parts of the PHP 8.3.13 engine in Dafny and proves what they are for:

* **The Zend memory manager** (`zend_alloc.c`). Small slots in runs, runs of pages in 2 MB chunks, huge blocks on a
  list; the ring and the cache of chunks; reallocation, garbage collection, memory limit and shutdown. `Heap` is an
  object with the fields of the source. Its value `State()` (chunks, ring, cache, free lists, memory, and as ghost
  state the blocks handed out) and its ledger `Books()` carry the invariants: `Sound` says that page maps, free lists
  and links describe separate blocks and nothing else, `Balanced` that the counters add up to the mapped memory, and
  `Occupied` that no chunk of the ring but the main one is empty. The methods are proved as steps on these values, the
  lemmas prove that every step keeps the invariants, and `Session.Run` puts them together: whatever a program does, it
  sees an ideal store of separate blocks that keep their contents.
* **The page search at word level** (`ChunkPages`, `Bitset`, `Words`). The scan over 64-bit words computes the same
  choice as the search page by page, which is shown to be best fit. `MachineWords` proves that the bit-by-bit words of
  the model are `bv64` values.
* **Thread-safe resources** (`TSRM.c`): the hash table of per-thread entries, the thread-local pointers, a record of
  every construction and destruction, and whole runs (`TsrmRuns`).
* **Arenas** (`zend_arena.h`): both compiled variants, as one stack of blocks with checkpoints.
* **Modules and argument specifications** (`zend_API.c`): the swapping sort, the startup sweep, and the interpreter of
  specifications such as `"z|l!"` and `"s*h"`.
* **Guarded printing** (`zend.c`) of graphs that may be cyclic, nested and flat.
* **Heapsort** (`bench.php`).

In the heap, `Words`, `TrailingOnes`, `Bitset`, `BestFit`, `Bins`, `PageCodec`, `Chunks`, `ChunkTails`, `ChunkPages` and
`Blocks` describe one chunk, `AlignedMap` how its memory is obtained; `HeapInv`, `HeapMem`, `HeapSteps`, `HeapState`,
`HeapChunks` and `HeapBooks` the invariants and their steps; `GcCounts` to `GcRun` and `Sweep` the collection;
`HeapObject`, `PageAlloc`, `SmallAlloc`, `LargeAlloc`, `HugeBlocks`, `HeapApi`, `Realloc` and `HeapLimits` the
operations; `Session` whole runs. `VaSpecs`, `VaPlans`, `VaParses` and `VaText` say what a specification admits and how its text is
read, `VaArgs` interprets it. `Numerals` and `PrintKeys` say what printed numbers and keys denote,
`PrintSamples` shows the formats.

A predicate called `..Behind` evaluates another one after a number of trivial steps. It keeps the definition closed
where only its name is needed; the lemma `..Is` opens it.

Check it with `dafny verify dfyconfig.toml`.

## Where the code and its description differ

* `free_tail` is described as the number of free pages at the end of a chunk (`zend_alloc.c:211`). It is a page number,
  and pages from it on may be allocated: exactly after growth in place beyond it (`GrowIff`, `GrowPastTail`). Whether
  they are all free can be told from the page at it (`TailFreeIff`), and every other operation keeps that. What always
  holds, and is enough for the search, is that no run starts at or past it.
* The free counter of a run has nine bits, so the 512 free blocks of a bin-0 run read as 0 (`CounterWrap`) and such runs
  are never collected (`SpentMeans`).
* `zend_mm_gc` deletes the main chunk like any other when no run is left in it. `Gc` states exactly when that happens;
  `EmptyMainIdle` is an instance.
* `zend_set_memory_limit` returns without storing the new limit when it had to trim the cache (`SetMemoryLimit`).
* A failed `ts_allocate_fast_id` has counted the id already (`AllocateFastId`).
* `tsrm_reserve` called a second time starts again behind the header, and entries keep their length. `ReserveIff` says
  exactly when that is in order; otherwise fast resources overlap (`NextFastIff`, `ReservedTwice`) or lie past the end
  of existing entries (`ReservedLongerIff`).
* An entry made for another thread's id is put into the calling thread's pointer (`TableInsert`).
* `zend_mm_realloc_huge` does not check that rounding the size up overflows, as `zend_mm_alloc_huge` does. `RoundedIff`
  says exactly for which sizes it does; then the block is truncated to nothing (`wiped`) or the request fails.
* `zend_mm_chunk_alloc_int` does not test whether its second mapping was refused; `ChunkAllocInt` says exactly when that
  is harmless, and the heap takes it to be.
* The memory limit bounds `real_size` over every run that asks for no huge block (`Session.Run`). A huge block can exceed
  it, because its list node is allocated between the check and the accounting, but by no more than one chunk
  (`AllocHeap`); the difference to the limit then wraps around (`RoomFor`).
* The flat printer prints a negative key as the number 2^64 above it, where `print_r` prints the key itself
  (`FlatKeyTells`, `MinusOne`).
* The module sort does not end when modules want each other in a circle (`SortEndsIff`, `TwoCycle`).

## Model

| member | source | states |
|---|---|---|
| Words.ClearTrailingOnes | php-8.3.13/Zend/zend_alloc.c:961-962 | `tmp & (tmp + 1)` clears the trailing ones of a word and no other bit |
| Words.SetTrailingZeros | php-8.3.13/Zend/zend_alloc.c:994-995 | `tmp OR (tmp - 1)` sets the trailing zeros of a word and no other bit |
| Words.TrailingOnes | php-8.3.13/Zend/zend_alloc.c:548-563 | the count behind the built-in: all bits below are set, the bit at it is clear unless it is 64 |
| TrailingOnesSearch.Search | php-8.3.13/Zend/zend_alloc.c:564-584 | the portable branch, halving the word by masks and shifts, counts the same |
| MachineWords.OrIsMachine | php-8.3.13/Zend/zend_alloc.c:618-630 | `OR` of 64-bit words is the bit-by-bit one |
| MachineWords.AndIsMachine | php-8.3.13/Zend/zend_alloc.c:650-690 | `&` of 64-bit words is the bit-by-bit one |
| MachineWords.NotIsMachine | php-8.3.13/Zend/zend_alloc.c:646-662 | `~` of a 64-bit word is the bit-by-bit one |
| MachineWords.LeftShiftIsMachine | php-8.3.13/Zend/zend_alloc.c:591-614 | the bit-by-bit masks of the model are the 64-bit shifts of the code, bit by bit |
| MachineWords.RightShiftIsMachine | php-8.3.13/Zend/zend_alloc.c:620-629 | `-1 >> (63 - e)` has exactly the bits 0 to e |
| MachineWords.CarryIsMachine | php-8.3.13/Zend/zend_alloc.c:962-996 | adding or subtracting 1 in 64-bit arithmetic is the bit-by-bit carry of the model |
| MachineWords.ComparisonsAreMachine | php-8.3.13/Zend/zend_alloc.c:945-993 | comparing a machine word with 0 and with all ones is the comparison of the model |
| Bitset.SetRange | php-8.3.13/Zend/zend_alloc.c:601-631 | exactly the bits start to start+len become set, all others are framed; one bit, one word, many words |
| Bitset.ResetRange | php-8.3.13/Zend/zend_alloc.c:633-663 | exactly the bits start to start+len become clear, all others are framed |
| Bitset.IsFreeRange | php-8.3.13/Zend/zend_alloc.c:665-698 | true if and only if every bit of the range is clear |
| BestFit.SearchIsBestFit | php-8.3.13/Zend/zend_alloc.c:936-997 | the search returns the leftmost of the shortest maximal free runs of at least n pages, and 0 exactly when there is none |
| BestFit.ChooseIsTightest | php-8.3.13/Zend/zend_alloc.c:936-997 | the same from any run boundary on, given the best run so far: the loop invariant of the search |
| BestFit.FreeRunsApart | php-8.3.13/Zend/zend_alloc.c:936-997 | two maximal free runs are the same or separated by an allocated page |
| ChunkPageTable.ChunkPages.Scan | php-8.3.13/Zend/zend_alloc.c:936-997 | the word-by-word scan (full words, empty words, bit tricks) computes what the page-by-page search chooses, using of free_tail only that allocated pages past it form one run across it |
| ChunkPageTable.ChunkPages.NextRun | php-8.3.13/Zend/zend_alloc.c:945-996 | from any position the scan finds exactly the next maximal free run and its end |
| ChunkPageTable.ChunkPages.FindPages | php-8.3.13/Zend/zend_alloc.c:885-999 | in a well-formed chunk the whole search, with its quick rejections, is the page-level search and only free_tail may change |
| ChunkPageTable.ChunkPages.TakePages | php-8.3.13/Zend/zend_alloc.c:1074-1081 | bitset words, page map, free_pages and free_tail change as one large run appears |
| ChunkPageTable.ChunkPages.PutPages | php-8.3.13/Zend/zend_alloc.c:1150-1158 | the words and the map give the run back; free_tail is lowered when the run ended there |
| ChunkPageTable.ChunkPages.TryGrow | php-8.3.13/Zend/zend_alloc.c:1683-1710 | growth in place succeeds if and only if the pages behind the run are in the chunk and free; otherwise nothing changes |
| ChunkPageTable.ChunkPages.Truncate | php-8.3.13/Zend/zend_alloc.c:1663-1682 | truncation in place frees exactly the tail pages |
| ChunkPageTable.ChunkPages.Initialize | php-8.3.13/Zend/zend_alloc.c:840-855 | rewriting word 0 and map entry 0 alone yields an empty chunk only because the other words are clear already |
| ChunkPageTable.ChunkPages.MarkSmall | php-8.3.13/Zend/zend_alloc.c:1262-1270 | the first map entry names the bin, the others say how far back it is |
| Chunks.FindIsBestFit | php-8.3.13/Zend/zend_alloc.c:881-999 | in every reachable chunk the search is sound, complete and optimal |
| Chunks.FindKeeps | php-8.3.13/Zend/zend_alloc.c:881-999 | the search keeps the chunk invariant while it moves free_tail, and the run it found is free |
| Chunks.AllocTiled | php-8.3.13/Zend/zend_alloc.c:881-1081 | search and take keep the chunk invariant: run headers tile exactly the set bits, free_pages counts the clear ones, no run starts at or past free_tail |
| Chunks.PutTiled | php-8.3.13/Zend/zend_alloc.c:1150-1158 | giving a run back keeps that invariant |
| Chunks.GrowTiled | php-8.3.13/Zend/zend_alloc.c:1683-1710 | growing in place keeps it although free_tail does not move |
| Chunks.ShrinkTiled | php-8.3.13/Zend/zend_alloc.c:1663-1682 | shrinking in place keeps it |
| Chunks.MakeSmallTiled | php-8.3.13/Zend/zend_alloc.c:1262-1270 | turning a run into small blocks keeps it |
| Chunks.TiledTailBits | php-8.3.13/Zend/zend_alloc.c:936-997 | from the invariant alone: what the scan may assume about pages past free_tail |
| ChunkTails.TailFreeIff | php-8.3.13/Zend/zend_alloc.c:211 | in a well-formed chunk "all pages from free_tail on are free" holds if and only if free_tail is 512 or its page is free |
| ChunkTails.SearchMoves | php-8.3.13/Zend/zend_alloc.c:936-997 | where a search leaves free_tail, told from the pages: it stays after an exact fit or when the last page is allocated, else it is where the last free run begins, or n further when that run is the one chosen |
| ChunkTails.PutTake | php-8.3.13/Zend/zend_alloc.c:1074-1081 | giving back what was just taken restores the pages and their number, and free_tail if and only if the run does not end right at it |
| ChunkTails.GrowIff | php-8.3.13/Zend/zend_alloc.c:1683-1710 | growth in place leaves all pages from free_tail on free if and only if they were and the run ends at or before free_tail: a test on the numbers before the call |
| ChunkTails.TakeTail | php-8.3.13/Zend/zend_alloc.c:881-1081 | search and take keep that property |
| ChunkTails.TakeFirst | php-8.3.13/Zend/zend_alloc.c:1050-1081 | so does the first run of a new chunk |
| ChunkTails.PutTail | php-8.3.13/Zend/zend_alloc.c:1150-1158 | so does giving a run back |
| ChunkTails.ShrinkTail | php-8.3.13/Zend/zend_alloc.c:1663-1682 | so does shrinking: growth past free_tail is the only way to lose it |
| ChunkTails.GrowPastTail | php-8.3.13/Zend/zend_alloc.c:1683-1710 | an instance: page 1 is taken and grown over page 2, which is at free_tail |
| PageCodec.DecodeEncode | php-8.3.13/Zend/zend_alloc.c:161-190 | every page-map entry the allocator writes is read back field by field |
| PageCodec.CounterWrap | php-8.3.13/Zend/zend_alloc.c:175-189 | a free counter reads back modulo 512: the 512 of bin 0 as 0, that of every other bin exactly |
| Bins.BinFacts | php-8.3.13/Zend/zend_alloc_sizes.h:33-62 | every row of the table: sizes grow, elements fit their pages, element counts and page counts are within the fields of the page map |
| Bins.BinFull | php-8.3.13/Zend/zend_alloc_sizes.h:33-62 | a run holds as many elements as fit its pages |
| Bins.SmallestBin | php-8.3.13/Zend/zend_alloc.c:1182-1239 | zend_mm_small_size_to_bin returns the smallest class that holds the size, for every small size |
| HeapInv.BlocksApart | php-8.3.13/Zend/zend_alloc.c:1243-1337 | two blocks or free slots described by the page maps that share a byte are the same |
| HeapInv.OneKind | php-8.3.13/Zend/zend_alloc.c:1412-1463 | an address is described as one kind of block only |
| HeapMem.LiveApart | php-8.3.13/Zend/zend_alloc.c:1367-1410 | blocks handed out, huge ones included, never share a byte |
| HeapMem.LinkWriteUntouched | php-8.3.13/Zend/zend_alloc.c:1319-1337 | writing the link of a free slot changes no byte of a block handed out |
| Blocks.PageInfoOfSlot | php-8.3.13/Zend/zend_alloc.c:1262-1270 | on every page of a small run the map entry leads back to the first page and the bin |
| HeapState.SoundPop | php-8.3.13/Zend/zend_alloc.c:1299-1317 | the head of a free list is a slot nobody holds; taking it keeps the heap invariant, with the links in memory |
| HeapState.SoundPush | php-8.3.13/Zend/zend_alloc.c:1319-1337 | freeing a slot keeps the heap invariant and the bytes of all others |
| HeapState.SoundNewRun | php-8.3.13/Zend/zend_alloc.c:1243-1296 | a run becomes small blocks: one handed out, the others chained through memory as the free list, without duplicates |
| HeapState.SoundTake | php-8.3.13/Zend/zend_alloc.c:1074-1081 | taking a free run keeps the heap invariant |
| HeapState.SoundResize | php-8.3.13/Zend/zend_alloc.c:1663-1710 | freeing, growing or shrinking a large run keeps the heap invariant |
| HeapSteps.ResizeRun | php-8.3.13/Zend/zend_alloc.c:1150-1162 | every other block keeps its place when a large run changes |
| HeapSteps.EmptyByCount | php-8.3.13/Zend/zend_alloc.c:1157-1161 | free_pages at its maximum means that only the header page is allocated |
| HeapChunks.SoundLeave | php-8.3.13/Zend/zend_alloc.c:1115-1148 | a chunk without runs can leave the ring, whatever becomes of it: no block is lost |
| HeapChunks.OccupiedLeave | php-8.3.13/Zend/zend_alloc.c:1157-1161 | when the chunk just emptied leaves the ring, again no chunk of the ring but the main one is empty, which is part of the heap invariant |
| HeapChunks.SoundJoinCached | php-8.3.13/Zend/zend_alloc.c:1001-1057 | a cached chunk can join the ring: it holds nothing beyond its header page |
| HeapChunks.SoundJoinFresh | php-8.3.13/Zend/zend_alloc.c:1021-1057 | a fresh chunk can join the ring |
| HeapChunks.SoundResizeHuge | php-8.3.13/Zend/zend_alloc.c:1507-1564 | a huge block may shrink, or grow where nothing is mapped |
| HeapWrite.SoundWrite | php-8.3.13/Zend/zend_alloc.c:1367-1410 | whatever a program writes into its blocks, the heap invariant holds |
| HeapWrite.OthersUntouched | php-8.3.13/Zend/zend_alloc.c:1367-1410 | and the bytes of all other blocks stay |
| HeapBooks.BalancedLeave | php-8.3.13/Zend/zend_alloc.c:1115-1148 | conservation through chunk deletion: real_size is CHUNK_SIZE times (chunks + cached chunks) plus the huge sizes, mapped memory is exactly that |
| HeapBooks.BalancedJoinFresh | php-8.3.13/Zend/zend_alloc.c:1038-1057 | conservation through a new chunk, with real_peak >= real_size |
| HeapBooks.BalancedTrim | php-8.3.13/Zend/zend_alloc.c:2734-2744 | conservation through trimming the cache |
| HeapBooks.BalancedMapHuge | php-8.3.13/Zend/zend_alloc.c:1839-1877 | between mapping a huge block and counting it the difference is exactly its size |
| HeapBooks.BalancedResizeHuge | php-8.3.13/Zend/zend_alloc.c:1507-1564 | conservation through huge growth and shrinkage |
| HeapObject.Heap.DeleteChunk | php-8.3.13/Zend/zend_alloc.c:1115-1148 | which chunk is kept and which goes back, in terms of the counters before: kept in the cache while the heap is smaller than usual or has just been deleting, else the chunk with the greater number goes; ring, cache, counters and the delete boundary |
| HeapObject.Heap.ChunkAlloc | php-8.3.13/Zend/zend_alloc.c:769-781 | the heap obtains an aligned region apart from all mapped ones, at any address that fits, or is refused; how the region comes about is `AlignedMap.System.ChunkAllocInt` |
| AlignedMap.System.ChunkAllocInt | php-8.3.13/Zend/zend_alloc.c:717-767 | the region is aligned and new, and after trimming nothing else stays mapped; it fails only when refused, and a refusal changes nothing, except that a refused second request unmaps what lies behind the region it did not get, harmless exactly when nothing is mapped there |
| PageAlloc.FindRun | php-8.3.13/Zend/zend_alloc.c:881-1062 | the chunks are searched in ring order; the result is in the first with room, or none has room |
| PageSteps.RoomIsFreeRun | php-8.3.13/Zend/zend_alloc.c:936-997 | a chunk has room exactly when it has a free run of that length, and the choice is the tightest |
| PageSteps.OccupiedFound | php-8.3.13/Zend/zend_alloc.c:1001-1081 | a chunk that joined the ring is not left empty once the run is taken in it |
| PageAlloc.TryChunk | php-8.3.13/Zend/zend_alloc.c:1001-1057 | one attempt: a cached chunk; or a collection when the limit leaves no room, to be tried again if it released something; or a fresh chunk, for which the limit had room just before |
| PageAlloc.GetChunk | php-8.3.13/Zend/zend_alloc.c:1001-1057 | cached chunk, fresh chunk, at most one successful collection; real_size stays within the limit it was within, and grows only by a chunk there was room for when the limit was last checked; failure, never with a cached chunk, leaves blocks and bytes as they were, and means that the operating system refused or that the limit has no room for a chunk after the collection |
| PageAlloc.AllocPages | php-8.3.13/Zend/zend_alloc.c:881-1081 | the tightest run of the first chunk with room, which may move behind the main one, else page 1 of a new chunk, which joins at the end; blocks and bytes stay; real_size stays within the limit; it succeeds whenever a chunk has room or one is cached, and fails only when refused or at the limit |
| SmallAlloc.AllocSmallSlow | php-8.3.13/Zend/zend_alloc.c:1243-1296 | with an empty free list a new run gives its first slot, and the others are the free list, in order of addresses; always when a chunk has room for the run or one is cached; every other block keeps place and bytes |
| SmallAlloc.WriteLinks | php-8.3.13/Zend/zend_alloc.c:1272-1296 | the loop links slots 1, 2, .. to NULL and writes only inside the run |
| SmallAlloc.AllocSmall | php-8.3.13/Zend/zend_alloc.c:1299-1317 | the head of the list if there is one, which never fails, else the slow path; size, peak and the limit as in `AllocHeap` |
| SmallAlloc.FreeSmall | php-8.3.13/Zend/zend_alloc.c:1319-1337 | the block becomes the head of its list; all others keep their bytes |
| LargeAlloc.AllocLarge | php-8.3.13/Zend/zend_alloc.c:1084-1113 | a block of enough pages and less than one too many, always when a chunk has room or one is cached; heap invariant, totals and limit kept |
| LargeAlloc.FreePages | php-8.3.13/Zend/zend_alloc.c:1150-1167 | exactly this block goes; its chunk leaves the ring exactly when it is empty and not the main one, and is then kept or given back as in `DeleteChunk` |
| LargeAlloc.FreeLarge | php-8.3.13/Zend/zend_alloc.c:1169-1176 | the same with the size counted |
| HugeList.ListAdd | php-8.3.13/Zend/zend_alloc.c:1728-1745 | the list names exactly the huge blocks, with nodes that are blocks of the heap themselves |
| HugeList.ListDrop | php-8.3.13/Zend/zend_alloc.c:1747-1769 | taking a node out keeps that |
| HugeList.ListFind | php-8.3.13/Zend/zend_alloc.c:1771-1783 | every huge block is found, with its size |
| HugeBlocks.AlignUpIs | php-8.3.13/Zend/zend_alloc.c:1816-1823 | rounding up to pages overflows exactly when the size is within a page of 2^64; else the result is the least multiple |
| HugeBlocks.RoomFor | php-8.3.13/Zend/zend_alloc.c:1825-1838 | room for the size if and only if it is at most what the limit leaves in size_t arithmetic, after a collection when it was not so at first |
| HugeBlocks.AllocHuge | php-8.3.13/Zend/zend_alloc.c:1807-1877 | a mapped, listed and counted huge block, or failure with all blocks untouched; real_size exceeds the limit by at most the chunk of the list node |
| HeapApi.FreeHuge | php-8.3.13/Zend/zend_alloc.c:1880-1893 | exactly the block and its node go |
| Pointers.PointerKind | php-8.3.13/Zend/zend_alloc.c:1412-1463 | for every block handed out, its address and the page map, continuation pages included, recover exactly its bin, its page count or that it is huge |
| HeapApi.AllocHeap | php-8.3.13/Zend/zend_alloc.c:1367-1410 | a new block of the class for the size, of at least that size, always when a slot, a run or a cached chunk is there (`CanServe`); all others keep address, kind and bytes; a heap within its limit stays within it, or within a chunk of it for a huge block; peaks are the maxima; and it fails only when refused, at the limit, or for a size within a page of 2^64 |
| HeapApi.KindFits | php-8.3.13/Zend/zend_alloc.c:1367-1410 | the class chosen holds the request, and the next smaller one would not |
| HeapApi.FreeHeap | php-8.3.13/Zend/zend_alloc.c:1412-1435 | the address alone removes precisely the block that was handed out; NULL does nothing |
| HeapApi.SizeOf | php-8.3.13/Zend/zend_alloc.c:1437-1463 | the usable size of any block from its address alone |
| HeapApi.HugeSize | php-8.3.13/Zend/zend_alloc.c:1771-1783 | the list search ends at the block and returns its size |
| Realloc.ReallocHeap | php-8.3.13/Zend/zend_alloc.c:1570-1721 | for every size: allocate-copy-free is refined. A small block keeps its address if and only if the size fits its class and is at least the previous one; the result is of the tightest class, the least number of pages or the least multiple of the page size; every byte below the size, the old size and the copy size is kept; every other block is unchanged; a large block keeps its address if and only if it need not or can grow where it is; a huge block that stays huge keeps its address unless the operating system refuses; the limit is kept and failures are explained as for `AllocHeap`; only a huge block and a size within a page of 2^64 can end otherwise, and what happens then is stated |
| Realloc.NewKindIs | php-8.3.13/Zend/zend_alloc.c:1570-1721 | the kind of the result in terms of the table of sizes and the page size |
| Realloc.RoundedIff | php-8.3.13/Zend/zend_alloc.c:1496-1518 | in the in-place step the size rounds to at least itself if and only if it is at least a page below 2^64, and to 0 otherwise |
| Realloc.ReallocSlow | php-8.3.13/Zend/zend_alloc.c:1465-1482 | the path that does allocate, copy and free, with the peak that of before or the new size, whichever is greater |
| Realloc.ReallocSmall | php-8.3.13/Zend/zend_alloc.c:1598-1646 | in place exactly when the block is just right, else moved to a smaller or larger class; min(size, old size, copy size) bytes are kept, the peak is that of before or the new size, and it is not done only for sizes beyond the small ones |
| Realloc.ReallocLarge | php-8.3.13/Zend/zend_alloc.c:1648-1713 | in place if and only if the new size is large too and no larger, or the pages behind are in the chunk and free; then any prefix of the contents stays; else nothing has changed |
| Realloc.ReallocHugeInPlace | php-8.3.13/Zend/zend_alloc.c:1496-1565 | huge truncation and extension in place: it fails only when the limit has no room for the difference, after a collection; a size that rounds to 0 truncates the block to nothing |
| Realloc.ExtendInPlace | php-8.3.13/Zend/zend_alloc.c:1532-1565 | growth in place only where the limit has room for the difference, if need be after a collection, and always then, unless the operating system refuses |
| Realloc.ReallocHuge | php-8.3.13/Zend/zend_alloc.c:1483-1568 | in place unless the operating system refuses, then by the copy; the limit as in `AllocHeap`; a size that rounds to 0 either empties the block or fails cleanly |
| Realloc.ChangeHugeSize | php-8.3.13/Zend/zend_alloc.c:1785-1805 | only the size of this block changes in the list |
| GcRun.Gc | php-8.3.13/Zend/zend_alloc.c:1949-2061 | the heap survives exactly when some run of the main chunk is not collectable; then live blocks and bytes are untouched, all counters are zero again, no collectable run is left, the free lists keep exactly the slots outside released runs, the result is 4096 times the pages released, real_size does not grow, and with result 0 it is as before |
| GcRun.CountFreeSlots | php-8.3.13/Zend/zend_alloc.c:1966-2022 | both walks over the free lists: every run of every class is counted, and exactly the slots of full runs leave the lists |
| GcRun.CountBin | php-8.3.13/Zend/zend_alloc.c:1967-1994 | every counter of the class counts the free slots of its run |
| GcRun.WalkFreeList | php-8.3.13/Zend/zend_alloc.c:1996-2021 | unlinking in place leaves the kept slots chained in their order |
| GcRun.SweepRing | php-8.3.13/Zend/zend_alloc.c:2024-2060 | the walk over the ring; the main chunk is deleted too when it is idle |
| Sweep.SweepChunk | php-8.3.13/Zend/zend_alloc.c:2026-2049 | one chunk: full runs are freed, the counters of the others reset, the pages counted |
| GcCounts.CountMeansAll | php-8.3.13/Zend/zend_alloc.c:1984-1988 | the counter reaches the number of elements exactly when all slots of the run are on the list |
| GcStart.SpentMeans | php-8.3.13/Zend/zend_alloc.c:2030-2042 | the sweep takes a run for free exactly when it is not of bin 0 and all its slots are free |
| GcStart.LiveOrAllFree | php-8.3.13/Zend/zend_alloc.c:2030-2042 | all slots free means no block of the run is handed out, and conversely |
| GcTotals.EmptiedIffIdle | php-8.3.13/Zend/zend_alloc.c:2050-2057 | a swept chunk is empty exactly when all its runs were collectable before |
| GcTotals.SweptSome | php-8.3.13/Zend/zend_alloc.c:2050-2057 | the sweep meets no chunk behind the main one that was empty before, so a collection that returns 0 unmaps nothing |
| GcTotals.CollectedTwice | php-8.3.13/Zend/zend_alloc.c:1001-1020 | a second collection returns 0, so the retry loop of zend_mm_alloc_pages ends |
| PageSteps.LiveMainStays | php-8.3.13/Zend/zend_alloc.c:2050-2057 | a heap whose main chunk holds a block outlives any collection |
| HeapLimits.EmptyMainIdle | php-8.3.13/Zend/zend_alloc.c:2050-2057 | counterexample: on a heap with nothing handed out a collection deletes the main chunk |
| HeapLimits.InitHeap | php-8.3.13/Zend/zend_alloc.c:1899-1947 | a new heap satisfies the invariant |
| HeapLimits.SetMemoryLimit | php-8.3.13/Zend/zend_alloc.c:2729-2751 | succeeds exactly when dropping the cache suffices; stores the limit only when no trimming is needed; trims no more than needed; never takes from an empty cache |
| HeapLimits.Shutdown | php-8.3.13/Zend/zend_alloc.c:2300-2376 | the invariant again, nothing handed out; as many chunks stay cached as there are, up to the average; counters, peaks and average reset |
| HeapLimits.ShutdownFull | php-8.3.13/Zend/zend_alloc.c:2300-2328 | nothing stays mapped |
| HeapLimits.CacheAll | php-8.3.13/Zend/zend_alloc.c:2309-2318 | all chunks but the first move to the cache list, without loss or duplicate |
| HeapLimits.ClearCached | php-8.3.13/Zend/zend_alloc.c:2339-2346 | the headers of all cached chunks are cleared |
| Session.Run | php-8.3.13/Zend/zend_alloc.c:1367-1721 | any sequence of alloc, free, realloc, writes, collections, limits and request ends behaves like an ideal store of separate blocks; a run stops early only at an operation that may fail, with the blocks then as stated; and a run that asks for no huge block is within its memory limit in every state |
| Session.StoreApart | php-8.3.13/Zend/zend_alloc.c:1367-1410 | blocks of the store share no address, in every reachable state |
| Session.Do | php-8.3.13/Zend/zend_alloc.c:1367-1721 | one operation: the heap follows the store, contents included; only allocation, realloc and collection can fail, not when the heap can serve the size, and a failed one leaves the other blocks; a collection fails only when the main chunk holds no block |
| Ring.LinkLast | php-8.3.13/Zend/zend_alloc.c:843-846 | next and prev form one ring, with the chunk last |
| Ring.Lists.AddChunk | php-8.3.13/Zend/zend_alloc.c:1038-1057 | a new chunk becomes the last of the ring |
| Ring.Lists.MoveToFront | php-8.3.13/Zend/zend_alloc.c:1065-1073 | the ring stays one ring, the chunk right behind the main one; the cache list is untouched |
| Ring.Lists.RemoveChunk | php-8.3.13/Zend/zend_alloc.c:1115-1121 | the ring without the chunk, which is on no list then |
| Ring.Lists.CacheChunk | php-8.3.13/Zend/zend_alloc.c:1122-1129 | a chunk goes from the ring to the front of the cache list |
| Ring.Lists.ExchangeChunk | php-8.3.13/Zend/zend_alloc.c:1139-1147 | a chunk replaces the first cached one |
| Ring.Lists.TakeCached | php-8.3.13/Zend/zend_alloc.c:1002-1005 | the first cached chunk becomes the last of the ring |
| Ring.Lists.DropCached | php-8.3.13/Zend/zend_alloc.c:2737-2741 | the first cached chunk is taken out |
| TsrmRuns.Run | php-8.3.13/TSRM/TSRM.c:164-577 | every run of legal steps and the final shutdown: the threads served have every resource registered and not freed, constructed once; in the end each instance has been constructed once and destroyed once, in that order |
| TsrmRuns.AllConstructed | php-8.3.13/TSRM/TSRM.c:248-311 | in any state that a run leads to, every entry has an instance of every resource registered and not freed |
| TsrmTable.OnceEach | php-8.3.13/TSRM/TSRM.c:164-180 | what the discipline of the log means: no event twice, nothing constructed again after its destruction |
| TsrmTable.MadeBefore | php-8.3.13/TSRM/TSRM.c:164-180 | nothing is destroyed that was not constructed |
| TsrmTable.TeardownOrder | php-8.3.13/TSRM/TSRM.c:164-180 | an entry is torn down in decreasing order of ids |
| TsrmTable.TeardownAll | php-8.3.13/TSRM/TSRM.c:164-180 | and completely, but for freed resources |
| TsrmTable.FastApart | php-8.3.13/TSRM/TSRM.c:378-408 | fast resources of an entry are 16-aligned to it, behind its header, inside its memory and pairwise apart |
| TsrmEntries.ReserveIff | php-8.3.13/TSRM/TSRM.c:315-319 | tsrm_reserve keeps the table in order if and only if every entry has the new length already and no fast resource occupies bytes: always at the start |
| TsrmEntries.ReservedLongerIff | php-8.3.13/TSRM/TSRM.c:378-381 | after another reservation, all fast resources it admits fit into an existing entry if and only if it is not longer than the one before |
| TsrmTable.NextFastIff | php-8.3.13/TSRM/TSRM.c:333-343 | after another reservation the next fast resource shares no byte with earlier ones if and only if those occupy none |
| TsrmEntries.ReservedTwice | php-8.3.13/TSRM/TSRM.c:315-343 | counterexample: reserving and registering twice puts two fast resources at the same place |
| TsrmEntries.TableInsert | php-8.3.13/TSRM/TSRM.c:378-414 | a new entry keeps the pointers of all threads in agreement with the table exactly when the thread makes it for itself |
| TsrmEntries.PointerIsEntry | php-8.3.13/TSRM/TSRM.c:424-441 | a thread with a pointer has exactly one entry, and the pointer is it |
| TsrmEntries.ChainSearched | php-8.3.13/TSRM/TSRM.c:455-482 | a thread that is not in the chain of its hash value has no entry at all |
| TsrmEntries.AllDestroyed | php-8.3.13/TSRM/TSRM.c:183-212 | without entries every instance ever constructed has been destroyed |
| Tsrm.Manager.constructor | php-8.3.13/TSRM/TSRM.c:119-162 | the empty table |
| Tsrm.Manager.UpdateActiveThreads | php-8.3.13/TSRM/TSRM.c:248-273 | every entry gets the instances it lacks, none of them of a freed resource, and keeps those it has |
| Tsrm.Manager.AllocateId | php-8.3.13/TSRM/TSRM.c:277-311 | the next id; every thread has an instance of every resource afterwards |
| Tsrm.Manager.Reserve | php-8.3.13/TSRM/TSRM.c:315-319 | at any time: the new state, and exactly when the table is still in order |
| Tsrm.Manager.AllocateFastId | php-8.3.13/TSRM/TSRM.c:323-369 | succeeds exactly when the space suffices; a failure leaves the count of ids ahead of the table of types |
| Tsrm.Manager.Fetch | php-8.3.13/TSRM/TSRM.c:417-506 | for id 1 and up, the slot of the calling thread's own entry at id - 1: NULL exactly when the resource is freed, base and offset for a fast one, else what its constructor was recorded for; id 0 gives the array of that entry; other threads keep theirs; the retry happens at most once |
| TsrmEntries.PointerOf | php-8.3.13/TSRM/TSRM.c:96-103 | what a slot holds, in any table in order: NULL exactly for a freed resource, else an instance constructed and not destroyed |
| Tsrm.Manager.FindEntry | php-8.3.13/TSRM/TSRM.c:445-497 | one entry per thread afterwards; a stale one is torn down and replaced |
| Tsrm.Manager.Renew | php-8.3.13/TSRM/TSRM.c:483-497 | a stale entry is torn down and a new one takes its place in the chain; neighbours and other threads stay |
| Tsrm.Manager.FreeThread | php-8.3.13/TSRM/TSRM.c:510-541 | the entry of the calling thread goes, others stay |
| Tsrm.Manager.FreeId | php-8.3.13/TSRM/TSRM.c:544-577 | the resource is destroyed in every thread and never constructed again |
| Tsrm.Manager.Shutdown | php-8.3.13/TSRM/TSRM.c:183-235 | all entries are torn down, and constructed and destroyed instances are the same |
| Arena.Bump.constructor | php-8.3.13/Zend/zend_arena.h:34-42 | an empty arena |
| Arena.Bump.Alloc | php-8.3.13/Zend/zend_arena.h:53-77 | one more block on the stack, at the bump pointer if and only if the arena has room, else at the start of a new arena of the old size or what the block needs; all checkpoints stay valid |
| Arena.Bump.Checkpoint | php-8.3.13/Zend/zend_arena.h:94-97 | the state releasing to it leads back to |
| Arena.Bump.Release | php-8.3.13/Zend/zend_arena.h:99-111 | exact undo: the chain, the bump pointer and the blocks are those of the checkpoint, and exactly the arenas in front of it are given back |
| Arena.Bump.Destroy | php-8.3.13/Zend/zend_arena.h:44-51 | every arena of the chain is freed, and none twice |
| Arena.Tracked.Destroy | php-8.3.13/Zend/zend_arena.h:150-161 | every block is freed exactly once |
| Arena.StackApart | php-8.3.13/Zend/zend_arena.h:53-77 | all blocks of all arenas are apart |
| Arena.AboveKeeps | php-8.3.13/Zend/zend_arena.h:94-111 | blocks older than the checkpoint are intact |
| Arena.AboveTwice | php-8.3.13/Zend/zend_arena.h:94-111 | nested checkpoints: releasing the inner one keeps the outer one valid |
| Arena.TestSkips | php-8.3.13/Zend/zend_arena.h:103-109 | the half-open address test holds for the arena of the checkpoint and for no arena in front of it, adjacent ones included |
| Arena.Tracked.Alloc | php-8.3.13/Zend/zend_arena.h:163-173 | the tracking variant: one more block on the same stack, in this array exactly while it has a slot |
| Arena.Tracked.Release | php-8.3.13/Zend/zend_arena.h:190-214 | exact undo, and the blocks since the checkpoint are freed, last one first, with the arrays they were in |
| Arena.SlotIsCheckpoint | php-8.3.13/Zend/zend_arena.h:190-214 | the address of the next slot identifies the state of the checkpoint among all later ones |
| ModuleSort.SortModules | php-8.3.13/Zend/zend_API.c:2331-2363 | a permutation in which no module stands before one it requires or wants; the measure is the positions to go and the rank of the module at the current one |
| ModuleSort.SortEndsIff | php-8.3.13/Zend/zend_API.c:2331-2363 | for distinct modules the sort ends if and only if the dependencies among those present are acyclic |
| ModuleSort.TwoCycle | php-8.3.13/Zend/zend_API.c:2331-2363 | counterexample: two modules that want each other change places for ever |
| ModuleSort.FindWanted | php-8.3.13/Zend/zend_API.c:2341-2360 | the nested search: of the dependencies in order, the first that names a later module, and the first module of that name |
| ModuleStartup.Registry.StartModule | php-8.3.13/Zend/zend_API.c:2265-2320 | starts exactly when every required module is registered and started (or is itself) |
| ModuleStartup.Registry.StartAll | php-8.3.13/Zend/zend_API.c:2323-2328 | one sweep keeps exactly the modules that start, in order, each once |
| ModuleStartup.GoodIff | php-8.3.13/Zend/zend_API.c:2265-2328 | after the sort a module starts if and only if nothing it requires, directly or not, is missing |
| ModuleStartup.StartupModules | php-8.3.13/Zend/zend_API.c:2447-2451 | sort and sweep together, as a statement about the registry before both |
| VaArgs.ParseVaArgs | php-8.3.13/Zend/zend_API.c:1090-1231 | for every well-formed specification and every number of arguments: success if and only if the number is admitted and every fixed argument parses where it stands, both told from the specification, and then each argument was taken exactly once, in order |
| VaPlans.AcceptedInOrder | php-8.3.13/Zend/zend_API.c:1190-1229 | every accepted call is taken as fixed prefix, one slice, fixed suffix, and the reserved count never exceeds what is left |
| VaPlans.OkIff | php-8.3.13/Zend/zend_API.c:1196-1216 | `num_args + 1 - post_varargs` is safe for all accepted calls if and only if nothing is optional in front of a variable part with two or more arguments behind it |
| VaPlans.InOrderOnce | php-8.3.13/Zend/zend_API.c:1190-1229 | taken in order means that the indexes 0 to n-1 are consumed once each |
| VaPlans.FitsShaped | php-8.3.13/Zend/zend_API.c:1190-1229 | for any number of arguments at all: when the interpreter stays on course |
| VaSpecs.CountSpec | php-8.3.13/Zend/zend_API.c:1104-1158 | what the counters of the first loop are for a specification: the minimum is the number of arguments in front of the last mark |
| VaSpecs.AcceptsIff | php-8.3.13/Zend/zend_API.c:1160-1170 | a number of arguments is accepted if and only if: without a mark it is at least all fixed arguments, and one more for a plus sign; with marks it is at least the arguments in front of each; and without a variable part it is at most all arguments |
| VaParses.ParsedFixed | php-8.3.13/Zend/zend_API.c:1190-1229 | all arguments taken parse if and only if those in front of the variable part and, counted from the end, those behind it do |
| VaText.ScanRender | php-8.3.13/Zend/zend_API.c:1133-1137 | the text of a specification is counted item by item, and fails exactly for a second variable part |
| VaText.ScanIff | php-8.3.13/Zend/zend_API.c:1104-1158 | the first loop accepts exactly the texts of known characters with at most one mark of a variable part |
| VaArgs.ParseArg | php-8.3.13/Zend/zend_API.c:759-784 | one letter and all its modifiers are consumed, no character of the next item |
| Printer.PrintNested | php-8.3.13/Zend/zend.c:534-605 | terminates on any graph, writes the text of the guarded unfolding, and leaves every flag of every node as it was |
| Printer.PrintHash | php-8.3.13/Zend/zend.c:370-418 | the block of a container, line by line with its indentation |
| PrintSamples.PropertySamples | php-8.3.13/Zend/zend.c:370-418 | the lines of a protected and a private property |
| PrintSamples.ArraySample | php-8.3.13/Zend/zend.c:534-560 | the text of an array with one element, character by character |
| PrintSamples.NestedSample | php-8.3.13/Zend/zend.c:560-605 | the text of an enumeration within an object |
| FlatPrinter.PrintFlat | php-8.3.13/Zend/zend.c:470-523 | the same for the flat printer, with its own text and flags |
| PrintSamples.FlatSample | php-8.3.13/Zend/zend.c:470-523 | flat texts of an object, of an empty array and of an array being printed already |
| FlatPrinter.PrintFlatHash | php-8.3.13/Zend/zend.c:421-442 | the entries of a container |
| PrintKeys.CommasBetween | php-8.3.13/Zend/zend.c:421-442 | the entries of the flat text are separated by commas, with none in front and none behind |
| PrintKeys.KeyTells | php-8.3.13/Zend/zend.c:370-418 | print_r prints two keys of arrays alike if and only if they are the same key |
| PrintKeys.FlatKeyTells | php-8.3.13/Zend/zend.c:421-442 | so does the flat printer among integers and among strings; an integer and a string are printed alike if and only if the integer is negative and the string is the number 2^64 above it |
| PrintKeys.MinusOne | php-8.3.13/Zend/zend.c:436 | an instance: -1 and the string of 2^64 - 1 |
| Numerals.ReadDigits | php-8.3.13/Zend/zend.c:407 | the printed digits denote the number: read by places they give it back, and no zero is in front |
| Numerals.ReadSigned | php-8.3.13/Zend/zend.c:407 | signed numbers read back as themselves |
| Numerals.ReadUnsigned | php-8.3.13/Zend/zend.c:436 | unsigned ones read back modulo 2^64 |
| Numerals.NumeralIs | php-8.3.13/Zend/zend.c:407 | every numeral without zeros in front is the text of the number it denotes |
| PrintCycles.MarksIff | php-8.3.13/Zend/zend.c:470-605 | with no guard set at first, the recursion mark is printed if and only if the value leads to a container that leads back to itself |
| PrintCycles.Followed | php-8.3.13/Zend/zend.c:470-605 | without a mark, every path is unfolded to its end |
| PrintCycles.ToMark | php-8.3.13/Zend/zend.c:470-605 | every mark is reached by a path to a container that was guarded before or contains itself |
| Heapsort.HeapsortR | php-8.3.13/Zend/bench.php:218-248 | positions 1 to n are sorted, a permutation of before; everything around them is untouched |
| Heapsort.Sift | php-8.3.13/Zend/bench.php:233-246 | the value in hand sinks until the heap reaches down to its position |
| Heapsort.TakeRoot | php-8.3.13/Zend/bench.php:225-228 | the root moves behind the heap, ahead of larger elements only |
| Heapsort.RootLargest | php-8.3.13/Zend/bench.php:225-228 | the root of a heap is its largest element |

## Left out

- The operating system: mapping, unmapping, truncating and extending memory succeed or fail at will. Huge-page advice, `mremap` and the Windows branch are not part of this model.
- Custom, tracked and storage-handler heaps, debug fields and leak reports.
- `zend_mm_safe_error`, bailout and overflow mode: a failed allocation returns address 0 and ends a run. What is left then is stated (`Survive`).
- HeapObject.Heap: chunks are values in a map and the ring and cache sequences of addresses; updating words in place is proved in `ChunkPageTable.ChunkPages`, updating the pointers of the ring in `Ring`, and neither is linked to the heap object by an object reference.
- HeapObject.Heap.ChunkAlloc: a refusal leaves the heap's regions mapped, which is the harmless case of `AlignedMap.System.ChunkAllocInt`.
- Counters of the heap are unbounded integers, except in the limit checks and in rounding sizes up, where 64-bit arithmetic matters. The cache average is a real number.
- The page size of the operating system is the constant 4096.
- HugeList.ListAdd: the fields of list nodes are kept as values in a sequence; that a node occupies a block of the heap is modelled, its bytes are not.
- AlignedMap.System.ChunkAllocInt: sizes plus alignment do not wrap around 2^64; the first mapping of such a size is refused.
- HugeBlocks.RoomFor: the branch with the overflow flag set, which only the error handler sets, is left out.
- HeapLimits.SetMemoryLimit: the overflow field and the error message are not modelled.
- Session.Run: a program frees and resizes only blocks it holds and writes only inside them. The run ends when the main chunk, and with it the heap object, has been deleted by a collection, or a huge block has been emptied by a size within a page of 2^64; what the program then does is not modelled.
- TSRM: each operation under its mutex is one step; reads outside of it, the TLS cache macros, and constructors or destructors that call back into TSRM are not part of this model. malloc returns addresses that are not compared with each other, and never fails.
- Tsrm.Manager.Fetch: threads fetch their own resources; `TableInsert` shows what goes wrong otherwise.
- Tsrm.Manager.UpdateActiveThreads: called when the resources an entry lacks are not freed ones, as both its callers prove for every table in order; otherwise the code would construct freed resources.
- TsrmRuns.Run: one reservation before the run, as the engine does; it ends where a fast allocation fails.
- Arena.Tracked.Alloc: emalloc is a parameter; that it returns separate blocks is proved for the heap, not here. `zend_arena_calloc` and `zend_arena_contains` are thin wrappers.
- ModuleSort.SortModules: module names are numbers and equal without regard to case when the numbers are; termination in Dafny needs the ranks that `SortEndsIff` shows to exist exactly for acyclic dependencies.
- ModuleStartup.Registry.StartModule: the startup function of a module succeeds, and globals, ini entries and error reports are left out.
- VaArgs.ParseArg: whether an argument is of the demanded type is a parameter; conversion and the written variables are left out, as are error messages and the clearing of the slice after a failure.
- VaArgs.ParseVaArgs: extra named parameters and frames with fewer arguments than announced are left out; counts are unbounded, which matters only where a subtraction could wrap, and there it is proved that it does not.
- Printer.PrintNested: scalars come with their string, property names with what their mangled form encodes, and property tables do not change while they are printed; handlers that run user code are left out.
- Printer.PrintNested, FlatPrinter.PrintFlat: references and immutable arrays do not form a cycle among themselves (`PrintGraph.Sound`); nothing guards them, and with such a cycle the printers do not end.
- Heapsort.HeapsortR: one element; there the loop steps past its end condition, which the benchmark never meets. Numbers are reals.
- The rest of `zend_API.c` and `zend.c`, `zend_ast.h`, the other benchmarks, the Laravel application around the engine: they need tables and handlers outside these files, or would add only easy members.
