// What an address alone says about its block.
module Pointers {
  // Offset zero means huge; otherwise the page-map entry of its own page names the class or the number of pages.

  import opened Bitset
  import opened Bins
  import opened Chunks
  import opened Blocks
  import opened HeapInv
  import opened HeapSteps
  import opened HeapMem
  import opened HeapState
  import opened HeapBooks
  import opened HeapObject
  import opened SmallAlloc
  import opened LargeAlloc

  /** The page-map entry the code reads for address a. */
  function InfoAt(chunks: ChunkMap, a: int): PageInfo
    requires Base(a) in chunks && WellSized(chunks[Base(a)])
  {
    chunks[Base(a)].info[Page(a)]
  }

  /** The kind of block a page-map entry stands for. ZEND_MM_IS_SRUN is set in SRUN and NRUN entries, and
      both hold the bin in the same place. */
  function KindOf(info: PageInfo): Kind
    requires !info.Frun?
  {
    match info
    case Srun(bin, _) => Small(bin)
    case Nrun(bin, _) => Small(bin)
    case Lrun(pages) => Large(pages)
  }

  /** For every block handed out, its address and the page map recover exactly its kind. */
  lemma PointerKind(s: State, a: int)
    requires Sound(s) && a in s.live
    ensures 0 < a && (s.live[a].Huge? <==> Offset(a) == 0)
    ensures Offset(a) != 0 ==>
              && Base(a) in s.chunks && Base(a) in s.ring && WellSized(s.chunks[Base(a)])
              && !InfoAt(s.chunks, a).Frun? && s.live[a] == KindOf(InfoAt(s.chunks, a))
              && (s.live[a].Large? ==> Offset(a) % PAGE_SIZE == 0 && a == Base(a) + Page(a) * PAGE_SIZE)
              && (s.live[a].Small? ==> s.live[a].bin < BINS)
  {
    SoundIs(s);
    var k := s.live[a];
    assert BlockAt(s.chunks, s.owner, a, k);
    SlotNotZero(s.chunks, s.owner, a, k);
    JoinAddress(a);
    match k
    case Small(bin) =>
      PageInfoOfSlot(s.chunks[Base(a)], s.owner[Base(a)], Offset(a), bin);
      JoinedOffset(a);
    case Large(n) =>
    case Huge(bytes) =>
  }

  /** A block in a chunk is not at the start of the chunk: that page holds the header. */
  lemma JoinedOffset(a: int)
    ensures Page(a) > 0 ==> Offset(a) != 0
  {
  }

  /** zend_mm_free_heap for a block inside a chunk. */
  method FreeInChunk(heap: Heap, a: int)
    requires heap.Steady() && a in heap.State().live && !heap.State().live[a].Huge?
    modifies heap`ring, heap`cached, heap`chunks, heap`owner, heap`mapped, heap`live, heap`size, heap`freeSlot, heap`mem, heap`free
    modifies heap`chunksCount, heap`cachedCount, heap`realSize, heap`deleteBoundary, heap`deleteCount
    ensures heap.Steady() && heap.size == old(heap.size) - Usable(old(heap.State()).live[a])
    ensures heap.State().live == old(heap.State()).live - {a} && heap.realSize <= old(heap.realSize)
    ensures Untouched(heap.State().live, old(heap.State()).mem, heap.State().mem)
  {
    PointerKind(heap.State(), a);
    var info := InfoAt(heap.chunks, a);
    if info.Srun? || info.Nrun? {
      FreeSmall(heap, a, info.bin);
    } else {
      FreeLarge(heap, Base(a), Page(a), info.pages);
    }
  }

  /** zend_mm_size for a block inside a chunk. */
  method SizeInChunk(heap: Heap, a: int) returns (bytes: nat)
    requires heap.Steady() && a in heap.State().live && !heap.State().live[a].Huge?
    ensures bytes == Usable(heap.State().live[a])
  {
    PointerKind(heap.State(), a);
    var info := InfoAt(heap.chunks, a);
    if info.Srun? || info.Nrun? {
      bytes := BinSize(info.bin);
    } else {
      bytes := info.pages * PAGE_SIZE;
    }
  }
}
