/** zend_mm_init, zend_set_memory_limit and zend_mm_shutdown on the heap object. */
module HeapLimits {
  import opened Bitset
  import opened Bins
  import opened Chunks
  import opened Blocks
  import opened BlockChanges
  import opened HeapInv
  import opened HeapSteps
  import opened HeapMem
  import opened HeapState
  import opened HeapChunks
  import opened HeapBooks
  import opened HeapObject
  import opened GcTotals
  import opened HugeList
  import opened LargeAlloc
  import opened HugeBlocks
  import opened HeapApi

  // ---------- an empty heap ----------

  /** The chunk at b is the only one in use and holds nothing; the cached chunks are zero. */
  ghost predicate EmptyChunks(s: State, main: int) {
    && s.ring == [main] && NoDup(s.cached) && main !in s.cached && 0 < main && main % CHUNK_SIZE == 0
    && (forall b :: b in s.chunks <==> b == main || b in s.cached)
    && main in s.chunks && s.chunks[main] == Init(ZeroChunk(), 0)
    && (forall b :: b in s.cached && b in s.chunks ==> s.chunks[b] == ZeroChunk() && 0 < b && b % CHUNK_SIZE == 0)
    && s.owner == map[main := HeaderOnly()]
  }

  /** The heap with nothing handed out. */
  ghost predicate Empty(s: State, main: int) {
    EmptyChunks(s, main) && s.heads == Zeros() && s.free == Empties() && s.live == map[] && s.pending == 0
  }

  lemma EmptyMain()
    ensures Tiled(Init(ZeroChunk(), 0), HeaderOnly()) && NoCounts(Init(ZeroChunk(), 0))
    ensures forall off, bin :: !SlotIn(Init(ZeroChunk(), 0), HeaderOnly(), off, bin)
    ensures forall off, n :: !LargeIn(Init(ZeroChunk(), 0), HeaderOnly(), off, n)
    ensures Released(ZeroChunk()) && NoCounts(ZeroChunk())
  {
    ZeroReleased();
    InitTiled(ZeroChunk(), 0);
    InitCounts(ZeroChunk(), 0);
    NoBlocks(Init(ZeroChunk(), 0), HeaderOnly());
  }

  lemma EmptyBlocks(s: State, main: int)
    requires Empty(s, main)
    ensures Mapped(s.chunks, s.owner) && BlocksOk(s.chunks, s.owner, s.free, s.live, 0)
  {
    EmptyMain();
    forall a, bin: nat
      ensures !SlotAt(s.chunks, s.owner, a, bin)
    {
      assert Base(a) in s.owner ==> Base(a) == main;
    }
    forall a, n: nat
      ensures !LargeAt(s.chunks, s.owner, a, n)
    {
      assert Base(a) in s.owner ==> Base(a) == main;
    }
  }

  /** A heap whose main chunk holds nothing: a collection deletes that chunk, which the code does not spare. */
  lemma EmptyMainIdle(s: State, main: int)
    requires Empty(s, main)
    ensures Sound(s) && ChunkIdle(s, s.ring[0])
  {
    SoundEmpty(s, main);
    EmptyMain();
    SoundIs(s);
    assert Tiled(s.chunks[main], s.owner[main]);
  }

  lemma EmptyRing(s: State, main: int)
    requires Empty(s, main)
    ensures RingOk(s) && CountersZero(s.chunks) && Links(s.mem, s.heads, s.free) && Regions(s.chunks, s.live)
  {
    EmptyMain();
  }

  lemma SoundEmpty(s: State, main: int)
    requires Empty(s, main)
    ensures Sound(s)
  {
    EmptyBlocks(s, main);
    EmptyRing(s, main);
    SoundIs(s);
  }

  /** The books of an empty heap. */
  ghost predicate EmptyBooks(s: State, l: Ledger) {
    && l.chunksCount == 1 && l.cachedCount == |s.cached| && l.due == 0
    && l.realSize == (|s.cached| + 1) * CHUNK_SIZE <= l.realPeak
    && (forall b :: b in l.mapped <==> b in s.chunks) && (forall b :: b in l.mapped ==> l.mapped[b] == CHUNK_SIZE)
  }

  lemma BalancedEmpty(s: State, main: int, l: Ledger)
    requires Empty(s, main) && EmptyBooks(s, l)
    ensures Balanced(s, l)
  {
    BalancedIs(s, l);
  }

  lemma EmptyValid(heap: Heap, main: int)
    requires Empty(heap.State(), main) && EmptyBooks(heap.State(), heap.Books()) && !heap.lost
    requires heap.hugeList == [] && heap.size == 0 <= heap.peak
    ensures Valid(heap)
  {
    SoundEmpty(heap.State(), main);
    BalancedEmpty(heap.State(), main, heap.Books());
    ListIs([], map[]);
  }

  /** zend_mm_init: a new heap is valid, and nothing is handed out. */
  method InitHeap(main: int) returns (heap: Heap)
    requires 0 < main && main % CHUNK_SIZE == 0
    ensures fresh(heap) && Valid(heap) && heap.State().live == map[] && heap.ring == [main] && heap.cached == []
    ensures heap.size == heap.peak == 0 && heap.realSize == heap.realPeak == CHUNK_SIZE && heap.limit == WORD_VALUES / 2 - 1
    ensures heap.chunksCount == heap.peakChunks == 1 && heap.avgChunks == 1.0 && heap.deleteBoundary == heap.deleteCount == 0
  {
    heap := new Heap(main);
    EmptyValid(heap, main);
  }

  // ---------- zend_set_memory_limit ----------

  method DropCached(heap: Heap)
    requires heap.State().cached != []
    modifies heap`cached, heap`chunks, heap`mapped, heap`cachedCount
    ensures heap.State() == TrimStep(old(heap.State()))
    ensures var l, p := old(heap.Books()), old(heap.State()).cached[0];
            heap.Books() == l.(mapped := l.mapped - {p}, cachedCount := l.cachedCount - 1)
  {
    var p := heap.cached[0];
    heap.cached := heap.cached[1..];
    heap.ChunkFree(p);
    heap.chunks := heap.chunks - {p};
    heap.cachedCount := heap.cachedCount - 1;
  }

  method LessReal(heap: Heap)
    modifies heap`realSize
    ensures heap.State() == old(heap.State())
    ensures heap.Books() == old(heap.Books()).(realSize := old(heap.Books()).realSize - CHUNK_SIZE)
  {
    heap.realSize := heap.realSize - CHUNK_SIZE;
  }

  /** The first cached chunk goes back to the operating system. */
  method TrimOne(heap: Heap)
    requires Valid(heap) && heap.State().cached != []
    modifies heap`cached, heap`chunks, heap`mapped, heap`cachedCount, heap`realSize
    ensures Valid(heap) && heap.State() == TrimStep(old(heap.State()))
    ensures heap.Books().realSize == old(heap.Books()).realSize - CHUNK_SIZE
  {
    ghost var s, l := heap.State(), heap.Books();
    SoundTrim(s);
    FirstCached(s);
    if s.cached[0] in s.live && s.live[s.cached[0]].Huge? {
      HugeNotChunk(s, s.cached[0]);
    }
    BalancedTrim(s, l);
    CachedOutside(s);
    DropCached(heap);
    LessReal(heap);
    OccupiedStays(s, heap.State(), 0);
  }

  /** zend_set_memory_limit. When the limit lies below what is mapped, cached chunks are released, as many as
      needed; the new limit is then not stored. Without enough of them nothing changes and the call fails. */
  method SetMemoryLimit(heap: Heap, limit: nat) returns (ok: bool)
    requires Valid(heap)
    modifies heap`cached, heap`chunks, heap`mapped, heap`cachedCount, heap`realSize, heap`limit
    ensures Valid(heap) && heap.State().live == old(heap.State()).live && heap.State().mem == old(heap.State()).mem
    ensures ok <==> old(heap.realSize - heap.cachedCount * CHUNK_SIZE) <= limit
    ensures ok ==> heap.realSize <= limit
    ensures heap.limit == if old(heap.realSize) <= limit then limit else old(heap.limit)
    ensures !ok || old(heap.realSize) <= limit ==> heap.State() == old(heap.State()) && heap.realSize == old(heap.realSize)
    ensures heap.realSize <= old(heap.realSize)
    ensures ok && limit < old(heap.realSize) ==> limit < heap.realSize + CHUNK_SIZE
  {
    ghost var s := heap.State();
    BalancedIs(s, heap.Books());
    if limit < heap.realSize {
      if limit >= heap.realSize - heap.cachedCount * CHUNK_SIZE {
        TrimOne(heap);
        while limit < heap.realSize
          invariant Valid(heap) && heap.State().live == s.live && heap.State().mem == s.mem
          invariant heap.realSize - |heap.State().cached| * CHUNK_SIZE == old(heap.realSize - heap.cachedCount * CHUNK_SIZE)
          invariant limit < heap.realSize + CHUNK_SIZE && heap.limit == old(heap.limit) && heap.realSize <= old(heap.realSize)
          decreases |heap.cached|
        {
          TrimOne(heap);
        }
        return true;
      }
      return false;
    }
    heap.limit := limit;
    return true;
  }

  // ---------- zend_mm_shutdown ----------

  /** What the operating system has mapped while the heap is being taken down: the chunks of the cache list
      and the ring, and the huge blocks still on the list. */
  ghost predicate OnlyMapped(mapped: map<int, int>, ring: seq<int>, cached: seq<int>, list: seq<HugeNode>) {
    && (forall b :: b in ring || b in cached ==> b in mapped && mapped[b] == CHUNK_SIZE)
    && (forall a :: a in mapped ==> a in ring || a in cached || Listed(list, a))
  }

  /** Ring and cache list hold different chunks, aligned and mapped in memory. */
  ghost predicate Apart(ring: seq<int>, cached: seq<int>, chunks: ChunkMap) {
    && NoDup(ring) && NoDup(cached) && (forall b :: b in ring ==> b !in cached)
    && (forall b :: b in chunks <==> b in ring || b in cached)
    && (forall b :: b in chunks ==> 0 < b && b % CHUNK_SIZE == 0)
  }

  lemma ShutdownStarts(s: State, l: Ledger, list: seq<HugeNode>)
    requires Sound(s) && Balanced(s, l) && ListOk(list, s.live)
    ensures OnlyMapped(l.mapped, s.ring, s.cached, list) && Apart(s.ring, s.cached, s.chunks)
    ensures forall i :: 0 <= i < |list| ==> list[i].ptr !in s.chunks
    ensures s.ring != [] && l.cachedCount == |s.cached|
  {
    SoundIs(s);
    BalancedIs(s, l);
    ListIs(list, s.live);
    forall b | b in s.chunks
      ensures 0 < b && b % CHUNK_SIZE == 0
    {
      assert b in s.ring || b in s.cached;
    }
  }

  lemma RestListed(list: seq<HugeNode>, a: int)
    requires list != [] && Listed(list, a)
    ensures a == list[0].ptr || Listed(list[1..], a)
  {
    var i :| 0 <= i < |list| && list[i].ptr == a;
    if i > 0 {
      assert list[1..][i - 1].ptr == a;
    }
  }

  lemma UnmapListed(mapped: map<int, int>, ring: seq<int>, cached: seq<int>, list: seq<HugeNode>)
    requires list != [] && OnlyMapped(mapped, ring, cached, list) && list[0].ptr !in ring && list[0].ptr !in cached
    ensures OnlyMapped(mapped - {list[0].ptr}, ring, cached, list[1..])
  {
    forall a | a in mapped - {list[0].ptr} && Listed(list, a)
      ensures Listed(list[1..], a)
    {
      RestListed(list, a);
    }
  }

  /** Free all huge blocks. */
  method FreeAllHuge(heap: Heap)
    requires OnlyMapped(heap.mapped, heap.ring, heap.cached, heap.hugeList)
    requires forall i :: 0 <= i < |heap.hugeList| ==> heap.hugeList[i].ptr !in heap.ring && heap.hugeList[i].ptr !in heap.cached
    modifies heap`hugeList, heap`mapped
    ensures heap.hugeList == [] && OnlyMapped(heap.mapped, heap.ring, heap.cached, [])
  {
    var list := heap.hugeList;
    heap.hugeList := [];
    while list != []
      invariant OnlyMapped(heap.mapped, heap.ring, heap.cached, list) && heap.hugeList == []
      invariant forall i :: 0 <= i < |list| ==> list[i].ptr !in heap.ring && list[i].ptr !in heap.cached
      decreases |list|
    {
      UnmapListed(heap.mapped, heap.ring, heap.cached, list);
      heap.ChunkFree(list[0].ptr);
      list := list[1..];
    }
  }

  /** The ring without its chunk at position 1, which goes to the head of the cache list. */
  lemma StepToCache(ring: seq<int>, cached: seq<int>, chunks: ChunkMap, mapped: map<int, int>)
    requires Apart(ring, cached, chunks) && OnlyMapped(mapped, ring, cached, []) && |ring| > 1
    ensures Apart([ring[0]] + ring[2..], [ring[1]] + cached, chunks)
    ensures OnlyMapped(mapped, [ring[0]] + ring[2..], [ring[1]] + cached, [])
  {
    var r, c := [ring[0]] + ring[2..], [ring[1]] + cached;
    assert ring == [ring[0], ring[1]] + ring[2..];
    assert forall b :: b in ring <==> b in r || b == ring[1];
    assert forall b :: b in c <==> b in cached || b == ring[1];
    ConsNoDup(ring[1], cached);
    assert forall j :: 1 <= j < |r| ==> r[j] == ring[j + 1];
  }

  /** Move all chunks but the first into the cache list. */
  method CacheAll(heap: Heap)
    requires heap.ring != [] && heap.cachedCount == |heap.cached| && Apart(heap.ring, heap.cached, heap.chunks)
    requires OnlyMapped(heap.mapped, heap.ring, heap.cached, [])
    modifies heap`ring, heap`cached, heap`chunksCount, heap`cachedCount
    ensures heap.ring == [old(heap.ring)[0]] && heap.cachedCount == |heap.cached|
    ensures |heap.cached| == |old(heap.cached)| + |old(heap.ring)| - 1
    ensures Apart(heap.ring, heap.cached, heap.chunks) && OnlyMapped(heap.mapped, heap.ring, heap.cached, [])
  {
    while |heap.ring| > 1
      invariant heap.ring != [] && heap.ring[0] == old(heap.ring)[0] && heap.cachedCount == |heap.cached|
      invariant |heap.cached| + |heap.ring| == |old(heap.cached)| + |old(heap.ring)|
      invariant Apart(heap.ring, heap.cached, heap.chunks) && OnlyMapped(heap.mapped, heap.ring, heap.cached, [])
      decreases |heap.ring|
    {
      StepToCache(heap.ring, heap.cached, heap.chunks, heap.mapped);
      var p := heap.ring[1];
      heap.ring := [heap.ring[0]] + heap.ring[2..];
      heap.cached := [p] + heap.cached;
      heap.chunksCount := heap.chunksCount - 1;
      heap.cachedCount := heap.cachedCount + 1;
    }
    assert heap.ring == [heap.ring[0]];
  }

  lemma StepUnmap(ring: seq<int>, cached: seq<int>, chunks: ChunkMap, mapped: map<int, int>)
    requires Apart(ring, cached, chunks) && OnlyMapped(mapped, ring, cached, []) && cached != []
    ensures Apart(ring, cached[1..], chunks - {cached[0]})
    ensures OnlyMapped(mapped - {cached[0]}, ring, cached[1..], [])
  {
    assert cached == [cached[0]] + cached[1..];
    assert forall b :: b in cached <==> b == cached[0] || b in cached[1..];
  }

  /** Drop cached chunks while there are more than usual; with `all`, drop them to the last. */
  method DropSome(heap: Heap, all: bool)
    requires heap.cachedCount == |heap.cached| && Apart(heap.ring, heap.cached, heap.chunks)
    requires OnlyMapped(heap.mapped, heap.ring, heap.cached, [])
    modifies heap`cached, heap`chunks, heap`mapped, heap`cachedCount
    ensures heap.cachedCount == |heap.cached| && Apart(heap.ring, heap.cached, heap.chunks)
    ensures OnlyMapped(heap.mapped, heap.ring, heap.cached, [])
    ensures heap.cached == [] || (!all && heap.cachedCount as real + 0.9 <= heap.avgChunks)
    ensures |heap.cached| <= |old(heap.cached)| && heap.cached == old(heap.cached)[|old(heap.cached)| - |heap.cached|..]
    ensures |heap.cached| < |old(heap.cached)| ==> all || (heap.cachedCount + 1) as real + 0.9 > heap.avgChunks
  {
    while heap.cached != [] && (all || heap.cachedCount as real + 0.9 > heap.avgChunks)
      invariant heap.cachedCount == |heap.cached| && Apart(heap.ring, heap.cached, heap.chunks)
      invariant OnlyMapped(heap.mapped, heap.ring, heap.cached, [])
      invariant |heap.cached| <= |old(heap.cached)| && heap.cached == old(heap.cached)[|old(heap.cached)| - |heap.cached|..]
      invariant |heap.cached| < |old(heap.cached)| ==> all || (heap.cachedCount + 1) as real + 0.9 > heap.avgChunks
      decreases |heap.cached|
    {
      StepUnmap(heap.ring, heap.cached, heap.chunks, heap.mapped);
      DropCached(heap);
    }
  }

  /** Zero the headers of the cached chunks. */
  method ClearCached(heap: Heap)
    requires Apart(heap.ring, heap.cached, heap.chunks)
    modifies heap`chunks
    ensures Apart(heap.ring, heap.cached, heap.chunks)
    ensures forall b :: b in heap.cached ==> b in heap.chunks && heap.chunks[b] == ZeroChunk()
  {
    var list := heap.cached;
    ghost var chunks := heap.chunks;
    assert forall b :: b in list ==> b in chunks;
    var i := 0;
    while i < |list|
      invariant 0 <= i <= |list| && heap.chunks.Keys == chunks.Keys
      invariant forall j :: 0 <= j < i ==> list[j] in heap.chunks && heap.chunks[list[j]] == ZeroChunk()
    {
      assert list[i] in list && list[i] in chunks;
      heap.chunks := heap.chunks[list[i] := ZeroChunk()];
      i := i + 1;
    }
  }

  method ResetCounters(heap: Heap)
    modifies heap`size, heap`peak, heap`realSize, heap`realPeak, heap`chunksCount, heap`peakChunks
    modifies heap`deleteBoundary, heap`deleteCount, heap`due
    ensures heap.State() == old(heap.State()) && heap.size == heap.peak == 0
    ensures var l, bytes := old(heap.Books()), (old(heap.Books()).cachedCount + 1) * CHUNK_SIZE;
            heap.Books() == l.(realSize := bytes, realPeak := bytes, chunksCount := 1, due := 0)
    ensures heap.peakChunks == 1 && heap.deleteBoundary == heap.deleteCount == 0
  {
    heap.size, heap.peak := 0, 0;
    heap.realSize := (heap.cachedCount + 1) * CHUNK_SIZE;
    heap.realPeak := (heap.cachedCount + 1) * CHUNK_SIZE;
    heap.chunksCount, heap.peakChunks := 1, 1;
    heap.deleteBoundary, heap.deleteCount := 0, 0;
    heap.due := 0;
  }

  method ResetMain(heap: Heap, main: int)
    modifies heap`freeSlot, heap`chunks, heap`owner, heap`free, heap`live, heap`pending
    ensures heap.Books() == old(heap.Books())
    ensures var s := old(heap.State());
            heap.State() == s.(chunks := s.chunks[main := Init(ZeroChunk(), 0)], heads := Zeros(), owner := map[main := HeaderOnly()],
                               free := Empties(), live := map[], pending := 0)
  {
    heap.freeSlot := Zeros();
    heap.chunks := heap.chunks[main := Init(ZeroChunk(), 0)];
    heap.owner, heap.free, heap.live, heap.pending := map[main := HeaderOnly()], Empties(), map[], 0;
  }

  /** The heap's chunks are all there is, and they are clear: a heap to be started over. */
  ghost predicate Cleared(s: State, l: Ledger) {
    && |s.ring| == 1 && l.cachedCount == |s.cached| && Apart(s.ring, s.cached, s.chunks)
    && OnlyMapped(l.mapped, s.ring, s.cached, [])
    && forall b :: b in s.cached ==> b in s.chunks && s.chunks[b] == ZeroChunk()
  }

  /** The main chunk and the heap object are initialised again. */
  method StartOver(heap: Heap)
    requires Cleared(heap.State(), heap.Books()) && heap.hugeList == [] && !heap.lost
    modifies heap`size, heap`peak, heap`freeSlot, heap`realSize, heap`realPeak, heap`chunksCount, heap`peakChunks
    modifies heap`deleteBoundary, heap`deleteCount, heap`chunks, heap`owner, heap`free, heap`live, heap`pending, heap`due
    ensures Valid(heap) && heap.State().live == map[] && heap.size == heap.peak == 0
    ensures heap.realSize == heap.realPeak == (heap.cachedCount + 1) * CHUNK_SIZE
    ensures heap.chunksCount == heap.peakChunks == 1 && heap.deleteBoundary == heap.deleteCount == 0
  {
    ghost var s, l := heap.State(), heap.Books();
    ResetMain(heap, heap.ring[0]);
    ResetCounters(heap);
    EmptyAgain(s, l, heap.State(), heap.Books());
    EmptyValid(heap, heap.ring[0]);
  }

  lemma EmptyAgain(s: State, l: Ledger, u: State, m: Ledger)
    requires Cleared(s, l)
    requires u == s.(chunks := s.chunks[s.ring[0] := Init(ZeroChunk(), 0)], heads := Zeros(), owner := map[s.ring[0] := HeaderOnly()],
                     free := Empties(), live := map[], pending := 0)
    requires var bytes := (l.cachedCount + 1) * CHUNK_SIZE; m == l.(realSize := bytes, realPeak := bytes, chunksCount := 1, due := 0)
    ensures Empty(u, s.ring[0]) && EmptyBooks(u, m)
  {
    assert s.ring == [s.ring[0]];
    assert s.ring[0] in s.ring;
    assert forall a :: a in m.mapped ==> a in s.chunks;
  }

  /** From the cleared cache on. */
  method Restart(heap: Heap)
    requires |heap.ring| == 1 && heap.cachedCount == |heap.cached| && heap.hugeList == [] && !heap.lost
    requires Apart(heap.ring, heap.cached, heap.chunks) && OnlyMapped(heap.mapped, heap.ring, heap.cached, [])
    modifies heap`size, heap`peak, heap`freeSlot, heap`realSize, heap`realPeak, heap`chunksCount, heap`peakChunks
    modifies heap`deleteBoundary, heap`deleteCount, heap`chunks, heap`owner, heap`free, heap`live, heap`pending, heap`due
    ensures Valid(heap) && heap.State().live == map[] && heap.size == heap.peak == 0
    ensures heap.realSize == heap.realPeak == (heap.cachedCount + 1) * CHUNK_SIZE
    ensures heap.chunksCount == heap.peakChunks == 1 && heap.deleteBoundary == heap.deleteCount == 0
  {
    ClearCached(heap);
    StartOver(heap);
  }

  /** Everything but the first chunk is freed or cached. */
  method TakeDown(heap: Heap)
    requires Valid(heap)
    modifies heap`hugeList, heap`mapped, heap`ring, heap`cached, heap`chunksCount, heap`cachedCount
    ensures |heap.ring| == 1 && heap.cachedCount == |heap.cached| && heap.hugeList == []
    ensures Apart(heap.ring, heap.cached, heap.chunks) && OnlyMapped(heap.mapped, heap.ring, heap.cached, [])
    ensures old(heap.ring) != [] && heap.ring[0] == old(heap.ring)[0]
    ensures heap.cachedCount == old(heap.cachedCount) + |old(heap.ring)| - 1
  {
    ShutdownStarts(heap.State(), heap.Books(), heap.hugeList);
    FreeAllHuge(heap);
    CacheAll(heap);
  }

  lemma LastUnmapped(mapped: map<int, int>, ring: seq<int>, cached: seq<int>)
    requires |ring| == 1 && cached == [] && OnlyMapped(mapped, ring, cached, [])
    ensures mapped - {ring[0]} == map[]
  {
    assert forall a :: a !in (mapped - {ring[0]}).Keys;
  }

  /** zend_mm_shutdown(full): nothing stays mapped, the heap object included. */
  method ShutdownFull(heap: Heap)
    requires Valid(heap)
    modifies heap
    ensures heap.mapped == map[] && heap.lost
  {
    TakeDown(heap);
    DropSome(heap, true);
    LastUnmapped(heap.mapped, heap.ring, heap.cached);
    heap.ChunkFree(heap.ring[0]);
    heap.lost := true;
  }

  /** The average of the chunks that requests need, and no more cached ones than that. */
  method KeepAverage(heap: Heap)
    requires heap.cachedCount == |heap.cached| && Apart(heap.ring, heap.cached, heap.chunks)
    requires OnlyMapped(heap.mapped, heap.ring, heap.cached, [])
    modifies heap`cached, heap`chunks, heap`mapped, heap`cachedCount, heap`avgChunks
    ensures heap.cachedCount == |heap.cached| && Apart(heap.ring, heap.cached, heap.chunks)
    ensures OnlyMapped(heap.mapped, heap.ring, heap.cached, [])
    ensures heap.avgChunks == (old(heap.avgChunks) + heap.peakChunks as real) / 2.0
    ensures heap.cached == [] || heap.cachedCount as real + 0.9 <= heap.avgChunks
    ensures heap.cachedCount <= old(heap.cachedCount)
    ensures heap.cachedCount < old(heap.cachedCount) ==> (heap.cachedCount + 1) as real + 0.9 > heap.avgChunks
  {
    heap.avgChunks := (heap.avgChunks + heap.peakChunks as real) / 2.0;
    DropSome(heap, false);
  }

  /** Everything but the first chunk is freed or cached, and cached chunks beyond the average are freed. */
  method WindDown(heap: Heap)
    requires Valid(heap)
    modifies heap`hugeList, heap`mapped, heap`ring, heap`cached, heap`chunks, heap`chunksCount, heap`cachedCount, heap`avgChunks
    ensures |heap.ring| == 1 && heap.cachedCount == |heap.cached| && heap.hugeList == []
    ensures Apart(heap.ring, heap.cached, heap.chunks) && OnlyMapped(heap.mapped, heap.ring, heap.cached, [])
    ensures heap.avgChunks == (old(heap.avgChunks) + heap.peakChunks as real) / 2.0
    ensures heap.cached == [] || heap.cachedCount as real + 0.9 <= heap.avgChunks
    ensures old(heap.ring) != [] && heap.ring[0] == old(heap.ring)[0]
    ensures heap.cachedCount <= old(heap.cachedCount) + |old(heap.ring)| - 1
    ensures heap.cachedCount < old(heap.cachedCount) + |old(heap.ring)| - 1 ==>
              (heap.cachedCount + 1) as real + 0.9 > heap.avgChunks
  {
    TakeDown(heap);
    KeepAverage(heap);
  }

  /** zend_mm_shutdown at the end of a request: nothing is handed out, only chunks of the heap stay mapped, and
      exactly as many of them are cached as there are and requests need on average. */
  method Shutdown(heap: Heap)
    requires Valid(heap)
    modifies heap
    ensures Valid(heap) && heap.State().live == map[] && heap.limit == old(heap.limit)
    ensures heap.size == heap.peak == 0 && heap.realSize == heap.realPeak == (heap.cachedCount + 1) * CHUNK_SIZE
    ensures heap.realSize <= old(heap.realSize)
    ensures heap.chunksCount == heap.peakChunks == 1 && heap.deleteBoundary == heap.deleteCount == 0
    ensures heap.avgChunks == (old(heap.avgChunks) + old(heap.peakChunks) as real) / 2.0
    ensures heap.cached == [] || heap.cachedCount as real + 0.9 <= heap.avgChunks
    ensures heap.cachedCount <= old(heap.cachedCount) + |old(heap.ring)| - 1
    ensures heap.cachedCount < old(heap.cachedCount) + |old(heap.ring)| - 1 ==>
              (heap.cachedCount + 1) as real + 0.9 > heap.avgChunks
    ensures old(heap.ring) != [] && heap.ring == [old(heap.ring)[0]]
  {
    MappedAtLeast(heap.State(), heap.Books());
    WindDown(heap);
    Restart(heap);
  }

  lemma MappedAtLeast(s: State, l: Ledger)
    requires Balanced(s, l) && l.due == 0
    ensures CHUNK_SIZE * (|s.ring| + |s.cached|) <= l.realSize && l.cachedCount == |s.cached|
  {
    BalancedIs(s, l);
  }
}
