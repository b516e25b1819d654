/** Large blocks on the heap object: zend_mm_alloc_large, zend_mm_free_large and zend_mm_free_pages. */
module LargeAlloc {
  import opened Bitset
  import opened Bins
  import opened Chunks
  import opened Blocks
  import opened HeapInv
  import opened HeapSteps
  import opened HeapMem
  import opened HeapState
  import opened HeapChunks
  import opened HeapBooks
  import opened HeapObject
  import opened PageSteps
  import opened PageAlloc
  import opened SmallAlloc

  const MAX_LARGE_SIZE := CHUNK_SIZE - PAGE_SIZE

  /** ZEND_MM_SIZE_TO_NUM for pages. */
  function PagesFor(size: nat): (n: nat)
    ensures size <= n * PAGE_SIZE < size + PAGE_SIZE
  {
    (size + PAGE_SIZE - 1) / PAGE_SIZE
  }

  ghost method HandOutPages(heap: Heap, n: nat)
    modifies heap`live, heap`pending
    ensures heap.State() == HandOutStep(old(heap.State()), n) && heap.Books() == old(heap.Books())
  {
    heap.live := heap.live[heap.pending := Large(n)];
    heap.pending := 0;
  }

  lemma LargeQuiet(s: State, l: Ledger, t: State, a: int, n: nat)
    requires Balanced(s, l) && a !in s.live && t.live == s.live[a := Large(n)]
    requires |t.ring| == |s.ring| && |t.cached| == |s.cached| && t.chunks.Keys == s.chunks.Keys
    ensures Balanced(t, l)
  {
    SameHugePut(s.live, a, Large(n));
    BalancedQuiet(s, t, l);
  }

  method AllocLarge(heap: Heap, size: nat) returns (p: int)
    requires heap.Steady() && 0 < size <= MAX_LARGE_SIZE
    modifies heap`ring, heap`cached, heap`chunks, heap`owner, heap`mapped, heap`lost, heap`freeSlot, heap`mem, heap`free
    modifies heap`chunksCount, heap`cachedCount, heap`realSize, heap`deleteBoundary, heap`deleteCount
    modifies heap`realPeak, heap`peakChunks, heap`pending, heap`live, heap`size, heap`peak, heap`refusals
    ensures heap.lost ==> p == 0 && MainUnused(old(heap.State()))
    ensures !heap.lost ==> heap.Steady() && Gained(old(heap.State()), heap.State(), p, Large(PagesFor(size)))
    ensures heap.size == old(heap.size) + PagesFor(size) * PAGE_SIZE && heap.peak == Max(old(heap.peak), heap.size)
    ensures HasRun(old(heap.State()), PagesFor(size)) ==> p != 0
    ensures heap.Accounts()
    ensures p == 0 && !heap.lost ==> heap.refusals > old(heap.refusals) || heap.Full()
  {
    var n := PagesFor(size);
    ghost var at;
    p, at := AllocPages(heap, n);
    if p != 0 {
      ghost var u := heap.State();
      PendingPlace(u, n);
      SoundHandOut(u, n);
      HandOutPages(heap, n);
      LargeQuiet(u, heap.Books(), heap.State(), p, n);
      OccupiedStays(u, heap.State(), 0);
    }
    AddSize(heap, n * PAGE_SIZE);
  }

  // ---------- zend_mm_free_pages ----------

  method PutPages(heap: Heap, b: int, page: nat, n: nat)
    requires var s := heap.State(); b in s.chunks && b in s.owner && WellSized(s.chunks[b]) && |s.owner[b]| == PAGES
    requires page < PAGES && page + n <= PAGES && Base(b + page * PAGE_SIZE) == b && Page(b + page * PAGE_SIZE) == page
    modifies heap`chunks, heap`owner, heap`live
    ensures var s := old(heap.State());
            heap.State() == ResizeStep(s, b + page * PAGE_SIZE, Put(s.chunks[b], page, n), 0)
    ensures heap.Books() == old(heap.Books())
  {
    heap.live := heap.live - {b + page * PAGE_SIZE};
    heap.owner := heap.owner[b := Own(heap.owner[b], page, 0)];
    heap.chunks := heap.chunks[b := Put(heap.chunks[b], page, n)];
  }

  /** The heap after the large block at a has been given back, its chunk still in the ring. */
  ghost function PutStep(s: State, a: int, n: nat): State
    requires Base(a) in s.chunks && Base(a) in s.owner && WellSized(s.chunks[Base(a)]) && |s.owner[Base(a)]| == PAGES
    requires Page(a) + n <= PAGES
  {
    ResizeStep(s, a, Put(s.chunks[Base(a)], Page(a), n), 0)
  }

  lemma SoundPut(s: State, l: Ledger, a: int)
    requires Sound(s) && Balanced(s, l) && s.pending == 0 && a in s.live && s.live[a].Large?
    ensures var b, page, n := Base(a), Page(a), s.live[a].pages;
            && b in s.ring && b in s.chunks && b in s.owner && WellSized(s.chunks[b]) && |s.owner[b]| == PAGES
            && page + n <= PAGES && a == b + page * PAGE_SIZE && s.ring != []
            && Sound(PutStep(s, a, n)) && Balanced(PutStep(s, a, n), l)
  {
    LargePlace(s, a);
    SoundRing(s);
    var b, page, n := Base(a), Page(a), s.live[a].pages;
    PutTiled(s.chunks[b], s.owner[b], page);
    SoundResize(s, a, Put(s.chunks[b], page, n), 0);
    SameHugeDrop(s.live, a);
    BalancedQuiet(s, PutStep(s, a, n), l);
  }

  /** A chunk left with its header page only goes to the cache list or back to the operating system. */
  method DropChunk(heap: Heap, b: int)
    requires Sound(heap.State()) && Balanced(heap.State(), heap.Books()) && b in heap.State().ring && b != heap.State().ring[0]
    requires b in heap.State().chunks && heap.State().chunks[b].freePages == PAGES - FIRST_PAGE && OccupiedBut(heap.State(), b)
    modifies heap`ring, heap`cached, heap`chunks, heap`owner, heap`mapped
    modifies heap`chunksCount, heap`cachedCount, heap`realSize, heap`deleteBoundary, heap`deleteCount
    ensures Sound(heap.State()) && Balanced(heap.State(), heap.Books()) && Occupied(heap.State())
    ensures Dropped(old(heap.State()), heap.State(), b) && heap.realSize <= old(heap.realSize)
    ensures var count := old(heap.chunksCount) - 1;
            heap.cached == if (count + old(heap.cachedCount)) as real < heap.avgChunks + 0.1
                              || (count == old(heap.deleteBoundary) && 4 <= old(heap.deleteCount)) then [b] + old(heap.cached)
                           else if old(heap.cached) == [] || (old(heap.cached)[0] in old(heap.chunks)
                                   && old(heap.chunks)[b].num > old(heap.chunks)[old(heap.cached)[0]].num) then old(heap.cached)
                           else [b] + old(heap.cached)[1..]
  {
    ghost var s, l := heap.State(), heap.Books();
    SoundRing(s);
    BalancedIs(s, l);
    FirstCached(s);
    ghost var gone := heap.DeleteChunk(b);
    SoundLeave(s, b, heap.State().cached, gone);
    GoneOutside(s, b, heap.State().cached, gone);
    OccupiedLeave(s, b, heap.State().cached, gone);
    NoHugeGone(s, gone);
    BalancedLeave(s, l, b, heap.State().cached, gone);
  }

  lemma GoneOutside(s: State, b: int, cached: seq<int>, gone: set<int>)
    requires Sound(s) && Disposal(s, b, cached, gone)
    ensures forall d :: d in gone && d in s.ring ==> d == b
  {
    SoundRing(s);
    assert s.cached != [] ==> s.cached[0] in s.cached;
  }

  /** The chunk b has left the ring; the blocks stay. */
  ghost predicate Dropped(s: State, u: State, b: int) {
    && u.ring == Without(s.ring, b) && u.live == s.live && u.mem == s.mem && u.free == s.free && u.pending == s.pending
    && u.heads == s.heads
    && exists gone :: Disposal(s, b, u.cached, gone) && u == LeaveStep(s, b, u.cached, gone)
  }

  lemma FirstCached(s: State)
    requires Sound(s)
    ensures s.cached != [] ==> s.cached[0] in s.chunks
  {
    SoundRing(s);
    if s.cached != [] {
      assert s.cached[0] in s.cached;
    }
  }

  lemma NoHugeGone(s: State, gone: set<int>)
    requires Sound(s)
    ensures forall d :: d in gone && d in s.chunks && d in s.live ==> !s.live[d].Huge?
  {
    SoundIs(s);
  }

  /** The block at a is given back; a chunk that is not the main one and has no run left leaves the ring. */
  ghost predicate GivenBack(s: State, u: State, a: int, n: nat)
    requires Base(a) in s.chunks && Base(a) in s.owner && WellSized(s.chunks[Base(a)]) && |s.owner[Base(a)]| == PAGES
    requires Page(a) + n <= PAGES && s.ring != []
  {
    var t := PutStep(s, a, n);
    if Base(a) != s.ring[0] && t.chunks[Base(a)].freePages == PAGES - FIRST_PAGE then Dropped(t, u, Base(a)) else u == t
  }

  /** zend_mm_free_pages: the run of the large block at page `page` of chunk b. */
  method FreePages(heap: Heap, b: int, page: nat, n: nat)
    requires heap.Steady() && page < PAGES
    requires var s, a := heap.State(), b + page * PAGE_SIZE;
             Base(a) == b && Page(a) == page && a in s.live && s.live[a] == Large(n)
    modifies heap`ring, heap`cached, heap`chunks, heap`owner, heap`mapped, heap`live
    modifies heap`chunksCount, heap`cachedCount, heap`realSize, heap`deleteBoundary, heap`deleteCount
    ensures heap.Steady() && heap.realSize <= old(heap.realSize)
    ensures var s, a := old(heap.State()), b + page * PAGE_SIZE;
            && heap.State().live == s.live - {a} && heap.State().mem == s.mem
            && b in s.chunks && b in s.owner && WellSized(s.chunks[b]) && |s.owner[b]| == PAGES && page + n <= PAGES && s.ring != []
            && GivenBack(s, heap.State(), a, n)
    ensures var count := old(heap.chunksCount) - 1;
            var stays := b == old(heap.ring)[0] || old(heap.chunks)[b].freePages + n != PAGES - FIRST_PAGE;
            && heap.ring == (if stays then old(heap.ring) else Without(old(heap.ring), b))
            && heap.cached == if stays then old(heap.cached)
                              else if (count + old(heap.cachedCount)) as real < heap.avgChunks + 0.1
                                 || (count == old(heap.deleteBoundary) && 4 <= old(heap.deleteCount)) then [b] + old(heap.cached)
                              else if old(heap.cached) == [] || (old(heap.cached)[0] in old(heap.chunks)
                                      && old(heap.chunks)[b].num > old(heap.chunks)[old(heap.cached)[0]].num) then old(heap.cached)
                              else [b] + old(heap.cached)[1..]
  {
    ghost var s, a := heap.State(), b + page * PAGE_SIZE;
    SoundPut(s, heap.Books(), a);
    PutPages(heap, b, page, n);
    OccupiedPut(s, heap.State(), b);
    if b != heap.ring[0] && heap.chunks[b].freePages == PAGES - FIRST_PAGE {
      DropChunk(heap, b);
    } else {
      OccupiedAgain(heap.State(), b);
    }
  }

  lemma OccupiedPut(s: State, u: State, b: int)
    requires Occupied(s) && Sound(s) && u.ring == s.ring && b in s.chunks && b in u.chunks && u.chunks == s.chunks[b := u.chunks[b]]
    ensures OccupiedBut(u, b)
  {
    NoZeroChunk(s);
    OccupiedIs(s, 0);
    OccupiedIs(u, b);
  }

  lemma OccupiedAgain(s: State, b: int)
    requires OccupiedBut(s, b) && Sound(s) && b in s.ring
    requires b in s.chunks && (b == s.ring[0] || s.chunks[b].freePages != PAGES - FIRST_PAGE)
    ensures Occupied(s)
  {
    SoundChunk(s, b);
    FreeAtMost(s.chunks[b], s.owner[b]);
    OccupiedIs(s, b);
    OccupiedIs(s, 0);
  }

  method FreeLarge(heap: Heap, b: int, page: nat, n: nat)
    requires heap.Steady() && page < PAGES
    requires var s, a := heap.State(), b + page * PAGE_SIZE;
             Base(a) == b && Page(a) == page && a in s.live && s.live[a] == Large(n)
    modifies heap`ring, heap`cached, heap`chunks, heap`owner, heap`mapped, heap`live, heap`size
    modifies heap`chunksCount, heap`cachedCount, heap`realSize, heap`deleteBoundary, heap`deleteCount
    ensures heap.Steady() && heap.size == old(heap.size) - n * PAGE_SIZE && heap.realSize <= old(heap.realSize)
    ensures heap.State().live == old(heap.State()).live - {b + page * PAGE_SIZE} && heap.State().mem == old(heap.State()).mem
  {
    SubSize(heap, n * PAGE_SIZE);
    FreePages(heap, b, page, n);
  }
}
