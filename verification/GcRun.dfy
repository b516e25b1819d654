/** zend_mm_gc on the heap object. */
module GcRun {
  import opened Bins
  import opened Bitset
  import opened Chunks
  import opened Blocks
  import opened HeapInv
  import opened HeapMem
  import opened HeapState
  import opened HeapChunks
  import opened HeapBooks
  import opened HeapObject
  import opened GcCounts
  import opened Sweep
  import opened GcSteps
  import opened GcPhases
  import opened GcStart
  import opened GcWalk
  import opened GcTotals

  // ---------- the two walks over one free list ----------

  /** The free counter of the run of slot a. */
  function CounterOf(c: Chunk, a: int): int
    requires WellSized(c) && 0 <= HeaderPage(c, a) < PAGES && c.info[HeaderPage(c, a)].Srun?
  {
    c.info[HeaderPage(c, a)].counter
  }

  /** Find the run of the free slot p in the page map and count the slot there. */
  method CountSlot(heap: Heap, i: nat, p: int) returns (counter: nat)
    requires var c := heap.State().chunks;
             Base(p) in c && WellSized(c[Base(p)]) && 0 <= HeaderPage(c[Base(p)], p) < PAGES
             && c[Base(p)].info[HeaderPage(c[Base(p)], p)].Srun?
    modifies heap`chunks
    ensures counter == CounterOf(old(heap.State()).chunks[Base(p)], p) + 1
    ensures heap.State() == old(heap.State()).(chunks := CountOne(old(heap.State()).chunks, p, i))
    ensures heap.Books() == old(heap.Books())
  {
    var b, page := Base(p), Page(p);
    var info := heap.chunks[b].info[page];
    if info.Nrun? {
      page := page - info.offset;
      info := heap.chunks[b].info[page];
    }
    counter := info.counter + 1;
    heap.chunks := heap.chunks[b := SetInfo(heap.chunks[b], page, SrunEx(i, counter))];
  }

  /** Count the free slots of class i in the page map; `full` reports that some run may be all free. */
  method CountBin(heap: Heap, i: nat, ghost s: State) returns (full: bool)
    requires Sound(s) && i < BINS && Filtered(s, heap.State(), i)
    modifies heap`chunks
    ensures heap.State() == old(heap.State()).(chunks := heap.State().chunks) && heap.Books() == old(heap.Books())
    ensures i < |s.free| && Counted(old(heap.State()).chunks, heap.State().chunks, s.owner, i, s.free[i], |s.free[i]|)
    ensures !full ==> NoneFull(heap.State().chunks, s.owner, i)
  {
    ghost var t := heap.State();
    CountingStarts(s, t, i);
    ghost var list, k := s.free[i], 0;
    full := false;
    var p := heap.freeSlot[i];
    while p != 0
      invariant 0 <= k <= |list| && p == if k < |list| then list[k] else 0
      invariant Counting(s, t, heap.State().chunks, i, k, full)
      decreases |list| - k
    {
      CountingAt(s, t, heap.State().chunks, i, k, full);
      CountingSteps(s, t, heap.State().chunks, i, k, full);
      var counter := CountSlot(heap, i, p);
      if counter == BinElements(i) {
        full := true;
      }
      p := Load(heap.mem, p);
      k := k + 1;
    }
    CountingEnds(s, t, heap.State().chunks, i, full);
  }

  /** Make the place q (0: the list head) lead to `next`. */
  method RemoveSlot(heap: Heap, i: nat, q: int, next: int)
    requires i < |heap.freeSlot|
    modifies heap`freeSlot, heap`mem
    ensures q == 0 ==> heap.freeSlot == old(heap.freeSlot)[i := next] && heap.mem == old(heap.mem)
    ensures q != 0 ==> heap.freeSlot == old(heap.freeSlot) && heap.mem == StorePtr(old(heap.mem), q, next)
  {
    if q == 0 {
      heap.freeSlot := heap.freeSlot[i := next];
    } else {
      heap.mem := StorePtr(heap.mem, q, next);
    }
  }

  /** Unlink the slots of full runs from the free list of class i. */
  method WalkFreeList(heap: Heap, i: nat, ghost s: State, ghost t: State)
    requires i < |s.free| && Filtering(s, t, heap.chunks, i, 0, heap.mem, heap.freeSlot)
    requires i < |heap.freeSlot| && heap.freeSlot[i] == Head(s.free[i]) && 0 !in s.free[i]
    modifies heap`freeSlot, heap`mem
    ensures Filtering(s, t, heap.State().chunks, i, |s.free[i]|, heap.State().mem, heap.State().heads)
    ensures heap.State() == old(heap.State()).(mem := heap.State().mem, heads := heap.State().heads)
    ensures heap.Books() == old(heap.Books())
  {
    ghost var list, c, n := s.free[i], heap.chunks, 0;
    var q, p := 0, heap.freeSlot[i];
    while p != 0
      invariant 0 <= n <= |list| && p == (if n < |list| then list[n] else 0)
      invariant q == LastOf(s, c, i, n)
      invariant Filtering(s, t, c, i, n, heap.mem, heap.freeSlot)
      decreases |list| - n
    {
      FilteringAt(s, t, c, i, n, heap.mem, heap.freeSlot);
      FilteringSteps(s, t, c, i, n, heap.mem, heap.freeSlot, q);
      var counter := CounterOf(heap.chunks[Base(p)], p);
      var next := Load(heap.mem, p);
      if counter == BinElements(i) {
        RemoveSlot(heap, i, q, next);
      } else {
        q := p;
      }
      p := next;
      n := n + 1;
    }
  }

  ghost method SetFree(heap: Heap, i: nat, list: seq<int>)
    requires i < |heap.State().free|
    modifies heap`free
    ensures heap.State() == old(heap.State()).(free := old(heap.State()).free[i := list])
    ensures heap.Books() == old(heap.Books())
  {
    heap.free := heap.free[i := list];
  }

  method FilterBin(heap: Heap, i: nat, ghost s: State, ghost t: State)
    requires Sound(s) && i < BINS && Filtered(s, t, i) && i < |s.free|
    requires heap.State() == t.(chunks := heap.State().chunks)
    requires Counted(t.chunks, heap.State().chunks, s.owner, i, s.free[i], |s.free[i]|)
    modifies heap`freeSlot, heap`mem, heap`free
    ensures Filtered(s, heap.State(), i + 1) && heap.Books() == old(heap.Books())
  {
    ghost var c := heap.State().chunks;
    FilteringStarts(s, t, c, i);
    CountingStarts(s, t, i);
    WalkFreeList(heap, i, s, t);
    FilteringEnds(s, t, c, i, heap.State().mem, heap.State().heads);
    SetFree(heap, i, Kept(s.free[i], |s.free[i]|, c, s.owner, i));
  }

  /** Both walks, for every class. */
  method CountFreeSlots(heap: Heap)
    requires Sound(heap.State())
    modifies heap`chunks, heap`freeSlot, heap`mem, heap`free
    ensures Filtered(old(heap.State()), heap.State(), BINS) && heap.Books() == old(heap.Books())
  {
    ghost var s := heap.State();
    FilteredStart(s);
    var i: nat := 0;
    while i < BINS
      invariant i <= BINS && Filtered(s, heap.State(), i) && heap.Books() == old(heap.Books())
    {
      ghost var t := heap.State();
      var full := CountBin(heap, i, s);
      if full {
        FilterBin(heap, i, s, t);
      } else {
        FilterSkips(s, t, heap.State().chunks, i);
      }
      i := i + 1;
    }
  }

  // ---------- the walk over the ring ----------

  method StoreChunk(heap: Heap, b: int, c: Chunk, ghost o: seq<int>)
    modifies heap`chunks, heap`owner
    ensures heap.State() == SetChunk(old(heap.State()), b, c, o) && heap.Books() == old(heap.Books())
  {
    heap.chunks, heap.owner := heap.chunks[b := c], heap.owner[b := o];
  }

  /** Sweep the chunk at position i of the ring. `empty`: only its header page is left. */
  method SweepAt(heap: Heap, i: nat, ghost s: State, ghost t: State, ghost pages: nat) returns (n: nat, empty: bool)
    requires i < |heap.State().ring| && Walking(s, t, heap.State(), i, pages) && Balanced(heap.State(), heap.Books())
    requires Occupied(s) && PastOccupied(heap.State(), i)
    modifies heap`chunks, heap`owner
    ensures i < |heap.State().ring| == |old(heap.State()).ring|
    ensures Walking(s, t, heap.State(), i + 1, pages + n) && Balanced(heap.State(), heap.Books())
    ensures heap.State().ring[i] in heap.State().chunks
    ensures empty <==> heap.State().chunks[heap.State().ring[i]].freePages == PAGES - FIRST_PAGE
    ensures i == 0 ==> s.ring != [] && (empty <==> ChunkIdle(s, s.ring[0]))
    ensures i > 0 && empty ==> n > 0
    ensures PastOccupied(heap.State(), i) && (!empty ==> PastOccupied(heap.State(), i + 1))
  {
    ghost var u := heap.State();
    WalkingAt(s, t, u, i, pages);
    var b := heap.ring[i];
    var r: Chunk;
    ghost var p;
    r, n, p := SweepChunk(heap.chunks[b], heap.owner[b]);
    SweptOne(s, t, u, heap.Books(), i, pages, r, p, n);
    StoreChunk(heap, b, r, p);
    empty := r.freePages == PAGES - FIRST_PAGE;
  }

  /** The heap with the chunk at position i swept. */
  lemma SweptOne(s: State, t: State, u: State, l: Ledger, i: nat, pages: nat, r: Chunk, p: seq<int>, n: nat)
    requires i < |u.ring| && Walking(s, t, u, i, pages) && Balanced(u, l) && Occupied(s) && PastOccupied(u, i)
    requires u.ring[i] in u.chunks && u.ring[i] in u.owner && Tiled(u.chunks[u.ring[i]], u.owner[u.ring[i]])
    requires Tiled(r, p) && Swept(u.chunks[u.ring[i]], u.owner[u.ring[i]], r, p)
    requires n == r.freePages - u.chunks[u.ring[i]].freePages
    requires n == 0 <==> forall q :: 0 <= q < PAGES ==> !Spent(u.chunks[u.ring[i]], q)
    ensures var v := SetChunk(u, u.ring[i], r, p);
            && Walking(s, t, v, i + 1, pages + n) && Balanced(v, l)
            && PastOccupied(v, i) && (r.freePages != PAGES - FIRST_PAGE ==> PastOccupied(v, i + 1))
    ensures i == 0 ==> s.ring != [] && (r.freePages == PAGES - FIRST_PAGE <==> ChunkIdle(s, s.ring[0]))
    ensures i > 0 && r.freePages == PAGES - FIRST_PAGE ==> n > 0
  {
    SweptFirst(s, t, u, i, pages, r, p);
    if i > 0 {
      SweptSome(s, t, u, i, pages);
    }
    WalkingSweeps(s, t, u, i, pages, r, p, n);
    PastSweeps(u, i, r, p);
    BalancedQuiet(u, SetChunk(u, u.ring[i], r, p), l);
  }

  lemma SweptFirst(s: State, t: State, u: State, i: nat, pages: nat, r: Chunk, p: seq<int>)
    requires i < |u.ring| && Walking(s, t, u, i, pages)
    requires u.ring[i] in u.chunks && u.ring[i] in u.owner && Tiled(u.chunks[u.ring[i]], u.owner[u.ring[i]])
    requires Tiled(r, p) && Swept(u.chunks[u.ring[i]], u.owner[u.ring[i]], r, p)
    ensures NoDup(u.ring)
    ensures i == 0 ==> s.ring != [] && (r.freePages == PAGES - FIRST_PAGE <==> ChunkIdle(s, s.ring[0]))
  {
    WalkingAt(s, t, u, i, pages);
    EmptiedIffIdle(s, t, u.ring[i], r, p);
  }

  /** Delete the chunk at position i, which has just been swept and is empty. */
  method DeleteAt(heap: Heap, i: nat, ghost s: State, ghost t: State, ghost pages: nat)
    requires 0 < i < |heap.State().ring| && Walking(s, t, heap.State(), i + 1, pages) && Balanced(heap.State(), heap.Books())
    requires heap.State().ring[i] in heap.State().chunks
    requires heap.State().chunks[heap.State().ring[i]].freePages == PAGES - FIRST_PAGE && PastOccupied(heap.State(), i)
    modifies heap`ring, heap`cached, heap`chunks, heap`owner, heap`mapped
    modifies heap`chunksCount, heap`cachedCount, heap`realSize, heap`deleteBoundary, heap`deleteCount
    ensures |heap.State().ring| == |old(heap.State()).ring| - 1
    ensures Walking(s, t, heap.State(), i, pages) && Balanced(heap.State(), heap.Books())
    ensures PastOccupied(heap.State(), i) && heap.Books().realSize <= old(heap.Books()).realSize
    ensures heap.Books().chunksCount <= old(heap.Books()).chunksCount
  {
    ghost var u, l := heap.State(), heap.Books();
    var b := heap.ring[i];
    DeleteReady(s, t, u, i, pages, l);
    ghost var gone := heap.DeleteChunk(b);
    ghost var cached := heap.State().cached;
    WalkingLeaves(s, t, u, i, pages, cached, gone);
    PastLeaves(s, t, u, i, pages, cached, gone);
    WithoutIs(u.ring, b);
    BalancedLeave(u, l, b, cached, gone);
  }

  lemma DeleteReady(s: State, t: State, u: State, i: nat, pages: nat, l: Ledger)
    requires i < |u.ring| && Walking(s, t, u, i + 1, pages) && Balanced(u, l)
    ensures NoDup(u.ring) && u.ring[i] in u.ring && (u.cached != [] ==> u.cached[0] in u.chunks) && l.cachedCount == |u.cached|
  {
    WalkingIs(s, t, u, i + 1, pages);
    GcChunk(u, Waiting(u.ring, i + 1), u.ring[i]);
    if u.cached != [] {
      var d := u.cached[0];
      assert d in u.cached;
    }
    BalancedIs(u, l);
  }

  method LoseMain(heap: Heap)
    modifies heap`lost
    ensures heap.lost && heap.State() == old(heap.State()) && heap.Books() == old(heap.Books())
  {
    heap.lost := true;
  }

  /** One round of the walk: sweep the chunk at position i and, when it is empty, delete it. The code does
      not spare the main chunk: when no run is left in it, it is deleted like the others. */
  method SweepNext(heap: Heap, i: nat, ghost s: State, ghost t: State, ghost pages: nat) returns (n: nat, j: nat)
    requires i < |heap.State().ring| && Walking(s, t, heap.State(), i, pages) && Balanced(heap.State(), heap.Books()) && !heap.lost
    requires Occupied(s) && PastOccupied(heap.State(), i)
    modifies heap`ring, heap`cached, heap`chunks, heap`owner, heap`mapped, heap`lost
    modifies heap`chunksCount, heap`cachedCount, heap`realSize, heap`deleteBoundary, heap`deleteCount
    ensures s.ring != [] && (heap.lost <==> i == 0 && ChunkIdle(s, s.ring[0]))
    ensures !heap.lost ==> Walking(s, t, heap.State(), j, pages + n) && Balanced(heap.State(), heap.Books())
    ensures !heap.lost ==> j <= |heap.State().ring| && |heap.State().ring| - j == |old(heap.State()).ring| - i - 1
    ensures !heap.lost && i == 0 ==> j == 1
    ensures !heap.lost && i > 0 ==> j > 0
    ensures !heap.lost ==> PastOccupied(heap.State(), j)
    ensures heap.realSize <= old(heap.realSize) && (n == 0 && !heap.lost ==> heap.realSize == old(heap.realSize))
    ensures heap.chunksCount <= old(heap.chunksCount)
  {
    WalkingLength(s, t, heap.State(), i, pages);
    var empty;
    n, empty := SweepAt(heap, i, s, t, pages);
    j := i + 1;
    if empty {
      if i == 0 {
        LoseMain(heap);
      } else {
        DeleteAt(heap, i, s, t, pages + n);
        j := i;
      }
    }
  }

  /** The walk over the ring, main chunk first. */
  method SweepRing(heap: Heap, ghost s: State, ghost t: State) returns (pages: nat)
    requires Sound(s) && Occupied(s) && Filtered(s, t, BINS) && heap.State() == t && Balanced(t, heap.Books()) && !heap.lost
    modifies heap`ring, heap`cached, heap`chunks, heap`owner, heap`mapped, heap`lost
    modifies heap`chunksCount, heap`cachedCount, heap`realSize, heap`deleteBoundary, heap`deleteCount
    ensures s.ring != [] && (heap.lost <==> ChunkIdle(s, s.ring[0]))
    ensures !heap.lost ==> Walking(s, t, heap.State(), |heap.State().ring|, pages) && Balanced(heap.State(), heap.Books())
    ensures !heap.lost ==> PastOccupied(heap.State(), |heap.State().ring|)
    ensures heap.realSize <= old(heap.realSize) && (pages == 0 && !heap.lost ==> heap.realSize == old(heap.realSize))
    ensures heap.chunksCount <= old(heap.chunksCount)
  {
    WalkingStarts(s, t);
    WalkingLength(s, t, t, 0, 0);
    PastStarts(t);
    var i: nat;
    pages, i := SweepNext(heap, 0, s, t, 0);
    if heap.lost {
      return;
    }
    while i < |heap.ring|
      invariant Walking(s, t, heap.State(), i, pages) && Balanced(heap.State(), heap.Books()) && !heap.lost
      invariant 0 < i <= |heap.ring| && PastOccupied(heap.State(), i)
      invariant heap.realSize <= old(heap.realSize) && (pages == 0 ==> heap.realSize == old(heap.realSize))
      invariant heap.chunksCount <= old(heap.chunksCount)
      decreases |heap.ring| - i
    {
      var n;
      n, i := SweepNext(heap, i, s, t, pages);
      pages := pages + n;
    }
  }

  lemma WalkingLength(s: State, t: State, u: State, i: nat, pages: int)
    requires Walking(s, t, u, i, pages)
    ensures u.ring != [] && s.ring != []
  {
    WalkingIs(s, t, u, i, pages);
    SoundRing(s);
  }

  // ---------- zend_mm_gc ----------

  /** Releases every run whose slots are all free (classes 1 and up) and reports the bytes released. */
  method Gc(heap: Heap) returns (collected: nat)
    requires heap.Steady()
    modifies heap`ring, heap`cached, heap`chunks, heap`owner, heap`mapped, heap`lost, heap`freeSlot, heap`mem, heap`free
    modifies heap`chunksCount, heap`cachedCount, heap`realSize, heap`deleteBoundary, heap`deleteCount
    ensures old(heap.State()).ring != [] && (heap.lost <==> old(ChunkIdle(heap.State(), heap.State().ring[0])))
    ensures !heap.lost ==> Collected(old(heap.State()), heap.State(), collected)
    ensures !heap.lost ==> Sound(heap.State()) && Balanced(heap.State(), heap.Books()) && Occupied(heap.State())
    ensures heap.realSize <= old(heap.realSize) && (collected == 0 && !heap.lost ==> heap.realSize == old(heap.realSize))
    ensures heap.chunksCount <= old(heap.chunksCount)
  {
    ghost var s, l := heap.State(), heap.Books();
    CountFreeSlots(heap);
    ghost var t := heap.State();
    FilteredBalanced(s, t, l);
    var pages := SweepRing(heap, s, t);
    collected := pages * PAGE_SIZE;
    if !heap.lost {
      WalkingEnds(s, t, heap.State(), pages);
      PastEnds(heap.State());
    }
  }

  lemma FilteredBalanced(s: State, t: State, l: Ledger)
    requires Balanced(s, l) && Filtered(s, t, BINS)
    ensures Balanced(t, l)
  {
    BalancedQuiet(s, t, l);
  }
}
