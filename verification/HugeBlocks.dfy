/** Huge blocks on the heap object: zend_mm_alloc_huge, zend_mm_free_huge and the list of huge blocks. */
module HugeBlocks {
  import opened Bitset
  import opened Bins
  import opened Chunks
  import opened Blocks
  import opened HeapInv
  import opened HeapMem
  import opened HeapState
  import opened HeapChunks
  import opened HeapBooks
  import opened HeapObject
  import opened HugeList
  import opened GcTotals
  import opened PageSteps
  import opened PageAlloc
  import opened SmallAlloc
  import opened LargeAlloc
  import opened Pointers

  const REAL_PAGE_SIZE := 4096

  /** ZEND_MM_ALIGNED_SIZE_EX for pages of the operating system, in 64-bit arithmetic. */
  function AlignUp(size: nat): nat {
    (size + (REAL_PAGE_SIZE - 1)) % WORD_VALUES / REAL_PAGE_SIZE * REAL_PAGE_SIZE
  }

  lemma AlignUpIs(size: nat)
    requires 0 < size < WORD_VALUES
    ensures AlignUp(size) < size <==> WORD_VALUES < size + REAL_PAGE_SIZE
    ensures size <= AlignUp(size) ==> 0 < AlignUp(size) < size + REAL_PAGE_SIZE && AlignUp(size) % REAL_PAGE_SIZE == 0
  {
  }

  /** The statistics that follow the blocks handed out. */
  ghost predicate Sized(size: int, peak: int, live: Live) {
    size == Total(live, true) && size <= peak
  }

  /** The invariant of the heap between calls of its interface. */
  ghost predicate Valid(heap: Heap)
    reads heap
  {
    && heap.Steady() && heap.due == 0
    && ListOk(heap.hugeList, heap.State().live)
    && Sized(heap.size, heap.peak, heap.State().live)
  }

  // ---------- mapping a region ----------

  lemma CollectedUse(s: State, u: State, bytes: nat)
    requires Collected(s, u, bytes)
    ensures SameUse(s, u)
  {
    CollectedFewer(s, u, bytes);
  }

  lemma UseSelf(s: State)
    ensures SameUse(s, s)
  {
  }

  /** The memory limit leaves room for the block, after a collection if need be. */
  method RoomFor(heap: Heap, bytes: nat) returns (ok: bool)
    requires heap.Steady()
    modifies heap`ring, heap`cached, heap`chunks, heap`owner, heap`mapped, heap`lost, heap`freeSlot, heap`mem, heap`free
    modifies heap`chunksCount, heap`cachedCount, heap`realSize, heap`deleteBoundary, heap`deleteCount
    ensures heap.lost ==> !ok && MainUnused(old(heap.State()))
    ensures !heap.lost ==> heap.Steady() && SameUse(old(heap.State()), heap.State())
    ensures !heap.lost ==> (ok <==> bytes <= (heap.limit - heap.realSize) % WORD_VALUES)
    ensures heap.chunksCount <= old(heap.chunksCount)
    ensures heap.realSize <= old(heap.realSize)
  {
    UseSelf(heap.State());
    ok := true;
    if bytes > Minus(heap.limit, heap.realSize) {
      ghost var s := heap.State();
      var n := Collect(heap);
      ok := !heap.lost && n > 0 && bytes <= Minus(heap.limit, heap.realSize);
      if !heap.lost {
        CollectedUse(s, heap.State(), n);
      }
    }
  }

  /** The region is mapped: the heap owes it to the books until it is counted. */
  ghost method Owe(heap: Heap, a: int, bytes: nat)
    modifies heap`live, heap`due
    ensures heap.State() == old(heap.State()).(live := old(heap.State()).live[a := Huge(bytes)])
    ensures heap.Books() == old(heap.Books()).(due := old(heap.Books()).due + bytes)
  {
    heap.live := heap.live[a := Huge(bytes)];
    heap.due := heap.due + bytes;
  }

  /** A huge block appears at a. */
  ghost predicate GainedHuge(s: State, u: State, a: int, bytes: nat) {
    && (if a == 0 then u.live == s.live else a !in s.live && u.live == s.live[a := Huge(bytes)])
    && Untouched(s.live, s.mem, u.mem) && (MainUnused(u) ==> MainUnused(s))
  }

  /** Register a region just mapped; `l` are the books before. */
  ghost method Register(heap: Heap, a: int, bytes: nat, l: Ledger)
    requires Sound(heap.State()) && Balanced(heap.State(), l) && heap.State().pending == 0 && 0 < bytes
    requires Vacant(l.mapped, a, bytes) && heap.Books() == l.(mapped := l.mapped[a := bytes]) && Occupied(heap.State())
    modifies heap`live, heap`due
    ensures Occupied(heap.State())
    ensures Sound(heap.State()) && Balanced(heap.State(), heap.Books()) && heap.State().pending == 0
    ensures heap.Books() == old(heap.Books()).(due := old(heap.Books()).due + bytes)
    ensures GainedHuge(old(heap.State()), heap.State(), a, bytes) && a != 0
  {
    ghost var s := heap.State();
    VacantUnmapped(s, l, a, bytes);
    SoundAddHuge(s, a, bytes);
    BalancedMapHuge(s, l, a, bytes);
    Owe(heap, a, bytes);
    OccupiedStays(s, heap.State(), 0);
  }

  method TryMap(heap: Heap, bytes: nat) returns (a: int)
    requires heap.Steady() && 0 < bytes
    modifies heap`mapped, heap`live, heap`due, heap`refusals
    ensures heap.refusals == old(heap.refusals) + if a == 0 then 1 else 0
    ensures heap.Steady() && GainedHuge(old(heap.State()), heap.State(), a, bytes)
    ensures heap.due == old(heap.due) + (if a == 0 then 0 else bytes)
    ensures a == 0 ==> heap.State() == old(heap.State())
  {
    ghost var l := heap.Books();
    a := heap.ChunkAlloc(bytes);
    if a != 0 {
      Register(heap, a, bytes, l);
    }
  }

  lemma GainedLater(s: State, u: State, v: State, a: int, bytes: nat)
    requires SameUse(s, u) && GainedHuge(u, v, a, bytes)
    ensures GainedHuge(s, v, a, bytes)
  {
  }

  /** zend_mm_chunk_alloc for a huge block, with one collection when the operating system refuses. */
  method MapHuge(heap: Heap, bytes: nat) returns (a: int)
    requires heap.Steady() && 0 < bytes
    modifies heap`ring, heap`cached, heap`chunks, heap`owner, heap`mapped, heap`lost, heap`freeSlot, heap`mem, heap`free
    modifies heap`chunksCount, heap`cachedCount, heap`realSize, heap`deleteBoundary, heap`deleteCount, heap`live, heap`due
    modifies heap`refusals
    ensures heap.chunksCount <= old(heap.chunksCount)
    ensures heap.realSize <= old(heap.realSize)
    ensures if a == 0 then heap.refusals > old(heap.refusals) else heap.refusals >= old(heap.refusals)
    ensures heap.lost ==> a == 0 && MainUnused(old(heap.State()))
    ensures !heap.lost ==> heap.Steady() && GainedHuge(old(heap.State()), heap.State(), a, bytes)
    ensures !heap.lost ==> heap.due == old(heap.due) + (if a == 0 then 0 else bytes)
  {
    ghost var s := heap.State();
    a := TryMap(heap, bytes);
    if a == 0 {
      var n := Collect(heap);
      if !heap.lost {
        ghost var u := heap.State();
        CollectedUse(s, u, n);
        if n > 0 {
          a := TryMap(heap, bytes);
          GainedLater(s, u, heap.State(), a, bytes);
        }
      }
    }
  }

  // ---------- zend_mm_alloc_huge ----------

  /** zend_mm_add_huge_block. The node is a small block of the heap. */
  method AddHugeBlock(heap: Heap, a: int, bytes: nat) returns (node: int)
    requires heap.Steady()
    modifies heap`ring, heap`cached, heap`chunks, heap`owner, heap`mapped, heap`lost, heap`freeSlot, heap`mem, heap`free
    modifies heap`chunksCount, heap`cachedCount, heap`realSize, heap`deleteBoundary, heap`deleteCount
    modifies heap`realPeak, heap`peakChunks, heap`pending, heap`live, heap`size, heap`peak, heap`hugeList, heap`refusals
    ensures heap.lost ==> node == 0 && MainUnused(old(heap.State()))
    ensures !heap.lost ==> heap.Steady() && Gained(old(heap.State()), heap.State(), node, Small(NODE_BIN))
    ensures heap.size == old(heap.size) + NODE_SIZE && heap.peak == Max(old(heap.peak), heap.size)
    ensures heap.hugeList == if node == 0 then old(heap.hugeList) else Added(old(heap.hugeList), HugeNode(node, a, bytes))
    ensures heap.Accounts()
    ensures node == 0 && !heap.lost ==> heap.refusals > old(heap.refusals) || heap.Full()
  {
    NodeBin();
    node := AllocSmall(heap, SmallSizeToBin(NODE_SIZE));
    if node != 0 {
      heap.hugeList := Added(heap.hugeList, HugeNode(node, a, bytes));
    }
  }

  method CountHuge(heap: Heap, bytes: nat)
    requires heap.Steady() && heap.due == bytes
    modifies heap`realSize, heap`realPeak, heap`size, heap`peak, heap`due
    ensures heap.Steady() && heap.due == 0 && heap.State() == old(heap.State())
    ensures heap.realSize == old(heap.realSize) + bytes && heap.realPeak == Max(old(heap.realPeak), heap.realSize)
    ensures heap.size == old(heap.size) + bytes && heap.peak == Max(old(heap.peak), heap.size)
  {
    var size := heap.realSize + bytes;
    var peak := Max(heap.realPeak, size);
    BalancedPaid(heap.State(), heap.Books(), size, peak);
    heap.realSize, heap.realPeak := size, peak;
    heap.due := 0;
    AddSize(heap, bytes);
  }

  /** The heap value has gained the huge block at a and the node that lists it. */
  ghost predicate GainedListed(s: State, u: State, a: int, bytes: nat, node: int) {
    && a !in s.live && node !in s.live && a != node
    && u.live == s.live[a := Huge(bytes)][node := Small(NODE_BIN)]
    && Untouched(s.live, s.mem, u.mem)
  }

  lemma GainedBoth(s: State, t: State, u: State, a: int, bytes: nat, node: int)
    requires GainedHuge(s, t, a, bytes) && a != 0 && Gained(t, u, node, Small(NODE_BIN)) && node != 0
    ensures GainedListed(s, u, a, bytes, node)
    ensures Total(u.live, true) == Total(s.live, true) + bytes + NODE_SIZE
  {
    TotalPut(s.live, a, Huge(bytes), true);
    TotalPut(t.live, node, Small(NODE_BIN), true);
    NodeBin();
    forall d, x | d in s.live && d <= x < d + Usable(s.live[d])
      ensures Load(u.mem, x) == Load(s.mem, x)
    {
      assert d in t.live && t.live[d] == s.live[d];
    }
  }

  /** What is left of the blocks of s when an allocation fails half way: all of them, untouched. */
  ghost predicate Survive(s: State, u: State) {
    && (forall d :: d in s.live ==> d in u.live && u.live[d] == s.live[d])
    && Untouched(s.live, s.mem, u.mem)
  }

  lemma SurviveBoth(s: State, t: State, u: State, a: int, bytes: nat, node: int)
    requires GainedHuge(s, t, a, bytes) && a != 0 && Gained(t, u, node, Small(NODE_BIN)) && node == 0
    ensures Survive(s, u)
  {
    forall d, x | d in s.live && d <= x < d + Usable(s.live[d])
      ensures Load(u.mem, x) == Load(s.mem, x)
    {
      assert d in t.live && t.live[d] == s.live[d];
    }
  }

  /** The huge block at a has been mapped; list and count it. s: the heap before. */
  method ListHuge(heap: Heap, a: int, bytes: nat, ghost s: State) returns (node: int)
    requires heap.Steady() && heap.due == bytes && a != 0 && GainedHuge(s, heap.State(), a, bytes)
    requires ListOk(heap.hugeList, s.live) && Sized(heap.size, heap.peak, s.live)
    modifies heap`ring, heap`cached, heap`chunks, heap`owner, heap`mapped, heap`lost, heap`freeSlot, heap`mem, heap`free
    modifies heap`chunksCount, heap`cachedCount, heap`realSize, heap`deleteBoundary, heap`deleteCount, heap`due
    modifies heap`realPeak, heap`peakChunks, heap`pending, heap`live, heap`size, heap`peak, heap`hugeList, heap`refusals
    ensures heap.lost ==> node == 0 && MainUnused(s)
    ensures !heap.lost && node == 0 ==> heap.Steady() && Survive(s, heap.State())
    ensures node != 0 ==> Valid(heap) && GainedListed(s, heap.State(), a, bytes, node)
    ensures node != 0 ==> heap.hugeList == Added(old(heap.hugeList), HugeNode(node, a, bytes))
    ensures node == 0 && !heap.lost ==> heap.refusals > old(heap.refusals) || heap.Full()
    ensures heap.realSize <= old(heap.realSize) + CHUNK_SIZE + (if node == 0 then 0 else bytes)
    ensures heap.refusals >= old(heap.refusals)
    ensures old(heap.chunksCount) <= old(heap.peakChunks) ==> heap.peakChunks == Max(old(heap.peakChunks), heap.chunksCount)
    ensures heap.realPeak == Max(old(heap.realPeak), heap.realSize) && (node != 0 ==> heap.peak == Max(old(heap.peak), heap.size))
  {
    ghost var t := heap.State();
    node := AddHugeBlock(heap, a, bytes);
    if node != 0 {
      GainedBoth(s, t, heap.State(), a, bytes, node);
      ListAdd(old(heap.hugeList), s.live, HugeNode(node, a, bytes));
      CountHuge(heap, bytes);
    } else if !heap.lost {
      SurviveBoth(s, t, heap.State(), a, bytes, node);
    }
  }

  lemma UseSurvives(s: State, u: State)
    requires SameUse(s, u)
    ensures Survive(s, u)
  {
  }

  /** The checks of zend_mm_alloc_huge: size, limit, operating system. Address 0: one of them failed. */
  method MapRoom(heap: Heap, size: nat) returns (a: int)
    requires heap.Steady() && 0 < size < WORD_VALUES
    modifies heap`ring, heap`cached, heap`chunks, heap`owner, heap`mapped, heap`lost, heap`freeSlot, heap`mem, heap`free
    modifies heap`chunksCount, heap`cachedCount, heap`realSize, heap`deleteBoundary, heap`deleteCount, heap`live, heap`due
    modifies heap`refusals
    ensures heap.chunksCount <= old(heap.chunksCount)
    ensures heap.realSize <= old(heap.realSize) && heap.refusals >= old(heap.refusals)
    ensures a == 0 && !heap.lost ==>
              || heap.refusals > old(heap.refusals) || WORD_VALUES < size + REAL_PAGE_SIZE
              || AlignUp(size) > (heap.limit - heap.realSize) % WORD_VALUES
    ensures a != 0 && old(heap.due) == 0 && old(heap.realSize) <= heap.limit < WORD_VALUES ==> heap.realSize + AlignUp(size) <= heap.limit
    ensures heap.lost ==> a == 0 && MainUnused(old(heap.State()))
    ensures !heap.lost ==> heap.Steady() && GainedHuge(old(heap.State()), heap.State(), a, AlignUp(size))
    ensures !heap.lost ==> heap.due == old(heap.due) + (if a == 0 then 0 else AlignUp(size))
    ensures a != 0 ==> size <= AlignUp(size)
  {
    AlignUpIs(size);
    var bytes := AlignUp(size);
    a := 0;
    ghost var s := heap.State();
    UseSelf(s);
    if size <= bytes {
      var ok := RoomFor(heap, bytes);
      if ok {
        ghost var r := heap.State();
        a := MapHuge(heap, bytes);
        if !heap.lost {
          GainedLater(s, r, heap.State(), a, bytes);
        }
      }
    }
  }

  method AllocHuge(heap: Heap, size: nat) returns (a: int, ghost node: int)
    requires Valid(heap) && 0 < size < WORD_VALUES
    modifies heap`ring, heap`cached, heap`chunks, heap`owner, heap`mapped, heap`lost, heap`freeSlot, heap`mem, heap`free
    modifies heap`chunksCount, heap`cachedCount, heap`realSize, heap`deleteBoundary, heap`deleteCount, heap`due
    modifies heap`realPeak, heap`peakChunks, heap`pending, heap`live, heap`size, heap`peak, heap`hugeList, heap`refusals
    ensures heap.lost ==> a == 0 && MainUnused(old(heap.State()))
    ensures !heap.lost && a == 0 ==> heap.Steady() && Survive(old(heap.State()), heap.State())
    ensures a != 0 ==> Valid(heap) && size <= AlignUp(size) && GainedListed(old(heap.State()), heap.State(), a, AlignUp(size), node)
    ensures a != 0 ==> heap.hugeList == Added(old(heap.hugeList), HugeNode(node, a, AlignUp(size)))
    ensures a == 0 && !heap.lost ==>
              || heap.refusals > old(heap.refusals) || heap.Full() || WORD_VALUES < size + REAL_PAGE_SIZE
              || AlignUp(size) > (heap.limit - heap.realSize) % WORD_VALUES
    ensures old(heap.realSize) <= heap.limit < WORD_VALUES ==> heap.realSize <= heap.limit + CHUNK_SIZE
    ensures heap.refusals >= old(heap.refusals)
    ensures old(heap.chunksCount) <= old(heap.peakChunks) ==> heap.peakChunks == Max(old(heap.peakChunks), heap.chunksCount)
    ensures heap.realPeak == Max(old(heap.realPeak), heap.realSize) && (a != 0 ==> heap.peak == Max(old(heap.peak), heap.size))
  {
    ghost var s := heap.State();
    BooksStart(s, heap.Books());
    node := 0;
    a := MapRoom(heap, size);
    if a != 0 {
      var n := ListHuge(heap, a, AlignUp(size), s);
      node := n;
      if n == 0 {
        a := 0;
      }
    }
  }
}
