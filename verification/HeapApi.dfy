/** The interface of the heap: zend_mm_alloc_heap, zend_mm_free_heap and zend_mm_size. */
module HeapApi {
  import opened Bins
  import opened Chunks
  import opened Blocks
  import opened HeapInv
  import opened HeapMem
  import opened HeapState
  import opened HeapChunks
  import opened HeapBooks
  import opened HeapObject
  import opened HugeList
  import opened PageSteps
  import opened SmallAlloc
  import opened LargeAlloc
  import opened Pointers
  import opened HugeBlocks

  // ---------- allocation ----------

  /** The kind of block a request is served with. */
  function KindFor(size: nat): Kind {
    if size <= MAX_SMALL_SIZE then
      SmallestBin(size);
      Small(SmallSizeToBin(size))
    else if size <= MAX_LARGE_SIZE then Large(PagesFor(size))
    else Huge(AlignUp(size))
  }

  /** It holds the request, unless rounding a huge size up overflows. */
  lemma KindFits(size: nat)
    requires size < WORD_VALUES && (size <= AlignUp(size) || size <= MAX_LARGE_SIZE)
    ensures size <= Usable(KindFor(size))
    ensures match KindFor(size)
      case Small(bin) => size <= MAX_SMALL_SIZE && bin < BINS && size <= BinSize(bin) && (bin == 0 || BinSize(bin - 1) < size)
      case Large(n) => MAX_SMALL_SIZE < size <= MAX_LARGE_SIZE && size <= n * PAGE_SIZE < size + PAGE_SIZE
      case Huge(n) => MAX_LARGE_SIZE < size <= n < size + REAL_PAGE_SIZE && n % REAL_PAGE_SIZE == 0
  {
    if size <= MAX_SMALL_SIZE {
      SmallestBin(size);
    } else if MAX_LARGE_SIZE < size {
      AlignUpIs(size);
    }
  }

  /** A request that needs no new memory: a slot or a run for it is there. */
  ghost predicate CanServe(s: State, size: nat) {
    match KindFor(size)
    case Small(bin) => (bin < |s.free| && s.free[bin] != []) || HasRun(s, BinPages(bin))
    case Large(pages) => HasRun(s, pages)
    case Huge(_) => false
  }

  /** The block at p is new, with its list node when it is huge; all other blocks keep their places and bytes. */
  ghost predicate Got(s: State, u: State, p: int, k: Kind, node: int) {
    if k.Huge? then GainedListed(s, u, p, k.bytes, node) else p != 0 && Gained(s, u, p, k)
  }

  lemma GainedSize(s: State, u: State, p: int, k: Kind)
    requires Gained(s, u, p, k) && p != 0
    ensures Total(u.live, true) == Total(s.live, true) + Usable(k)
  {
    TotalPut(s.live, p, k, true);
  }

  lemma GainedSurvive(s: State, u: State, k: Kind)
    requires Gained(s, u, 0, k)
    ensures Survive(s, u)
  {
  }

  /** The small and the large case of zend_mm_alloc_heap. */
  method AllocInside(heap: Heap, size: nat) returns (p: int)
    requires Valid(heap) && size <= MAX_LARGE_SIZE
    modifies heap`ring, heap`cached, heap`chunks, heap`owner, heap`mapped, heap`lost, heap`freeSlot, heap`mem, heap`free
    modifies heap`chunksCount, heap`cachedCount, heap`realSize, heap`deleteBoundary, heap`deleteCount
    modifies heap`realPeak, heap`peakChunks, heap`pending, heap`live, heap`size, heap`peak, heap`refusals
    ensures heap.lost ==> p == 0 && MainUnused(old(heap.State()))
    ensures !heap.lost && p == 0 ==> heap.Steady() && Survive(old(heap.State()), heap.State())
    ensures p != 0 ==> Valid(heap) && Gained(old(heap.State()), heap.State(), p, KindFor(size))
    ensures heap.size == old(heap.size) + Usable(KindFor(size)) && heap.peak == Max(old(heap.peak), heap.size)
    ensures CanServe(old(heap.State()), size) ==> p != 0
    ensures heap.Accounts()
    ensures p == 0 && !heap.lost ==> heap.refusals > old(heap.refusals) || heap.Full()
  {
    ghost var s := heap.State();
    if size <= MAX_SMALL_SIZE {
      SmallestBin(size);
      p := AllocSmall(heap, SmallSizeToBin(size));
    } else {
      p := AllocLarge(heap, size);
    }
    if p != 0 {
      GainedSize(s, heap.State(), p, KindFor(size));
      ListPut(heap.hugeList, s.live, p, KindFor(size));
    } else if !heap.lost {
      GainedSurvive(s, heap.State(), KindFor(size));
    }
  }

  /** A heap within its memory limit stays within it; a huge block may exceed it by the chunk of its list node. */
  twostate predicate Limited(heap: Heap, size: nat)
    reads heap
  {
    old(heap.realSize) <= heap.limit < WORD_VALUES ==>
      heap.realSize <= if size <= MAX_LARGE_SIZE then heap.limit else heap.limit + CHUNK_SIZE
  }

  /** The limit leaves no room for a chunk, or for the block itself when it is huge. */
  ghost predicate NoRoomFor(heap: Heap, size: nat)
    reads heap
  {
    || heap.Full()
    || (MAX_LARGE_SIZE < size && (WORD_VALUES < size + REAL_PAGE_SIZE || AlignUp(size) > (heap.limit - heap.realSize) % WORD_VALUES))
  }

  /** zend_mm_alloc_heap. Address 0: the request failed, and the run of the program ends there. */
  method AllocHeap(heap: Heap, size: nat) returns (p: int, ghost node: int)
    requires Valid(heap) && size < WORD_VALUES
    modifies heap`ring, heap`cached, heap`chunks, heap`owner, heap`mapped, heap`lost, heap`freeSlot, heap`mem, heap`free
    modifies heap`chunksCount, heap`cachedCount, heap`realSize, heap`deleteBoundary, heap`deleteCount, heap`due
    modifies heap`realPeak, heap`peakChunks, heap`pending, heap`live, heap`size, heap`peak, heap`hugeList, heap`refusals
    ensures heap.lost ==> p == 0 && MainUnused(old(heap.State()))
    ensures !heap.lost && p == 0 ==> heap.Steady() && Survive(old(heap.State()), heap.State())
    ensures p != 0 ==> Valid(heap) && Got(old(heap.State()), heap.State(), p, KindFor(size), node)
    ensures p != 0 ==> size <= Usable(KindFor(size)) && (!KindFor(size).Huge? ==> node == 0)
    ensures p != 0 ==> heap.hugeList == if KindFor(size).Huge? then Added(old(heap.hugeList), HugeNode(node, p, AlignUp(size)))
                                        else old(heap.hugeList)
    ensures CanServe(old(heap.State()), size) ==> p != 0
    ensures old(heap.realSize) <= heap.limit < WORD_VALUES ==>
              heap.realSize <= if size <= MAX_LARGE_SIZE then heap.limit else heap.limit + CHUNK_SIZE
    ensures heap.refusals >= old(heap.refusals)
    ensures heap.realPeak == Max(old(heap.realPeak), heap.realSize) && (p != 0 ==> heap.peak == Max(old(heap.peak), heap.size))
    ensures old(heap.chunksCount) <= old(heap.peakChunks) ==> heap.peakChunks == Max(old(heap.peakChunks), heap.chunksCount)
    ensures p == 0 && !heap.lost && heap.refusals == old(heap.refusals) ==>
              || CHUNK_SIZE > (heap.limit - heap.realSize) % WORD_VALUES
              || (MAX_LARGE_SIZE < size && (WORD_VALUES < size + REAL_PAGE_SIZE || AlignUp(size) > (heap.limit - heap.realSize) % WORD_VALUES))
  {
    if size <= MAX_LARGE_SIZE {
      node := 0;
      KindFits(size);
      p := AllocInside(heap, size);
    } else {
      p, node := AllocHuge(heap, size);
    }
  }

  // ---------- freeing ----------

  method Unlist(heap: Heap, i: nat)
    requires i < |heap.hugeList|
    modifies heap`hugeList
    ensures heap.hugeList == old(heap.hugeList)[..i] + old(heap.hugeList)[i + 1..]
    ensures heap.State() == old(heap.State()) && heap.Books() == old(heap.Books())
  {
    heap.hugeList := heap.hugeList[..i] + heap.hugeList[i + 1..];
  }

  /** zend_mm_del_huge_block: the node of block a leaves the list and is freed. */
  method DelHugeBlock(heap: Heap, a: int) returns (bytes: nat, ghost node: int)
    requires Valid(heap) && a in heap.State().live && heap.State().live[a].Huge?
    modifies heap`ring, heap`cached, heap`chunks, heap`owner, heap`mapped, heap`live, heap`size, heap`freeSlot, heap`mem, heap`free
    modifies heap`chunksCount, heap`cachedCount, heap`realSize, heap`deleteBoundary, heap`deleteCount, heap`hugeList
    ensures heap.Steady() && heap.size == old(heap.size) - NODE_SIZE && heap.realSize <= old(heap.realSize)
    ensures var s := old(heap.State());
            && IsNode(old(heap.hugeList), node) && node != a && node in s.live && s.live[node] == Small(NODE_BIN)
            && s.live[a] == Huge(bytes) && heap.State().live == s.live - {node}
            && Untouched(heap.State().live, s.mem, heap.State().mem)
            && ListOk(heap.hugeList, s.live - {node} - {a})
    ensures forall d :: d != node ==> (IsNode(heap.hugeList, d) <==> IsNode(old(heap.hugeList), d))
  {
    NodeBin();
    ghost var list, s := heap.hugeList, heap.State();
    ListFind(list, s.live, a);
    var i: nat := 0;
    while heap.hugeList[i].ptr != a
      invariant i <= Position(list, a)
      decreases Position(list, a) - i
    {
      i := i + 1;
    }
    if i < Position(list, a) {
      NotBefore(list, a, i);
    }
    bytes := heap.hugeList[i].bytes;
    var n := heap.hugeList[i].node;
    node := n;
    ListDrop(list, s.live, i);
    forall d | d != n
      ensures IsNode(list[..i] + list[i + 1..], d) <==> IsNode(list, d)
    {
      DropNode(list, s.live, i, d);
    }
    Unlist(heap, i);
    FreeInChunk(heap, n);
  }

  /** The region of block a goes back to the operating system. */
  method UnmapHuge(heap: Heap, a: int, bytes: nat)
    requires heap.Steady() && a in heap.State().live && heap.State().live[a] == Huge(bytes)
    modifies heap`mapped, heap`realSize, heap`size, heap`live
    ensures heap.Steady() && heap.State() == old(heap.State()).(live := old(heap.State()).live - {a})
    ensures heap.size == old(heap.size) - bytes && heap.realSize == old(heap.realSize) - bytes
  {
    ghost var s := heap.State();
    SoundDropHuge(s, a);
    HugeNotChunk(s, a);
    BalancedUnmapHuge(s, heap.Books(), a);
    heap.ChunkFree(a);
    heap.realSize := heap.realSize - bytes;
    heap.size := heap.size - bytes;
    heap.live := heap.live - {a};
    OccupiedStays(s, heap.State(), 0);
  }

  lemma HugeNotChunk(s: State, a: int)
    requires Sound(s) && a in s.live && s.live[a].Huge?
    ensures a !in s.chunks
  {
    SoundIs(s);
  }

  lemma LostTwo(live: Live, a: int, b: int)
    requires a in live && b in live && a != b
    ensures Total(live - {a} - {b}, true) == Total(live, true) - Usable(live[a]) - Usable(live[b])
  {
    TotalWithout(live, a, true);
    TotalWithout(live - {a}, b, true);
  }

  method FreeHuge(heap: Heap, a: int) returns (ghost node: int)
    requires Valid(heap) && a in heap.State().live && heap.State().live[a].Huge?
    modifies heap`ring, heap`cached, heap`chunks, heap`owner, heap`mapped, heap`live, heap`size, heap`freeSlot, heap`mem, heap`free
    modifies heap`chunksCount, heap`cachedCount, heap`realSize, heap`deleteBoundary, heap`deleteCount, heap`hugeList
    ensures Valid(heap) && IsNode(old(heap.hugeList), node)
    ensures heap.realSize <= old(heap.realSize) - Usable(old(heap.State()).live[a])
    ensures heap.State().live == old(heap.State()).live - {node} - {a}
    ensures Untouched(heap.State().live, old(heap.State()).mem, heap.State().mem)
    ensures forall d :: d != node ==> (IsNode(heap.hugeList, d) <==> IsNode(old(heap.hugeList), d))
  {
    ghost var s := heap.State();
    var bytes;
    bytes, node := DelHugeBlock(heap, a);
    NodeBin();
    LostTwo(s.live, node, a);
    UnmapHuge(heap, a, bytes);
  }

  /** The blocks after freeing a: its list node goes with a huge block. */
  ghost predicate Freed(s: State, u: State, a: int, list: seq<HugeNode>, node: int) {
    && u.live == (if a != 0 && a in s.live && s.live[a].Huge? then s.live - {node} - {a} else s.live - {a})
    && (a in s.live && s.live[a].Huge? ==> IsNode(list, node))
    && Untouched(u.live, s.mem, u.mem)
  }

  /** zend_mm_free_heap: the address alone decides what is freed. */
  method FreeHeap(heap: Heap, a: int) returns (ghost node: int)
    requires Valid(heap) && (a == 0 || (a in heap.State().live && !IsNode(heap.hugeList, a)))
    modifies heap`ring, heap`cached, heap`chunks, heap`owner, heap`mapped, heap`live, heap`size, heap`freeSlot, heap`mem, heap`free
    modifies heap`chunksCount, heap`cachedCount, heap`realSize, heap`deleteBoundary, heap`deleteCount, heap`hugeList
    ensures Valid(heap)
    ensures a == 0 ==> heap.State() == old(heap.State()) && heap.realSize == old(heap.realSize)
    ensures a != 0 ==> heap.realSize <= old(heap.realSize) - match old(heap.State()).live[a] case Huge(n) => n case _ => 0
    ensures a != 0 ==> Freed(old(heap.State()), heap.State(), a, old(heap.hugeList), node)
    ensures forall d :: d in heap.State().live ==> (IsNode(heap.hugeList, d) <==> IsNode(old(heap.hugeList), d))
  {
    node := 0;
    if Offset(a) == 0 {
      if a != 0 {
        PointerKind(heap.State(), a);
        node := FreeHuge(heap, a);
      }
    } else {
      ghost var s := heap.State();
      PointerKind(s, a);
      TotalWithout(s.live, a, true);
      ListLess(heap.hugeList, s.live, a);
      FreeInChunk(heap, a);
    }
  }

  // ---------- zend_mm_size ----------

  /** The usable size of every block, from its address alone. */
  method SizeOf(heap: Heap, a: int) returns (bytes: nat)
    requires Valid(heap) && a in heap.State().live
    ensures bytes == Usable(heap.State().live[a])
  {
    PointerKind(heap.State(), a);
    if Offset(a) == 0 {
      bytes := HugeSize(heap, a);
    } else {
      bytes := SizeInChunk(heap, a);
    }
  }

  /** zend_mm_get_huge_block_size. */
  method HugeSize(heap: Heap, a: int) returns (bytes: nat)
    requires Valid(heap) && a in heap.State().live && heap.State().live[a].Huge?
    ensures heap.State().live[a] == Huge(bytes)
  {
    ghost var list := heap.hugeList;
    ListFind(list, heap.State().live, a);
    var i: nat := 0;
    while heap.hugeList[i].ptr != a
      invariant i <= Position(list, a)
      decreases Position(list, a) - i
    {
      i := i + 1;
    }
    if i < Position(list, a) {
      NotBefore(list, a, i);
    }
    bytes := heap.hugeList[i].bytes;
  }
}
