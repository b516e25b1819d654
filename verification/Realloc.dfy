/** zend_mm_realloc_heap, zend_mm_realloc_huge and zend_mm_realloc_slow. */
module Realloc {
  import opened Bitset
  import opened Bins
  import opened Chunks
  import opened Blocks
  import opened HeapInv
  import opened HeapMem
  import opened HeapSteps
  import opened HeapState
  import opened HeapChunks
  import opened HeapBooks
  import opened HeapObject
  import opened HugeList
  import opened PageSteps
  import opened PageAlloc
  import opened SmallAlloc
  import opened LargeAlloc
  import opened Pointers
  import opened HugeBlocks
  import opened HeapApi
  import opened HeapWrite

  // ---------- what realloc promises ----------

  /** Sizes for which the block of this kind is kept as it is, or only gives pages back. */
  predicate StaysInPlace(k: Kind, size: nat) {
    match k
    case Small(bin) => size <= BinSize(bin) && (bin == 0 || BinSize(bin - 1) <= size)
    case Large(pages) => MAX_SMALL_SIZE < size <= MAX_LARGE_SIZE && PagesFor(size) <= pages
    case Huge(bytes) => MAX_LARGE_SIZE < size && AlignUp(size) == bytes
  }

  /** The kind of the block afterwards: a small one that is just right stays, all others are as for a new request. */
  function NewKind(k: Kind, size: nat): Kind {
    if k.Small? && StaysInPlace(k, size) then k else KindFor(size)
  }

  /** The greatest size of the heap while the block was moved, given the size afterwards: only where a small block
      moves to a smaller class is the new one counted on top of the old. */
  function PeakSize(k: Kind, size: nat, stays: bool, after: int): int {
    if k.Small? && !stays && size <= BinSize(k.bin) then after + BinSize(k.bin) else after
  }

  /** The pages behind the large block at a are in its chunk and free, up to `to` pages from its start. */
  ghost predicate FreeBehind(s: State, a: int, to: nat) {
    && a in s.live && s.live[a].Large? && s.live[a].pages <= to && Page(a) + to <= PAGES
    && Base(a) in s.chunks && WellSized(s.chunks[Base(a)])
    && AllClear(s.chunks[Base(a)].bits, Page(a) + s.live[a].pages, Page(a) + to)
  }

  /** Requests for which the block at a keeps its address. */
  ghost predicate KeptInPlace(s: State, a: int, size: nat) {
    && a in s.live
    && (StaysInPlace(s.live[a], size) ||
        (s.live[a].Large? && MAX_SMALL_SIZE < size <= MAX_LARGE_SIZE && FreeBehind(s, a, PagesFor(size))))
  }

  /** The block at a of s has become the block at p of u, of the class for `size` bytes and with the first `keep`
      bytes of its contents. `list` and `node`: the list of huge blocks before, and the node of the new one. */
  ghost predicate Moved(s: State, u: State, a: int, p: int, size: nat, keep: nat, list: seq<HugeNode>, node: int) {
    && a in s.live && p in u.live && u.live[p] == NewKind(s.live[a], size) && size <= Usable(u.live[p])
    && (p == a || p !in s.live) && p != node && node !in s.live
    && SameBytes(s.mem, a, u.mem, p, keep)
    && OthersStay(s, u, a, p, list)
    && (forall d :: d in u.live && d != p && d != node ==> d in s.live && d != a)
  }

  /** Every other block of the program keeps its address, kind and contents. */
  ghost predicate OthersStay(s: State, u: State, a: int, p: int, list: seq<HugeNode>) {
    forall d :: d in s.live && d != a && !IsNode(list, d) ==>
      && d in u.live && d != p && u.live[d] == s.live[d]
      && SameBytes(s.mem, d, u.mem, d, Usable(s.live[d]))
  }

  /** How many bytes realloc keeps. */
  function Keep(size: nat, before: nat, copy: nat): nat {
    Min(size, Min(before, copy))
  }

  // ---------- the copying paths ----------

  lemma UntouchedBytes(live: Live, m0: Memory, m1: Memory, d: int)
    requires Untouched(live, m0, m1) && d in live
    ensures SameBytes(m0, d, m1, d, Usable(live[d]))
  {
    forall i | 0 <= i < Usable(live[d])
      ensures Byte(m1, d, i) == Byte(m0, d, i)
    {
      assert Load(m1, d + i) == Load(m0, d + i);
    }
  }

  lemma SameBytesTwice(m0: Memory, a: int, m1: Memory, b: int, m2: Memory, c: int, n: nat)
    requires SameBytes(m0, a, m1, b, n) && SameBytes(m1, b, m2, c, n)
    ensures SameBytes(m0, a, m2, c, n)
  {
  }

  lemma FewerBytes(m0: Memory, a: int, m1: Memory, b: int, n: nat, k: nat)
    requires SameBytes(m0, a, m1, b, n) && k <= n
    ensures SameBytes(m0, a, m1, b, k)
  {
  }

  /** Nodes of the list are blocks handed out. */
  lemma NodesLive(list: seq<HugeNode>, live: Live, d: int)
    requires ListOk(list, live) && IsNode(list, d)
    ensures d in live
  {
    ListIs(list, live);
  }

  lemma AddedNode(list: seq<HugeNode>, n: HugeNode, d: int)
    ensures IsNode(Added(list, n), d) <==> d == n.node || IsNode(list, d)
  {
    var more := Added(list, n);
    assert more[0] == n;
    if IsNode(list, d) {
      var i :| 0 <= i < |list| && list[i].node == d;
      assert more[i + 1].node == d;
    }
    if IsNode(more, d) {
      var i :| 0 <= i < |more| && more[i].node == d;
      assert i > 0 ==> list[i - 1].node == d;
    }
  }

  /** The blocks of s0 keep their contents when a new one, p, is obtained in s1, filled in s2, and block a is
      freed in s3. */
  lemma OthersThrough(s0: State, s1: State, s2: State, s3: State, a: int, p: int, gone: int, list: seq<HugeNode>)
    requires (forall d :: d in s0.live ==> d != p && d in s1.live && s1.live[d] == s0.live[d])
    requires Untouched(s0.live, s0.mem, s1.mem) && s2.live == s1.live && Untouched(s1.live - {p}, s1.mem, s2.mem)
    requires s3.live == s2.live - {a} || (s3.live == s2.live - {gone} - {a} && (gone !in s0.live || IsNode(list, gone)))
    requires Untouched(s3.live, s2.mem, s3.mem)
    ensures OthersStay(s0, s3, a, p, list)
  {
    forall d | d in s0.live && d != a && !IsNode(list, d)
      ensures d in s3.live && s3.live[d] == s0.live[d] && SameBytes(s0.mem, d, s3.mem, d, Usable(s0.live[d]))
    {
      UntouchedBytes(s0.live, s0.mem, s1.mem, d);
      UntouchedBytes(s1.live - {p}, s1.mem, s2.mem, d);
      UntouchedBytes(s3.live, s2.mem, s3.mem, d);
    }
  }

  /** The new block's contents. */
  lemma BytesThrough(s0: State, s1: State, s2: State, s3: State, a: int, p: int, copy: nat)
    requires a in s0.live && copy <= Usable(s0.live[a]) && Untouched(s0.live, s0.mem, s1.mem)
    requires s2.mem == Copied(s1.mem, p, a, copy)
    requires p in s3.live && Untouched(s3.live, s2.mem, s3.mem) && copy <= Usable(s3.live[p])
    ensures SameBytes(s0.mem, a, s3.mem, p, copy)
  {
    UntouchedBytes(s0.live, s0.mem, s1.mem, a);
    FewerBytes(s0.mem, a, s1.mem, a, Usable(s0.live[a]), copy);
    UntouchedBytes(s3.live, s2.mem, s3.mem, p);
    FewerBytes(s2.mem, p, s3.mem, p, Usable(s3.live[p]), copy);
    SameBytesTwice(s0.mem, a, s1.mem, a, s2.mem, p, copy);
    SameBytesTwice(s0.mem, a, s2.mem, p, s3.mem, p, copy);
  }

  /** The list of huge blocks after the new block has been obtained. */
  function ListAfter(list: seq<HugeNode>, p: int, k: Kind, node: int): seq<HugeNode> {
    if k.Huge? then Added(list, HugeNode(node, p, k.bytes)) else list
  }

  /** A block of the program is not the node of the list it is not on. */
  lemma StillNoNode(s: State, u: State, p: int, k: Kind, node: int, list: seq<HugeNode>, a: int)
    requires Got(s, u, p, k, node) && a in s.live && !IsNode(list, a)
    ensures !IsNode(ListAfter(list, p, k, node), a) && a in u.live && a != p && u.live[a] == s.live[a]
    ensures p in u.live && u.live[p] == k
  {
    if k.Huge? {
      AddedNode(list, HugeNode(node, p, k.bytes), a);
    }
  }

  /** The node that goes is not the new block. */
  lemma MovedGone(s0: State, s1: State, s2: State, p: int, k: Kind, node: int, gone: int, list: seq<HugeNode>)
    requires ListOk(list, s0.live) && Got(s0, s1, p, k, node)
    ensures IsNode(ListAfter(list, p, k, node), gone) ==> gone != p
  {
    if IsNode(list, gone) {
      NodesLive(list, s0.live, gone);
    }
    if k.Huge? {
      AddedNode(list, HugeNode(node, p, k.bytes), gone);
    }
  }

  lemma MovedByCopy(s0: State, s1: State, s2: State, s3: State, a: int, p: int, k: Kind, node: int, gone: int,
                    size: nat, copy: nat, list: seq<HugeNode>)
    requires ListOk(list, s0.live) && a in s0.live && !IsNode(list, a) && copy <= Usable(s0.live[a]) && copy <= Usable(k)
    requires Got(s0, s1, p, k, node) && size <= Usable(k) && (!k.Huge? ==> node !in s0.live && node != p)
    requires k == NewKind(s0.live[a], size)
    requires s2 == s1.(mem := Copied(s1.mem, p, a, copy)) && Untouched(s1.live - {p}, s1.mem, s2.mem)
    requires Freed(s2, s3, a, ListAfter(list, p, k, node), gone) && a != 0
    ensures Moved(s0, s3, a, p, size, copy, list, node)
  {
    StillNoNode(s0, s1, p, k, node, list, a);
    if k.Huge? {
      AddedNode(list, HugeNode(node, p, k.bytes), gone);
    }
    MovedGone(s0, s1, s2, p, k, node, gone, list);
    if IsNode(list, gone) {
      NodesLive(list, s0.live, gone);
    }
    OthersThrough(s0, s1, s2, s3, a, p, gone, list);
    BytesThrough(s0, s1, s2, s3, a, p, copy);
  }

  // ---------- zend_mm_realloc_slow ----------

  method RestorePeak(heap: Heap, peak: int)
    modifies heap`peak
    ensures heap.peak == Max(peak, heap.size) && heap.State() == old(heap.State()) && heap.Books() == old(heap.Books())
  {
    heap.peak := Max(peak, heap.size);
  }

  /** The contents move to the new block at p, and block a is freed. s, list: the heap before the new block. */
  method MoveInto(heap: Heap, a: int, p: int, size: nat, copy: nat, ghost s: State, ghost list: seq<HugeNode>, ghost node: int)
    requires Valid(heap) && ListOk(list, s.live) && Sound(s) && p != 0
    requires a in s.live && !IsNode(list, a) && copy <= size && copy <= Usable(s.live[a])
    requires NewKind(s.live[a], size) == KindFor(size) && Got(s, heap.State(), p, KindFor(size), node) && size <= Usable(KindFor(size))
    requires heap.hugeList == ListAfter(list, p, KindFor(size), node) && (!KindFor(size).Huge? ==> node == 0)
    modifies heap`ring, heap`cached, heap`chunks, heap`owner, heap`mapped, heap`live, heap`size, heap`freeSlot, heap`mem, heap`free
    modifies heap`chunksCount, heap`cachedCount, heap`realSize, heap`deleteBoundary, heap`deleteCount, heap`hugeList
    ensures Valid(heap) && Moved(s, heap.State(), a, p, size, copy, list, node)
    ensures NodesStay(list, heap.hugeList, heap.State().live, node)
    ensures heap.realSize <= old(heap.realSize)
  {
    ghost var k, s1 := KindFor(size), heap.State();
    NoZero(s);
    StillNoNode(s, s1, p, k, node, list, a);
    CopyBytes(heap, p, a, copy);
    ghost var s2 := heap.State();
    ghost var gone := FreeHeap(heap, a);
    MovedByCopy(s, s1, s2, heap.State(), a, p, k, node, gone, size, copy, list);
    MovedNodes(heap, list, p, k, node);
  }

  method ReallocSlow(heap: Heap, a: int, size: nat, copy: nat) returns (p: int, ghost node: int)
    requires Valid(heap) && size < WORD_VALUES
    requires a in heap.State().live && !IsNode(heap.hugeList, a) && copy <= size && copy <= Usable(heap.State().live[a])
    requires NewKind(heap.State().live[a], size) == KindFor(size)
    modifies heap`ring, heap`cached, heap`chunks, heap`owner, heap`mapped, heap`lost, heap`freeSlot, heap`mem, heap`free
    modifies heap`chunksCount, heap`cachedCount, heap`realSize, heap`deleteBoundary, heap`deleteCount, heap`due
    modifies heap`realPeak, heap`peakChunks, heap`pending, heap`live, heap`size, heap`peak, heap`hugeList, heap`refusals
    ensures heap.lost ==> p == 0 && MainUnused(old(heap.State()))
    ensures !heap.lost && p == 0 ==> heap.Steady() && Survive(old(heap.State()), heap.State())
    ensures p != 0 ==> Valid(heap) && Moved(old(heap.State()), heap.State(), a, p, size, copy, old(heap.hugeList), node)
    ensures p != 0 ==> NodesStay(old(heap.hugeList), heap.hugeList, heap.State().live, node)
    ensures p != 0 ==> size <= Usable(KindFor(size)) && p !in old(heap.State()).live
    ensures p != 0 ==> heap.peak == Max(old(heap.peak), heap.size)
    ensures p == 0 && !heap.lost && heap.refusals == old(heap.refusals) ==> NoRoomFor(heap, size)
    ensures Limited(heap, size) && heap.refusals >= old(heap.refusals)
    ensures CanServe(old(heap.State()), size) ==> p != 0
  {
    ghost var s0, list, k := heap.State(), heap.hugeList, KindFor(size);
    NoZero(s0);
    var peak := heap.peak;
    p, node := AllocHeap(heap, size);
    if p != 0 {
      MoveInto(heap, a, p, size, copy, s0, list, node);
      RestorePeak(heap, peak);
    }
  }

  /** The list after a move: nodes still handed out stay, and the new node is there. */
  lemma MovedNodes(heap: Heap, list: seq<HugeNode>, p: int, k: Kind, node: int)
    requires Valid(heap) && (!k.Huge? ==> node == 0)
    requires forall d :: d in heap.State().live ==> (IsNode(heap.hugeList, d) <==> IsNode(ListAfter(list, p, k, node), d))
    ensures NodesStay(list, heap.hugeList, heap.State().live, node)
  {
    NoZero(heap.State());
    if k.Huge? {
      forall d
        ensures IsNode(ListAfter(list, p, k, node), d) <==> d == node || IsNode(list, d)
      {
        AddedNode(list, HugeNode(node, p, k.bytes), d);
      }
    }
  }

  lemma NoZero(s: State)
    requires Sound(s)
    ensures 0 !in s.live
  {
    if 0 in s.live {
      PointerKind(s, 0);
    }
  }

  // ---------- small blocks ----------

  /** zend_mm_free_small, as the realloc paths use it. */
  method FreeOwnSmall(heap: Heap, a: int, bin: nat)
    requires Valid(heap) && a in heap.State().live && heap.State().live[a] == Small(bin) && !IsNode(heap.hugeList, a)
    modifies heap`freeSlot, heap`mem, heap`free, heap`live, heap`size
    ensures Valid(heap) && Freed(old(heap.State()), heap.State(), a, heap.hugeList, 0)
    ensures heap.size == old(heap.size) - BinSize(bin)
  {
    ghost var s := heap.State();
    TotalWithout(s.live, a, true);
    ListLess(heap.hugeList, s.live, a);
    FreeSmall(heap, a, bin);
  }

  /** The same from a small block to another block in a chunk. */
  method MoveIntoSmall(heap: Heap, a: int, bin: nat, p: int, size: nat, copy: nat, ghost s: State)
    requires Valid(heap) && Sound(s) && ListOk(heap.hugeList, s.live) && p != 0
    requires a in s.live && s.live[a] == Small(bin) && !IsNode(heap.hugeList, a) && copy <= size && copy <= BinSize(bin)
    requires NewKind(s.live[a], size) == KindFor(size) && Gained(s, heap.State(), p, KindFor(size)) && size <= Usable(KindFor(size))
    requires !KindFor(size).Huge?
    modifies heap`freeSlot, heap`mem, heap`free, heap`live, heap`size
    ensures Valid(heap) && Moved(s, heap.State(), a, p, size, copy, heap.hugeList, 0)
    ensures heap.size == old(heap.size) - BinSize(bin)
  {
    ghost var list, k, s1 := heap.hugeList, KindFor(size), heap.State();
    NoZero(s);
    StillNoNode(s, s1, p, k, 0, list, a);
    CopyBytes(heap, p, a, copy);
    ghost var s2 := heap.State();
    FreeOwnSmall(heap, a, bin);
    MovedByCopy(s, s1, s2, heap.State(), a, p, k, 0, 0, size, copy, list);
  }

  /** A small block moves to another class. */
  method MoveSmall(heap: Heap, a: int, bin: nat, size: nat, copy: nat, restore: bool) returns (p: int)
    requires Valid(heap) && size <= MAX_SMALL_SIZE
    requires a in heap.State().live && heap.State().live[a] == Small(bin) && !IsNode(heap.hugeList, a)
    requires copy <= size && copy <= BinSize(bin) && !StaysInPlace(Small(bin), size)
    modifies heap`ring, heap`cached, heap`chunks, heap`owner, heap`mapped, heap`lost, heap`freeSlot, heap`mem, heap`free
    modifies heap`chunksCount, heap`cachedCount, heap`realSize, heap`deleteBoundary, heap`deleteCount
    modifies heap`realPeak, heap`peakChunks, heap`pending, heap`live, heap`size, heap`peak, heap`refusals
    ensures heap.lost ==> p == 0 && MainUnused(old(heap.State()))
    ensures !heap.lost && p == 0 ==> heap.Steady() && Survive(old(heap.State()), heap.State())
    ensures p != 0 ==> Valid(heap) && Moved(old(heap.State()), heap.State(), a, p, size, copy, heap.hugeList, 0)
    ensures p != 0 ==> p !in old(heap.State()).live
    ensures p != 0 ==> heap.peak == Max(old(heap.peak), if restore then heap.size else heap.size + BinSize(bin))
    ensures p == 0 && !heap.lost && heap.refusals == old(heap.refusals) ==> NoRoomFor(heap, size)
    ensures Limited(heap, size)
    ensures CanServe(old(heap.State()), size) ==> p != 0
  {
    ghost var s0 := heap.State();
    NoZero(s0);
    KindFits(size);
    var peak := heap.peak;
    p := AllocInside(heap, size);
    if p != 0 {
      MoveIntoSmall(heap, a, bin, p, size, copy, s0);
      if restore {
        RestorePeak(heap, peak);
      }
    }
  }

  /** The small case of zend_mm_realloc_heap: in place when the block is just right, to another class when it
      is too small or could be smaller. A request beyond the small classes is not `done`. */
  method ReallocSmall(heap: Heap, a: int, bin: nat, size: nat, useCopy: bool, copy: nat) returns (done: bool, p: int)
    requires Valid(heap) && copy <= size && (!useCopy ==> copy == size)
    requires a in heap.State().live && heap.State().live[a] == Small(bin) && !IsNode(heap.hugeList, a) && bin < BINS
    modifies heap`ring, heap`cached, heap`chunks, heap`owner, heap`mapped, heap`lost, heap`freeSlot, heap`mem, heap`free
    modifies heap`chunksCount, heap`cachedCount, heap`realSize, heap`deleteBoundary, heap`deleteCount
    modifies heap`realPeak, heap`peakChunks, heap`pending, heap`live, heap`size, heap`peak, heap`refusals
    ensures !done ==> Valid(heap) && heap.State() == old(heap.State()) && MAX_SMALL_SIZE < size && heap.peak == old(heap.peak)
    ensures done && heap.lost ==> p == 0 && MainUnused(old(heap.State()))
    ensures done && !heap.lost && p == 0 ==> heap.Steady() && Survive(old(heap.State()), heap.State())
    ensures done && p != 0 ==>
              Valid(heap) && Moved(old(heap.State()), heap.State(), a, p, size, Keep(size, BinSize(bin), copy), heap.hugeList, 0)
    ensures done && CanServe(old(heap.State()), size) ==> p != 0
    ensures StaysInPlace(Small(bin), size) ==> done && p == a && heap.State() == old(heap.State())
    ensures done && p == a ==> StaysInPlace(Small(bin), size)
    ensures done && p != 0 && p != a ==> heap.peak == Max(old(heap.peak), if size <= BinSize(bin) then heap.size + BinSize(bin) else heap.size)
    ensures done && p == a ==> heap.peak == old(heap.peak)
    ensures !done ==> heap.refusals == old(heap.refusals) && BinSize(bin) < size
    ensures done && p == 0 && !heap.lost && heap.refusals == old(heap.refusals) ==> heap.Full()
    ensures if done then Limited(heap, 0) else heap.realSize == old(heap.realSize)
  {
    ghost var s := heap.State();
    NoZero(s);
    BinFacts(bin);
    done, p := true, a;
    var before := BinSize(bin);
    if size <= before {
      if bin > 0 && size < BinSize(bin - 1) {
        p := MoveSmall(heap, a, bin, size, if useCopy then Min(size, copy) else size, false);
      } else {
        MovedSame(s, a, Small(bin), size, Keep(size, before, copy), heap.hugeList);
      }
    } else if size <= MAX_SMALL_SIZE {
      p := MoveSmall(heap, a, bin, size, if useCopy then Min(before, copy) else before, true);
    } else {
      done := false;
    }
  }

  /** In place with nothing to do. */
  lemma MovedSame(s: State, a: int, k: Kind, size: nat, keep: nat, list: seq<HugeNode>)
    requires 0 !in s.live && a in s.live && s.live[a] == k == NewKind(k, size) && size <= Usable(k)
    ensures Moved(s, s, a, a, size, keep, list, 0)
  {
  }

  /** In place with a new size. */
  lemma MovedInPlace(s: State, u: State, a: int, k: Kind, size: nat, keep: nat, list: seq<HugeNode>)
    requires 0 !in s.live && a in s.live && u.live == s.live[a := k] && u.mem == s.mem && size <= Usable(k)
    requires k == NewKind(s.live[a], size)
    ensures Moved(s, u, a, a, size, keep, list, 0)
  {
  }

  // ---------- large blocks in place ----------

  method StoreResized(heap: Heap, a: int, c: Chunk, to: nat)
    requires var s := heap.State(); Base(a) in s.owner && |s.owner[Base(a)]| == PAGES && Page(a) + to <= PAGES && 0 < to
    modifies heap`chunks, heap`owner, heap`live
    ensures heap.State() == ResizeStep(old(heap.State()), a, c, to) && heap.Books() == old(heap.Books())
  {
    heap.live := heap.live[a := Large(to)];
    heap.owner := heap.owner[Base(a) := Own(heap.owner[Base(a)], Page(a), to)];
    heap.chunks := heap.chunks[Base(a) := c];
  }

  lemma OccupiedResize(s: State, a: int, c: Chunk, to: nat)
    requires Occupied(s) && Base(a) in s.owner && |s.owner[Base(a)]| == PAGES && 1 <= Page(a) && Page(a) + to <= PAGES && 0 < to
    requires Tiled(c, Own(s.owner[Base(a)], Page(a), to))
    ensures Occupied(ResizeStep(s, a, c, to))
  {
    var o := Own(s.owner[Base(a)], Page(a), to);
    FreeAtMost(c, o);
    assert o[Page(a)] == Page(a);
    if c.freePages == PAGES - FIRST_PAGE {
      EmptyByCount(c, o);
    }
    OccupiedIs(s, 0);
    OccupiedIs(ResizeStep(s, a, c, to), 0);
  }

  /** A large block of the program has been resized in the page map, and is counted with its new size. */
  lemma ResizedValid(s: State, l: Ledger, a: int, c: Chunk, to: nat, list: seq<HugeNode>)
    requires Sound(s) && Balanced(s, l) && s.pending == 0 && ListOk(list, s.live) && !IsNode(list, a) && 0 < to
    requires a in s.live && s.live[a].Large? && Base(a) in s.owner && Base(a) in s.chunks && Page(a) + to <= PAGES
    requires Resized(s.chunks[Base(a)], s.owner[Base(a)], c, Page(a), s.live[a].pages, to)
    requires Tiled(c, Own(s.owner[Base(a)], Page(a), to)) && Occupied(s) && 1 <= Page(a)
    ensures var u := ResizeStep(s, a, c, to);
            && Sound(u) && Balanced(u, l) && Occupied(u) && ListOk(list, u.live)
            && Total(u.live, true) == Total(s.live, true) + (to - s.live[a].pages) * PAGE_SIZE
  {
    SoundResize(s, a, c, to);
    OccupiedResize(s, a, c, to);
    SameHugePut(s.live, a, Large(to));
    BalancedQuiet(s, ResizeStep(s, a, c, to), l);
    ListPut(list, s.live, a, Large(to));
    TotalPut(s.live, a, Large(to), true);
  }

  /** The tail pages of the run are freed. */
  method ShrinkRun(heap: Heap, a: int, to: nat)
    requires Valid(heap) && a in heap.State().live && heap.State().live[a].Large? && !IsNode(heap.hugeList, a)
    requires 0 < to < heap.State().live[a].pages
    modifies heap`chunks, heap`owner, heap`live, heap`size
    ensures Valid(heap) && heap.State().live == old(heap.State()).live[a := Large(to)] && heap.State().mem == old(heap.State()).mem
  {
    ghost var s := heap.State();
    LargePlace(s, a);
    var page := Page(a);
    var c := heap.chunks[Base(a)];
    var pages := c.info[page].pages;
    ShrinkTiled(c, s.owner[Base(a)], page, to);
    ResizedValid(s, heap.Books(), a, Shrink(c, page, pages, to), to, heap.hugeList);
    SubSize(heap, (pages - to) * PAGE_SIZE);
    StoreResized(heap, a, Shrink(c, page, pages, to), to);
  }

  /** The pages behind the run are taken, if they are free. */
  method GrowRun(heap: Heap, a: int, to: nat) returns (done: bool)
    requires Valid(heap) && a in heap.State().live && heap.State().live[a].Large? && !IsNode(heap.hugeList, a)
    requires heap.State().live[a].pages < to
    modifies heap`chunks, heap`owner, heap`live, heap`size, heap`peak
    ensures Valid(heap) && (done <==> FreeBehind(old(heap.State()), a, to))
    ensures done ==> heap.State().live == old(heap.State()).live[a := Large(to)] && heap.State().mem == old(heap.State()).mem
    ensures !done ==> heap.State() == old(heap.State())
    ensures if done then heap.peak == Max(old(heap.peak), heap.size) else heap.peak == old(heap.peak) && heap.size == old(heap.size)
  {
    ghost var s := heap.State();
    LargePlace(s, a);
    var page := Page(a);
    var c := heap.chunks[Base(a)];
    var pages := c.info[page].pages;
    done := page + to <= PAGES && AllClear(c.bits, page + pages, page + to);
    if done {
      GrowTiled(c, s.owner[Base(a)], page, to);
      ResizedValid(s, heap.Books(), a, Grow(c, page, pages, to), to, heap.hugeList);
      AddSize(heap, (to - pages) * PAGE_SIZE);
      StoreResized(heap, a, Grow(c, page, pages, to), to);
    }
  }

  /** The large case of zend_mm_realloc_heap: in place when the new size is large too and the pages allow. */
  method ReallocLarge(heap: Heap, a: int, size: nat) returns (done: bool)
    requires Valid(heap) && a in heap.State().live && heap.State().live[a].Large? && !IsNode(heap.hugeList, a)
    modifies heap`chunks, heap`owner, heap`live, heap`size, heap`peak
    ensures Valid(heap)
    ensures done ==> forall keep: nat :: Moved(old(heap.State()), heap.State(), a, a, size, keep, heap.hugeList, 0)
    ensures !done ==> heap.State() == old(heap.State())
    ensures done <==> KeptInPlace(old(heap.State()), a, size)
    ensures if done then heap.peak == Max(old(heap.peak), heap.size) else heap.peak == old(heap.peak) && heap.size == old(heap.size)
  {
    ghost var s := heap.State();
    NoZero(s);
    LargePlace(s, a);
    done := false;
    if MAX_SMALL_SIZE < size <= MAX_LARGE_SIZE {
      var to := PagesFor(size);
      var pages := heap.chunks[Base(a)].info[Page(a)].pages;
      done := true;
      if to < pages {
        ShrinkRun(heap, a, to);
      } else if pages < to {
        done := GrowRun(heap, a, to);
      }
      if done {
        assert s.live[a := Large(to)][a] == Large(to);
        assert to == pages ==> s.live == s.live[a := Large(to)];
        forall keep: nat
          ensures Moved(s, heap.State(), a, a, size, keep, heap.hugeList, 0)
        {
          MovedInPlace(s, heap.State(), a, Large(to), size, keep, heap.hugeList);
        }
      }
    }
  }

  // ---------- huge blocks ----------

  /** zend_mm_change_huge_block_size. */
  method ChangeHugeSize(heap: Heap, a: int, bytes: nat)
    requires ListOk(heap.hugeList, heap.State().live) && a in heap.State().live && heap.State().live[a].Huge?
    modifies heap`hugeList
    ensures heap.State() == old(heap.State()) && heap.Books() == old(heap.Books())
    ensures ListOk(heap.hugeList, heap.State().live[a := Huge(bytes)])
    ensures forall d :: IsNode(heap.hugeList, d) <==> IsNode(old(heap.hugeList), d)
  {
    ghost var list := heap.hugeList;
    ListFind(list, heap.State().live, a);
    var i: nat := 0;
    while heap.hugeList[i].ptr != a
      invariant i <= Position(list, a)
      decreases Position(list, a) - i
    {
      i := i + 1;
    }
    if i < Position(list, a) {
      NotBefore(list, a, i);
    }
    ListResize(list, heap.State().live, i, bytes);
    SameNodes(list, i, bytes);
    heap.hugeList := heap.hugeList[i := heap.hugeList[i].(bytes := bytes)];
  }

  lemma SameNodes(list: seq<HugeNode>, i: nat, bytes: nat)
    requires i < |list|
    ensures forall d :: IsNode(list[i := list[i].(bytes := bytes)], d) <==> IsNode(list, d)
  {
    var now := list[i := list[i].(bytes := bytes)];
    assert forall j :: 0 <= j < |list| ==> now[j].node == list[j].node;
    forall d | IsNode(list, d)
      ensures IsNode(now, d)
    {
      var j :| 0 <= j < |list| && list[j].node == d;
      assert now[j].node == d;
    }
  }

  /** No mapped region but the block's own begins before the new end and ends after its start. */
  predicate Extendable(mapped: map<int, int>, a: int, to: int) {
    forall d :: d in mapped && d != a ==> a + to <= d || d + mapped[d] <= a
  }

  lemma ExtendableIs(s: State, l: Ledger, a: int, to: nat)
    requires Sound(s) && Balanced(s, l) && a in s.live && s.live[a].Huge? && Extendable(l.mapped, a, to)
    ensures forall c :: c in s.chunks ==> a + to <= c || c + CHUNK_SIZE <= a
    ensures forall d :: d in s.live && d != a && s.live[d].Huge? ==> a + to <= d || d + s.live[d].bytes <= a
  {
    BalancedIs(s, l);
    HugeNotChunk(s, a);
  }

  lemma ShrinkExtendable(s: State, l: Ledger, a: int, to: nat)
    requires Sound(s) && Balanced(s, l) && a in s.live && s.live[a].Huge? && to <= s.live[a].bytes
    ensures Extendable(l.mapped, a, to)
  {
    SoundIs(s);
    BalancedIs(s, l);
  }

  ghost method RemapHuge(heap: Heap, a: int, to: nat)
    modifies heap`live
    ensures heap.State() == old(heap.State()).(live := old(heap.State()).live[a := Huge(to)])
    ensures heap.Books() == old(heap.Books())
  {
    heap.live := heap.live[a := Huge(to)];
  }

  method CountResize(heap: Heap, a: int, to: nat, more: int)
    modifies heap`mapped, heap`realSize, heap`realPeak, heap`size, heap`peak
    ensures heap.State() == old(heap.State())
    ensures var l := old(heap.Books());
            heap.Books() == l.(mapped := l.mapped[a := to], realSize := l.realSize + more,
                               realPeak := Max(l.realPeak, l.realSize + more))
    ensures heap.size == old(heap.size) + more && heap.peak == Max(old(heap.peak), heap.size)
  {
    heap.mapped := heap.mapped[a := to];
    heap.realSize := heap.realSize + more;
    heap.realPeak := Max(heap.realPeak, heap.realSize);
    heap.size := heap.size + more;
    heap.peak := Max(heap.peak, heap.size);
  }

  /** The mapped region of block a now has `to` bytes. */
  method ResizeHuge(heap: Heap, a: int, to: nat, before: nat)
    requires Valid(heap) && a in heap.State().live && heap.State().live[a] == Huge(before) && 0 < to
    requires Extendable(heap.Books().mapped, a, to)
    modifies heap`mapped, heap`realSize, heap`realPeak, heap`size, heap`peak, heap`live, heap`hugeList
    ensures Valid(heap) && heap.realSize == old(heap.realSize) + to - before
    ensures heap.State() == old(heap.State()).(live := old(heap.State()).live[a := Huge(to)])
    ensures heap.peak == Max(old(heap.peak), heap.size)
    ensures forall d :: IsNode(heap.hugeList, d) <==> IsNode(old(heap.hugeList), d)
  {
    ghost var s, l := heap.State(), heap.Books();
    ExtendableIs(s, l, a, to);
    SoundResizeHuge(s, a, to);
    HugeNotChunk(s, a);
    BalancedResizeHuge(s, l, a, to, Max(l.realPeak, l.realSize + to - before));
    TotalPut(s.live, a, Huge(to), true);
    ChangeHugeSize(heap, a, to);
    CountResize(heap, a, to, to - before);
    RemapHuge(heap, a, to);
    OccupiedStays(s, heap.State(), 0);
  }

  /** The operating system has refused. */
  ghost method Refused(heap: Heap)
    modifies heap`refusals
    ensures heap.refusals == old(heap.refusals) + 1 && heap.State() == old(heap.State()) && heap.Books() == old(heap.Books())
  {
    heap.refusals := heap.refusals + 1;
  }

  /** zend_mm_chunk_truncate, which the platform may not offer. */
  method TryTruncate(heap: Heap, a: int, to: nat, before: nat) returns (done: bool)
    requires Valid(heap) && a in heap.State().live && heap.State().live[a] == Huge(before) && 0 < to < before
    modifies heap`mapped, heap`realSize, heap`realPeak, heap`size, heap`peak, heap`live, heap`hugeList, heap`refusals
    ensures Valid(heap)
    ensures heap.realSize == old(heap.realSize) + if done then to - before else 0
    ensures heap.refusals == old(heap.refusals) + if done then 0 else 1
    ensures done ==> heap.State() == old(heap.State()).(live := old(heap.State()).live[a := Huge(to)])
    ensures !done ==> heap.State() == old(heap.State()) && heap.hugeList == old(heap.hugeList)
    ensures if done then heap.peak == Max(old(heap.peak), heap.size) else heap.peak == old(heap.peak)
    ensures forall d :: IsNode(heap.hugeList, d) <==> IsNode(old(heap.hugeList), d)
  {
    done := *;
    if done {
      ShrinkExtendable(heap.State(), heap.Books(), a, to);
      ResizeHuge(heap, a, to, before);
    } else {
      Refused(heap);
    }
  }

  /** zend_mm_chunk_extend: the operating system maps the tail when nothing is there, or refuses. */
  method TryExtend(heap: Heap, a: int, to: nat, before: nat) returns (done: bool)
    requires Valid(heap) && a in heap.State().live && heap.State().live[a] == Huge(before) && before < to
    modifies heap`mapped, heap`realSize, heap`realPeak, heap`size, heap`peak, heap`live, heap`hugeList, heap`refusals
    ensures Valid(heap)
    ensures heap.realSize == old(heap.realSize) + if done then to - before else 0
    ensures heap.refusals == old(heap.refusals) + if done then 0 else 1
    ensures done ==> heap.State() == old(heap.State()).(live := old(heap.State()).live[a := Huge(to)])
    ensures !done ==> heap.State() == old(heap.State()) && heap.hugeList == old(heap.hugeList)
    ensures if done then heap.peak == Max(old(heap.peak), heap.size) else heap.peak == old(heap.peak)
    ensures forall d :: IsNode(heap.hugeList, d) <==> IsNode(old(heap.hugeList), d)
  {
    done := *;
    if done && Extendable(heap.mapped, a, to) {
      ResizeHuge(heap, a, to, before);
    } else {
      done := false;
      Refused(heap);
    }
  }

  /** A collection before the step changes nothing that realloc promises. */
  lemma MovedLater(s: State, u: State, v: State, a: int, p: int, size: nat, keep: nat, list: seq<HugeNode>, node: int)
    requires SameUse(s, u) && Moved(u, v, a, p, size, keep, list, node) && keep <= Usable(u.live[a])
    ensures Moved(s, v, a, p, size, keep, list, node)
  {
    UntouchedBytes(s.live, s.mem, u.mem, a);
    FewerBytes(s.mem, a, u.mem, a, Usable(s.live[a]), keep);
    forall d | d in s.live && d != a && !IsNode(list, d)
      ensures d in v.live && d != p && v.live[d] == s.live[d] && SameBytes(s.mem, d, v.mem, d, Usable(s.live[d]))
    {
      UntouchedBytes(s.live, s.mem, u.mem, d);
    }
  }

  lemma SurviveLater(s: State, u: State, v: State)
    requires SameUse(s, u) && Survive(u, v)
    ensures Survive(s, v)
  {
  }

  /** Rounding the size up overflows to 0, and the whole region is unmapped: block a has no byte left. */
  method Wipe(heap: Heap, a: int, before: nat)
    requires Valid(heap) && a in heap.State().live && heap.State().live[a] == Huge(before)
    modifies heap`mapped, heap`realSize, heap`size, heap`live, heap`hugeList
    ensures heap.State() == old(heap.State()).(live := old(heap.State()).live[a := Huge(0)])
    ensures a !in heap.Books().mapped && heap.Books().realSize == old(heap.Books()).realSize - before
  {
    ChangeHugeSize(heap, a, 0);
    heap.ChunkFree(a);
    heap.realSize := heap.realSize - before;
    heap.size := heap.size - before;
    RemapHuge(heap, a, 0);
  }

  /** Whether the in-place step rounds a huge size to at least that size: the condition to check before the call. */
  lemma RoundedIff(size: nat)
    requires MAX_LARGE_SIZE < size < WORD_VALUES
    ensures size <= AlignUp(size) <==> size + REAL_PAGE_SIZE <= WORD_VALUES
    ensures WORD_VALUES < size + REAL_PAGE_SIZE ==> AlignUp(size) == 0
  {
    AlignUpIs(size);
    if WORD_VALUES < size + REAL_PAGE_SIZE {
      assert (size + (REAL_PAGE_SIZE - 1)) % WORD_VALUES == size + (REAL_PAGE_SIZE - 1) - WORD_VALUES < REAL_PAGE_SIZE;
    }
  }

  /** The block at a holds no byte any more, and its region is gone; the others are as they were. */
  ghost predicate Wiped(s: State, u: State, a: int, mapped: map<int, int>) {
    a in s.live && u == s.(live := s.live[a := Huge(0)]) && a !in mapped
  }

  /** The in-place part of zend_mm_realloc_huge for a size that stays huge. failed: the memory limit stopped
      the growth; the request fails. wiped: the size was rounded to 0. */
  method ReallocHugeInPlace(heap: Heap, a: int, size: nat, before: nat) returns (done: bool, failed: bool, wiped: bool)
    requires Valid(heap) && MAX_LARGE_SIZE < size < WORD_VALUES
    requires a in heap.State().live && heap.State().live[a] == Huge(before)
    modifies heap`ring, heap`cached, heap`chunks, heap`owner, heap`mapped, heap`lost, heap`freeSlot, heap`mem, heap`free
    modifies heap`chunksCount, heap`cachedCount, heap`realSize, heap`deleteBoundary, heap`deleteCount
    modifies heap`realPeak, heap`live, heap`size, heap`peak, heap`hugeList, heap`refusals
    ensures failed && !heap.lost ==> AlignUp(size) - before > (heap.limit - heap.realSize) % WORD_VALUES
    ensures heap.refusals >= old(heap.refusals)
    ensures !done && !failed && size + REAL_PAGE_SIZE <= WORD_VALUES ==> heap.refusals > old(heap.refusals)
    ensures old(heap.realSize) <= heap.limit < WORD_VALUES ==> heap.realSize <= heap.limit
    ensures wiped ==> WORD_VALUES < size + REAL_PAGE_SIZE && !heap.lost
                      && Wiped(old(heap.State()), heap.State(), a, heap.Books().mapped)
    ensures WORD_VALUES < size + REAL_PAGE_SIZE ==> !failed && !heap.lost && done == wiped
    ensures heap.lost ==> failed && MainUnused(old(heap.State()))
    ensures !heap.lost && !wiped ==> Valid(heap)
    ensures done && !wiped ==> !failed && forall keep: nat :: keep <= before && keep <= size ==>
              Moved(old(heap.State()), heap.State(), a, a, size, keep, old(heap.hugeList), 0)
    ensures done && !wiped ==> forall d :: IsNode(heap.hugeList, d) <==> IsNode(old(heap.hugeList), d)
    ensures !wiped ==> heap.peak == if done then Max(old(heap.peak), heap.size) else old(heap.peak)
    ensures !done && !heap.lost ==> SameUse(old(heap.State()), heap.State()) && heap.hugeList == old(heap.hugeList)
    ensures AlignUp(size) == before && size <= before ==> done && !wiped
  {
    ghost var s := heap.State();
    RoundedIff(size);
    UseSelf(s);
    wiped := false;
    var to := AlignUp(size);
    if to == 0 {
      wiped := *;
      done, failed := wiped, false;
      if wiped {
        HugeNotEmpty(s, a);
        Wipe(heap, a, before);
      }
    } else {
      done, failed := ResizeInPlace(heap, a, size, before, to);
    }
  }

  lemma HugeNotEmpty(s: State, a: int)
    requires Sound(s) && a in s.live && s.live[a].Huge?
    ensures 0 < s.live[a].bytes
  {
    SoundIs(s);
  }

  /** A huge block with a new size in place, after a collection at most. */
  lemma HugeResized(s: State, v: State, u: State, a: int, size: nat, to: nat, list: seq<HugeNode>)
    requires Sound(s) && SameUse(s, v) && a in s.live && s.live[a].Huge? && MAX_LARGE_SIZE < size <= to == AlignUp(size)
    requires u.live == v.live[a := Huge(to)] && u.mem == v.mem
    ensures forall keep: nat :: keep <= s.live[a].bytes && keep <= size ==> Moved(s, u, a, a, size, keep, list, 0)
  {
    NoZero(s);
    forall keep: nat | keep <= s.live[a].bytes && keep <= size
      ensures Moved(s, u, a, a, size, keep, list, 0)
    {
      MovedInPlace(v, u, a, Huge(to), size, keep, list);
      MovedLater(s, v, u, a, a, size, keep, list, 0);
    }
  }

  /** The block grows to `to` bytes where it is, if the limit and the operating system allow. v: the heap when the
      limit has been checked. */
  method ExtendInPlace(heap: Heap, a: int, to: nat, before: nat) returns (done: bool, failed: bool, ghost v: State)
    requires Valid(heap) && a in heap.State().live && heap.State().live[a] == Huge(before) && before < to
    modifies heap`ring, heap`cached, heap`chunks, heap`owner, heap`mapped, heap`lost, heap`freeSlot, heap`mem, heap`free
    modifies heap`chunksCount, heap`cachedCount, heap`realSize, heap`deleteBoundary, heap`deleteCount
    modifies heap`realPeak, heap`live, heap`size, heap`peak, heap`hugeList, heap`refusals
    ensures heap.lost ==> failed && MainUnused(old(heap.State()))
    ensures !heap.lost ==> Valid(heap) && SameUse(old(heap.State()), v)
    ensures !heap.lost ==> heap.State() == if done then v.(live := v.live[a := Huge(to)]) else v
    ensures done ==> !failed && to - before <= (heap.limit - (heap.realSize - (to - before))) % WORD_VALUES
    ensures failed && !heap.lost ==> to - before > (heap.limit - heap.realSize) % WORD_VALUES
    ensures heap.refusals == old(heap.refusals) + if done || failed then 0 else 1
    ensures heap.realSize <= old(heap.realSize) + if done then to - before else 0
    ensures heap.peak == if done then Max(old(heap.peak), heap.size) else old(heap.peak)
    ensures !done ==> heap.hugeList == old(heap.hugeList)
    ensures forall d :: IsNode(heap.hugeList, d) <==> IsNode(old(heap.hugeList), d)
  {
    done, failed := false, false;
    var ok := RoomFor(heap, to - before);
    v := heap.State();
    if ok {
      done := TryExtend(heap, a, to, before);
    } else {
      failed := true;
    }
  }

  /** The same for a size that has been rounded up to `to`. */
  method ResizeInPlace(heap: Heap, a: int, size: nat, before: nat, to: nat) returns (done: bool, failed: bool)
    requires Valid(heap) && MAX_LARGE_SIZE < size <= to == AlignUp(size)
    requires a in heap.State().live && heap.State().live[a] == Huge(before)
    modifies heap`ring, heap`cached, heap`chunks, heap`owner, heap`mapped, heap`lost, heap`freeSlot, heap`mem, heap`free
    modifies heap`chunksCount, heap`cachedCount, heap`realSize, heap`deleteBoundary, heap`deleteCount
    modifies heap`realPeak, heap`live, heap`size, heap`peak, heap`hugeList, heap`refusals
    ensures failed && !heap.lost ==> to - before > (heap.limit - heap.realSize) % WORD_VALUES
    ensures heap.refusals >= old(heap.refusals) && (!done && !failed ==> heap.refusals > old(heap.refusals))
    ensures done && before < to ==> to - before <= (heap.limit - (heap.realSize - (to - before))) % WORD_VALUES
    ensures done && to <= before ==> heap.realSize == old(heap.realSize) - (before - to)
    ensures heap.realSize <= old(heap.realSize) + if done && before < to then to - before else 0
    ensures heap.lost ==> failed && MainUnused(old(heap.State()))
    ensures !heap.lost ==> Valid(heap)
    ensures done ==> !failed && forall keep: nat :: keep <= before && keep <= size ==>
              Moved(old(heap.State()), heap.State(), a, a, size, keep, old(heap.hugeList), 0)
    ensures done ==> forall d :: IsNode(heap.hugeList, d) <==> IsNode(old(heap.hugeList), d)
    ensures if done then heap.peak == Max(old(heap.peak), heap.size) else heap.peak == old(heap.peak)
    ensures !done && !heap.lost ==> SameUse(old(heap.State()), heap.State()) && heap.hugeList == old(heap.hugeList)
    ensures to == before ==> done
  {
    ghost var s, list := heap.State(), heap.hugeList;
    ghost var v := s;
    UseSelf(s);
    done, failed := to == before, false;
    if to < before {
      done := TryTruncate(heap, a, to, before);
    } else if before < to {
      done, failed, v := ExtendInPlace(heap, a, to, before);
    }
    if done {
      assert s.live == s.live[a := Huge(before)];
      HugeResized(s, v, heap.State(), a, size, to, list);
    }
  }

  /** The huge block could not stay: allocate, copy and free. s: the heap before. */
  method MoveHuge(heap: Heap, a: int, size: nat, before: nat, copy: nat, ghost s: State) returns (p: int, ghost node: int)
    requires Valid(heap) && size < WORD_VALUES && copy <= size && SameUse(s, heap.State())
    requires a in s.live && s.live[a] == Huge(before) && !IsNode(heap.hugeList, a)
    requires NewKind(Huge(before), size) == KindFor(size)
    modifies heap`ring, heap`cached, heap`chunks, heap`owner, heap`mapped, heap`lost, heap`freeSlot, heap`mem, heap`free
    modifies heap`chunksCount, heap`cachedCount, heap`realSize, heap`deleteBoundary, heap`deleteCount, heap`due
    modifies heap`realPeak, heap`peakChunks, heap`pending, heap`live, heap`size, heap`peak, heap`hugeList, heap`refusals
    ensures heap.lost ==> p == 0 && MainUnused(s)
    ensures !heap.lost && p == 0 ==> heap.Steady() && Survive(s, heap.State())
    ensures p != 0 ==> Valid(heap) && Moved(s, heap.State(), a, p, size, Keep(size, before, copy), old(heap.hugeList), node)
    ensures p != 0 ==> NodesStay(old(heap.hugeList), heap.hugeList, heap.State().live, node)
    ensures p != 0 ==> size <= Usable(KindFor(size))
    ensures p != 0 ==> heap.peak == Max(old(heap.peak), heap.size)
    ensures p == 0 && !heap.lost && heap.refusals == old(heap.refusals) ==> NoRoomFor(heap, size)
    ensures Limited(heap, size) && heap.refusals >= old(heap.refusals)
    ensures CanServe(old(heap.State()), size) ==> p != 0
  {
    ghost var u, list := heap.State(), heap.hugeList;
    p, node := ReallocSlow(heap, a, size, Min(before, copy));
    LaterResult(heap, s, u, a, p, size, Min(before, copy), list, node);
  }

  /** zend_mm_realloc_huge. Unlike zend_mm_alloc_huge it does not check that rounding the size up overflows: for
      sizes within a page of 2^64 it fails or wipes the block. */
  method ReallocHuge(heap: Heap, a: int, size: nat, copy: nat) returns (p: int, ghost node: int, wiped: bool)
    requires Valid(heap) && size < WORD_VALUES && copy <= size
    requires a in heap.State().live && heap.State().live[a].Huge? && !IsNode(heap.hugeList, a)
    modifies heap`ring, heap`cached, heap`chunks, heap`owner, heap`mapped, heap`lost, heap`freeSlot, heap`mem, heap`free
    modifies heap`chunksCount, heap`cachedCount, heap`realSize, heap`deleteBoundary, heap`deleteCount, heap`due
    modifies heap`realPeak, heap`peakChunks, heap`pending, heap`live, heap`size, heap`peak, heap`hugeList, heap`refusals
    ensures wiped ==> p == a && WORD_VALUES < size + REAL_PAGE_SIZE && !heap.lost
                      && Wiped(old(heap.State()), heap.State(), a, heap.Books().mapped)
    ensures WORD_VALUES < size + REAL_PAGE_SIZE ==> wiped || p == 0
    ensures heap.lost ==> p == 0 && MainUnused(old(heap.State()))
    ensures !heap.lost && p == 0 ==> heap.Steady() && Survive(old(heap.State()), heap.State())
    ensures var s := old(heap.State());
            p != 0 && !wiped ==>
              Valid(heap) && Moved(s, heap.State(), a, p, size, Keep(size, Usable(s.live[a]), copy), old(heap.hugeList), node)
    ensures p != 0 && !wiped ==> NodesStay(old(heap.hugeList), heap.hugeList, heap.State().live, node)
    ensures p != 0 && !wiped ==> heap.peak == Max(old(heap.peak), heap.size)
    ensures p == 0 && !heap.lost && heap.refusals == old(heap.refusals) ==> NoRoomFor(heap, size)
    ensures Limited(heap, size)
    ensures CanServe(old(heap.State()), size) ==> p != 0
    ensures StaysInPlace(old(heap.State()).live[a], size) ==> p == a && !wiped
    ensures HugeInPlace(heap, old(heap.State()).live[a], size, a, p)
  {
    ghost var s, list := heap.State(), heap.hugeList;
    PointerKind(s, a);
    UseSelf(s);
    HugeNotEmpty(s, a);
    var before := HugeSize(heap, a);
    var done, failed := false, false;
    wiped := false;
    if size > MAX_LARGE_SIZE {
      RoundedIff(size);
      done, failed, wiped := ReallocHugeInPlace(heap, a, size, before);
    }
    p, node := a, 0;
    if failed {
      p := 0;
      if !heap.lost {
        UseSurvives(s, heap.State());
      }
    } else if !done {
      p, node := MoveHuge(heap, a, size, before, copy, s);
    } else if !wiped {
      NoZero(heap.State());
    }
  }

  lemma LaterResult(heap: Heap, s: State, u: State, a: int, p: int, size: nat, keep: nat, list: seq<HugeNode>, node: int)
    requires SameUse(s, u) && a in u.live && keep <= Usable(u.live[a])
    requires !heap.lost && p == 0 ==> Survive(u, heap.State())
    requires p != 0 ==> Moved(u, heap.State(), a, p, size, keep, list, node)
    ensures MainUnused(u) ==> MainUnused(s)
    ensures !heap.lost && p == 0 ==> Survive(s, heap.State())
    ensures p != 0 ==> Moved(s, heap.State(), a, p, size, keep, list, node)
  {
    if p != 0 {
      MovedLater(s, u, heap.State(), a, p, size, keep, list, node);
    } else if !heap.lost {
      SurviveLater(s, u, heap.State());
    }
  }

  // ---------- zend_mm_realloc_heap ----------

  /** A huge block that stays huge keeps its place unless the operating system refuses, and fails only at the limit. */
  twostate predicate HugeInPlace(heap: Heap, k: Kind, size: nat, a: int, p: int)
    reads heap
  {
    k.Huge? && MAX_LARGE_SIZE < size && size + REAL_PAGE_SIZE <= WORD_VALUES && !heap.lost && heap.refusals == old(heap.refusals) ==>
      if p != 0 then p == a else AlignUp(size) - k.bytes > (heap.limit - heap.realSize) % WORD_VALUES
  }

  /** The in-place and small cases, for a block inside a chunk. */
  method ReallocInChunk(heap: Heap, a: int, size: nat, useCopy: bool, copy: nat) returns (done: bool, p: int)
    requires Valid(heap) && copy <= size && (!useCopy ==> copy == size)
    requires a in heap.State().live && !heap.State().live[a].Huge? && !IsNode(heap.hugeList, a)
    modifies heap`ring, heap`cached, heap`chunks, heap`owner, heap`mapped, heap`lost, heap`freeSlot, heap`mem, heap`free
    modifies heap`chunksCount, heap`cachedCount, heap`realSize, heap`deleteBoundary, heap`deleteCount
    modifies heap`realPeak, heap`peakChunks, heap`pending, heap`live, heap`size, heap`peak, heap`refusals
    ensures !done ==> Valid(heap) && heap.State() == old(heap.State())
    ensures !done ==> NewKind(heap.State().live[a], size) == KindFor(size)
    ensures done && heap.lost ==> p == 0 && MainUnused(old(heap.State()))
    ensures done && !heap.lost && p == 0 ==> heap.Steady() && Survive(old(heap.State()), heap.State())
    ensures var s := old(heap.State());
            done && p != 0 ==> Valid(heap) && Moved(s, heap.State(), a, p, size, Keep(size, Usable(s.live[a]), copy), heap.hugeList, 0)
    ensures done && CanServe(old(heap.State()), size) ==> p != 0
    ensures done && p == a <==> KeptInPlace(old(heap.State()), a, size)
    ensures done && p != 0 ==> heap.peak == Max(old(heap.peak), PeakSize(old(heap.State()).live[a], size, p == a, heap.size))
    ensures !done ==> heap.peak == old(heap.peak) && heap.refusals == old(heap.refusals)
    ensures !done ==> match heap.State().live[a] case Small(bin) => BinSize(bin) < size case _ => true
    ensures done && p == 0 && !heap.lost && heap.refusals == old(heap.refusals) ==> heap.Full()
    ensures if done then Limited(heap, 0) else heap.realSize == old(heap.realSize)
  {
    PointerKind(heap.State(), a);
    var info := InfoAt(heap.chunks, a);
    if info.Srun? || info.Nrun? {
      done, p := ReallocSmall(heap, a, info.bin, size, useCopy, copy);
    } else {
      done := ReallocLarge(heap, a, size);
      p := a;
    }
  }

  /** A block inside a chunk: in place, to another class, or by allocate, copy and free. */
  method ReallocChunkBlock(heap: Heap, a: int, size: nat, useCopy: bool, copy: nat) returns (p: int, ghost node: int)
    requires Valid(heap) && size < WORD_VALUES && copy <= size && (!useCopy ==> copy == size)
    requires a in heap.State().live && !heap.State().live[a].Huge? && !IsNode(heap.hugeList, a)
    modifies heap`ring, heap`cached, heap`chunks, heap`owner, heap`mapped, heap`lost, heap`freeSlot, heap`mem, heap`free
    modifies heap`chunksCount, heap`cachedCount, heap`realSize, heap`deleteBoundary, heap`deleteCount, heap`due
    modifies heap`realPeak, heap`peakChunks, heap`pending, heap`live, heap`size, heap`peak, heap`hugeList, heap`refusals
    ensures heap.lost ==> p == 0 && MainUnused(old(heap.State()))
    ensures !heap.lost && p == 0 ==> heap.Steady() && Survive(old(heap.State()), heap.State())
    ensures var s := old(heap.State());
            p != 0 ==> Valid(heap) && Moved(s, heap.State(), a, p, size, Keep(size, Usable(s.live[a]), copy), old(heap.hugeList), node)
    ensures p != 0 ==> NodesStay(old(heap.hugeList), heap.hugeList, heap.State().live, node)
    ensures p != 0 ==> heap.peak == Max(old(heap.peak), PeakSize(old(heap.State()).live[a], size, p == a, heap.size))
    ensures p == 0 && !heap.lost && heap.refusals == old(heap.refusals) ==> NoRoomFor(heap, size)
    ensures Limited(heap, size)
    ensures CanServe(old(heap.State()), size) ==> p != 0
    ensures p == a <==> KeptInPlace(old(heap.State()), a, size)
  {
    NoZero(heap.State());
    PointerKind(heap.State(), a);
    node := 0;
    var before := SizeInChunk(heap, a);
    var done;
    done, p := ReallocInChunk(heap, a, size, useCopy, copy);
    if !done {
      p, node := ReallocSlow(heap, a, size, Min(before, copy));
    } else if p != 0 {
      NoZero(heap.State());
    }
  }

  /** The branches of zend_mm_realloc_heap, with the kind of the result as the code chooses it. */
  method ReallocBranches(heap: Heap, a: int, size: nat, useCopy: bool, copy: nat) returns (p: int, ghost node: int, wiped: bool)
    requires Valid(heap) && size < WORD_VALUES && copy <= size && (!useCopy ==> copy == size)
    requires a == 0 || (a in heap.State().live && !IsNode(heap.hugeList, a))
    modifies heap`ring, heap`cached, heap`chunks, heap`owner, heap`mapped, heap`lost, heap`freeSlot, heap`mem, heap`free
    modifies heap`chunksCount, heap`cachedCount, heap`realSize, heap`deleteBoundary, heap`deleteCount, heap`due
    modifies heap`realPeak, heap`peakChunks, heap`pending, heap`live, heap`size, heap`peak, heap`hugeList, heap`refusals
    ensures wiped ==> p == a != 0 && WORD_VALUES < size + REAL_PAGE_SIZE && !heap.lost
                      && a in old(heap.State()).live && old(heap.State()).live[a].Huge?
                      && Wiped(old(heap.State()), heap.State(), a, heap.Books().mapped)
    ensures heap.lost ==> p == 0 && MainUnused(old(heap.State()))
    ensures !heap.lost && p == 0 ==> heap.Steady() && Survive(old(heap.State()), heap.State())
    ensures p != 0 && a == 0 ==> Valid(heap) && Got(old(heap.State()), heap.State(), p, KindFor(size), node)
    ensures p != 0 && a == 0 ==> size <= Usable(KindFor(size)) && (!KindFor(size).Huge? ==> node == 0)
    ensures var s := old(heap.State());
            p != 0 && a != 0 && !wiped ==>
              Valid(heap) && Moved(s, heap.State(), a, p, size, Keep(size, Usable(s.live[a]), copy), old(heap.hugeList), node)
    ensures p != 0 && !wiped ==> NodesStay(old(heap.hugeList), heap.hugeList, heap.State().live, node)
    ensures p != 0 && !wiped && a != 0 ==>
              heap.peak == Max(old(heap.peak), PeakSize(old(heap.State()).live[a], size, p == a, heap.size))
    ensures p == 0 && !heap.lost && heap.refusals == old(heap.refusals) ==> NoRoomFor(heap, size)
    ensures Limited(heap, size) && (a != 0 ==> HugeInPlace(heap, old(heap.State()).live[a], size, a, p))
    ensures CanServe(old(heap.State()), size) ==> p != 0
    ensures a != 0 && StaysInPlace(old(heap.State()).live[a], size) ==> p == a && !wiped
    ensures a != 0 && !old(heap.State()).live[a].Huge? ==> (p == a <==> KeptInPlace(old(heap.State()), a, size))
  {
    node, wiped := 0, false;
    if Offset(a) == 0 {
      if a == 0 {
        ghost var list := heap.hugeList;
        p, node := AllocHeap(heap, size);
        if p != 0 {
          MovedNodes(heap, list, p, KindFor(size), node);
        }
      } else {
        PointerKind(heap.State(), a);
        p, node, wiped := ReallocHuge(heap, a, size, copy);
      }
    } else {
      PointerKind(heap.State(), a);
      p, node := ReallocChunkBlock(heap, a, size, useCopy, copy);
    }
  }

  /** The bytes below all three bounds are kept. */
  lemma KeepIs(m0: Memory, a: int, m1: Memory, p: int, size: nat, before: nat, copy: nat)
    requires SameBytes(m0, a, m1, p, Keep(size, before, copy))
    ensures forall i: nat :: i < size && i < before && i < copy ==> Byte(m1, p, i) == Byte(m0, a, i)
  {
  }

  /** What the kind of the result means, in terms of the table of sizes. */
  lemma NewKindIs(s: State, a: int, size: nat, p: int, r: Kind)
    requires size < WORD_VALUES && size <= Usable(r) && p != 0
    requires r == if a == 0 then KindFor(size) else if a in s.live then NewKind(s.live[a], size) else r
    requires a != 0 ==> a in s.live && (!s.live[a].Huge? ==> (p == a <==> KeptInPlace(s, a, size)))
    ensures match r
      case Small(bin) => size <= BinSize(bin) && (bin > 0 ==> if p == a then BinSize(bin - 1) <= size else BinSize(bin - 1) < size)
      case Large(n) => MAX_SMALL_SIZE < size <= n * PAGE_SIZE < size + PAGE_SIZE && size <= MAX_LARGE_SIZE
      case Huge(n) => MAX_LARGE_SIZE < size <= n < size + REAL_PAGE_SIZE && n % REAL_PAGE_SIZE == 0
  {
    if r == KindFor(size) {
      KindFits(size);
    }
  }

  /** zend_mm_realloc_heap: allocate, copy, free, or any of the ways to avoid that. Only a huge block can be wiped,
      by a size within a page of 2^64. */
  method ReallocHeap(heap: Heap, a: int, size: nat, useCopy: bool, copy: nat) returns (p: int, ghost node: int, wiped: bool)
    requires Valid(heap) && size < WORD_VALUES && copy <= size && (!useCopy ==> copy == size)
    requires a == 0 || (a in heap.State().live && !IsNode(heap.hugeList, a))
    modifies heap`ring, heap`cached, heap`chunks, heap`owner, heap`mapped, heap`lost, heap`freeSlot, heap`mem, heap`free
    modifies heap`chunksCount, heap`cachedCount, heap`realSize, heap`deleteBoundary, heap`deleteCount, heap`due
    modifies heap`realPeak, heap`peakChunks, heap`pending, heap`live, heap`size, heap`peak, heap`hugeList, heap`refusals
    ensures wiped ==> p == a != 0 && WORD_VALUES < size + REAL_PAGE_SIZE && !heap.lost
                      && a in old(heap.State()).live && old(heap.State()).live[a].Huge?
                      && Wiped(old(heap.State()), heap.State(), a, heap.Books().mapped)
    ensures heap.lost ==> p == 0 && MainUnused(old(heap.State()))
    ensures !heap.lost && p == 0 ==> heap.Steady() && Survive(old(heap.State()), heap.State())
    ensures p != 0 && a == 0 ==> Valid(heap) && Got(old(heap.State()), heap.State(), p, KindFor(size), node)
    ensures p != 0 && a == 0 ==> size <= Usable(KindFor(size)) && (!KindFor(size).Huge? ==> node == 0)
    ensures var s := old(heap.State());
            p != 0 && a != 0 && !wiped ==>
              Valid(heap) && Moved(s, heap.State(), a, p, size, Keep(size, Usable(s.live[a]), copy), old(heap.hugeList), node)
    ensures p != 0 && !wiped ==> NodesStay(old(heap.hugeList), heap.hugeList, heap.State().live, node)
    ensures p != 0 && !wiped && a != 0 ==>
              heap.peak == Max(old(heap.peak), PeakSize(old(heap.State()).live[a], size, p == a, heap.size))
    ensures p == 0 && !heap.lost && heap.refusals == old(heap.refusals) ==>
              || CHUNK_SIZE > (heap.limit - heap.realSize) % WORD_VALUES
              || (MAX_LARGE_SIZE < size && (WORD_VALUES < size + REAL_PAGE_SIZE || AlignUp(size) > (heap.limit - heap.realSize) % WORD_VALUES))
    ensures old(heap.realSize) <= heap.limit < WORD_VALUES ==>
              heap.realSize <= if size <= MAX_LARGE_SIZE then heap.limit else heap.limit + CHUNK_SIZE
    ensures a != 0 && old(heap.State()).live[a].Huge? && MAX_LARGE_SIZE < size && size + REAL_PAGE_SIZE <= WORD_VALUES
            && !heap.lost && heap.refusals == old(heap.refusals) ==>
              if p != 0 then p == a
              else AlignUp(size) - old(heap.State()).live[a].bytes > (heap.limit - heap.realSize) % WORD_VALUES
    ensures CanServe(old(heap.State()), size) ==> p != 0
    ensures a != 0 && StaysInPlace(old(heap.State()).live[a], size) ==> p == a && !wiped
    ensures a != 0 && !old(heap.State()).live[a].Huge? ==> (p == a <==> KeptInPlace(old(heap.State()), a, size))
    ensures p != 0 && a != 0 && !wiped ==> forall i: nat :: i < size && i < Usable(old(heap.State()).live[a]) && i < copy ==>
              Byte(heap.State().mem, p, i) == Byte(old(heap.State()).mem, a, i)
    ensures a != 0 ==> match old(heap.State()).live[a]
              case Small(bin) => p == a <==> size <= BinSize(bin) && (bin == 0 || BinSize(bin - 1) <= size)
              case _ => true
    ensures p != 0 && !wiped ==> p in heap.State().live && match heap.State().live[p]
              case Small(bin) => size <= BinSize(bin) && (bin > 0 ==> if p == a then BinSize(bin - 1) <= size else BinSize(bin - 1) < size)
              case Large(n) => MAX_SMALL_SIZE < size <= n * PAGE_SIZE < size + PAGE_SIZE && size <= MAX_LARGE_SIZE
              case Huge(n) => MAX_LARGE_SIZE < size <= n < size + REAL_PAGE_SIZE && n % REAL_PAGE_SIZE == 0
  {
    ghost var s := heap.State();
    p, node, wiped := ReallocBranches(heap, a, size, useCopy, copy);
    if p != 0 && !wiped {
      NewKindIs(s, a, size, p, heap.State().live[p]);
      if a != 0 {
        KeepIs(s.mem, a, heap.State().mem, p, size, Usable(s.live[a]), copy);
      }
    }
  }
}
