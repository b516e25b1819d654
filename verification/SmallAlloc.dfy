// zend_mm_alloc_small, zend_mm_free_small and the run that small blocks come from, on the heap object.
module SmallAlloc {
  import opened Bitset
  import opened Bins
  import opened Chunks
  import opened Blocks
  import opened HeapInv
  import opened HeapSteps
  import opened HeapMem
  import opened HeapState
  import opened HeapChunks
  import opened HeapBooks
  import opened HeapObject
  import opened PageSteps
  import opened PageAlloc
  import opened SlotLinks

  /** The block of kind k at p is handed out in u and was not in s; address 0: nothing is. Blocks of s keep
      their places and bytes. */
  ghost predicate Gained(s: State, u: State, p: int, k: Kind) {
    && (if p == 0 then u.live == s.live else p !in s.live && u.live == s.live[p := k])
    && Untouched(s.live, s.mem, u.mem)
  }

  // ---------- statistics ----------

  method AddSize(heap: Heap, bytes: int)
    modifies heap`size, heap`peak
    ensures heap.State() == old(heap.State()) && heap.Books() == old(heap.Books())
    ensures heap.size == old(heap.size) + bytes && heap.peak == Max(old(heap.peak), heap.size)
  {
    var size := heap.size + bytes;
    heap.peak := Max(heap.peak, size);
    heap.size := size;
  }

  method SubSize(heap: Heap, bytes: int)
    modifies heap`size
    ensures heap.State() == old(heap.State()) && heap.Books() == old(heap.Books())
    ensures heap.size == old(heap.size) - bytes
  {
    heap.size := heap.size - bytes;
  }

  // ---------- zend_mm_alloc_small_slow ----------

  method SetHead(heap: Heap, bin: nat, p: int)
    requires bin < |heap.State().heads|
    modifies heap`freeSlot
    ensures heap.State() == old(heap.State()).(heads := old(heap.State()).heads[bin := p]) && heap.Books() == old(heap.Books())
  {
    heap.freeSlot := heap.freeSlot[bin := p];
  }

  /** Link the slots 1, 2, ... of the run at p; the last link is NULL. */
  method WriteLinks(heap: Heap, p: int, bin: nat)
    requires bin < BINS && 0 < p
    modifies heap`mem
    ensures Chained(heap.mem, Head(SlotList(p, bin, 1)), SlotList(p, bin, 1))
    ensures p + BinSize(bin) == Head(SlotList(p, bin, 1))
    ensures WrittenIn(old(heap.mem), heap.mem, p, BinPages(bin) * PAGE_SIZE)
  {
    ghost var before, e := heap.mem, 1;
    var size := BinSize(bin);
    LinkingStarts(before, p, bin);
    LinkingAt(before, before, p, bin, e, p + size);
    var end := Along(p, size, BinElements(bin) - 1);
    var q := p + size;
    while q != end
      invariant Linking(before, heap.mem, p, bin, e, q)
      invariant e < BinElements(bin) && (q == end <==> e == BinElements(bin) - 1)
      decreases BinElements(bin) - e
    {
      LinkingSteps(before, heap.mem, p, bin, e, q);
      heap.mem := StorePtr(heap.mem, q, q + size);
      q, e := q + size, e + 1;
      LinkingAt(before, heap.mem, p, bin, e, q);
    }
    LinkingEnds(before, heap.mem, p, bin, e, q);
    heap.mem := StorePtr(heap.mem, q, 0);
  }

  method LinkSlots(heap: Heap, p: int, bin: nat)
    requires bin < BINS && bin < |heap.State().heads| && 0 < p
    modifies heap`freeSlot, heap`mem
    ensures var s, u := old(heap.State()), heap.State();
            && u == s.(mem := u.mem, heads := s.heads[bin := Head(SlotList(p, bin, 1))])
            && Chained(u.mem, Head(SlotList(p, bin, 1)), SlotList(p, bin, 1))
            && WrittenIn(s.mem, u.mem, p, BinPages(bin) * PAGE_SIZE)
    ensures heap.Books() == old(heap.Books())
  {
    SetHead(heap, bin, p + BinSize(bin));
    WriteLinks(heap, p, bin);
  }

  method MarkSmall(heap: Heap, p: int, bin: nat)
    requires Base(p) in heap.State().chunks && WellSized(heap.State().chunks[Base(p)])
    modifies heap`chunks
    ensures var s := old(heap.State());
            heap.State() == s.(chunks := s.chunks[Base(p) := MakeSmall(s.chunks[Base(p)], Page(p), bin)])
    ensures heap.Books() == old(heap.Books())
  {
    heap.chunks := heap.chunks[Base(p) := MakeSmall(heap.chunks[Base(p)], Page(p), bin)];
  }

  /** The pending run has become slots; the first is handed out. */
  ghost method OwnSlots(heap: Heap, bin: nat)
    requires bin < |heap.State().free|
    modifies heap`free, heap`live, heap`pending
    ensures var s := old(heap.State());
            heap.State() == s.(free := s.free[bin := SlotList(s.pending, bin, 1)], live := s.live[s.pending := Small(bin)], pending := 0)
    ensures heap.Books() == old(heap.Books())
  {
    heap.free := heap.free[bin := SlotList(heap.pending, bin, 1)];
    heap.live := heap.live[heap.pending := Small(bin)];
    heap.pending := 0;
  }

  lemma PendingPlace(s: State, n: nat)
    requires Sound(s) && LargeAt(s.chunks, s.owner, s.pending, n)
    ensures 0 < s.pending && Base(s.pending) in s.chunks && WellSized(s.chunks[Base(s.pending)])
    ensures |s.heads| == |s.free| == BINS
  {
    SoundIs(s);
    PendingPage(s, n);
  }

  lemma SmallQuiet(s: State, l: Ledger, t: State, a: int, bin: nat)
    requires Balanced(s, l) && a !in s.live && t.live == s.live[a := Small(bin)]
    requires |t.ring| == |s.ring| && |t.cached| == |s.cached| && t.chunks.Keys == s.chunks.Keys
    ensures Balanced(t, l)
  {
    SameHugePut(s.live, a, Small(bin));
    BalancedQuiet(s, t, l);
  }

  /** Turn the pending run into slots of class bin. */
  method SplitRun(heap: Heap, p: int, bin: nat)
    requires Sound(heap.State()) && Balanced(heap.State(), heap.Books()) && bin < BINS && p == heap.State().pending
    requires LargeAt(heap.State().chunks, heap.State().owner, p, BinPages(bin)) && p !in heap.State().live
    requires bin < |heap.State().free| && heap.State().free[bin] == [] && Occupied(heap.State())
    modifies heap`chunks, heap`freeSlot, heap`mem, heap`free, heap`live, heap`pending
    ensures Sound(heap.State()) && Balanced(heap.State(), heap.Books()) && heap.State().pending == 0
    ensures Occupied(heap.State())
    ensures Gained(old(heap.State()), heap.State(), p, Small(bin)) && p != 0
    ensures InSlotOrder(heap.State().free, bin, p)
  {
    ghost var s, l := heap.State(), heap.Books();
    PendingPlace(s, BinPages(bin));
    MarkSmall(heap, p, bin);
    LinkSlots(heap, p, bin);
    ghost var mem := heap.State().mem;
    OwnSlots(heap, bin);
    SoundNewRun(s, bin, mem);
    SmallQuiet(s, l, NewRunStep(s, bin, mem), p, bin);
    OccupiedStays(s, heap.State(), 0);
    SlotsInOrder(heap.State().free, bin, p);
  }

  /** The free slots of the class are those of the run at p behind the first, in order. */
  ghost predicate InSlotOrder(free: Lists, bin: nat, p: int) {
    && bin < |free| && |free[bin]| == BinElements(bin) - 1
    && forall k :: 0 <= k < |free[bin]| ==> free[bin][k] == p + (k + 1) * BinSize(bin)
  }

  lemma SlotsInOrder(free: Lists, bin: nat, p: int)
    requires bin < BINS && bin < |free| && free[bin] == SlotList(p, bin, 1)
    ensures InSlotOrder(free, bin, p)
  {
    BinFacts(bin);
    SlotListLength(p, bin, 1);
    forall k: nat | k < BinElements(bin) - 1
      ensures free[bin][k] == p + (k + 1) * BinSize(bin)
    {
      SlotListAt(p, bin, 1, k);
      AlongIs(p, BinSize(bin), 1 + k);
    }
  }

  method AllocSmallSlow(heap: Heap, bin: nat) returns (p: int)
    requires heap.Steady() && bin < BINS && bin < |heap.State().free| && heap.State().free[bin] == []
    modifies heap`ring, heap`cached, heap`chunks, heap`owner, heap`mapped, heap`lost, heap`freeSlot, heap`mem, heap`free
    modifies heap`chunksCount, heap`cachedCount, heap`realSize, heap`deleteBoundary, heap`deleteCount
    modifies heap`realPeak, heap`peakChunks, heap`pending, heap`live, heap`refusals
    ensures heap.lost ==> p == 0 && MainUnused(old(heap.State()))
    ensures !heap.lost ==> heap.Steady() && Gained(old(heap.State()), heap.State(), p, Small(bin))
    ensures p != 0 ==> InSlotOrder(heap.State().free, bin, p)
    ensures HasRun(old(heap.State()), BinPages(bin)) ==> p != 0
    ensures heap.Accounts()
    ensures p == 0 && !heap.lost ==> heap.refusals > old(heap.refusals) || heap.Full()
  {
    BinFacts(bin);
    ghost var at;
    p, at := AllocPages(heap, BinPages(bin));
    if p != 0 {
      SplitRun(heap, p, bin);
    }
  }

  // ---------- zend_mm_alloc_small and zend_mm_free_small ----------

  method PopSlot(heap: Heap, bin: nat) returns (p: int)
    requires bin < |heap.State().heads| && bin < |heap.State().free| && heap.State().free[bin] != []
    modifies heap`freeSlot, heap`free, heap`live
    ensures p == old(heap.State()).heads[bin]
    ensures heap.State() == PopStep(old(heap.State()), bin) && heap.Books() == old(heap.Books())
  {
    p := heap.freeSlot[bin];
    heap.live := heap.live[p := Small(bin)];
    heap.free := heap.free[bin := heap.free[bin][1..]];
    heap.freeSlot := heap.freeSlot[bin := Load(heap.mem, p)];
  }

  method AllocSmall(heap: Heap, bin: nat) returns (p: int)
    requires heap.Steady() && bin < BINS
    modifies heap`ring, heap`cached, heap`chunks, heap`owner, heap`mapped, heap`lost, heap`freeSlot, heap`mem, heap`free
    modifies heap`chunksCount, heap`cachedCount, heap`realSize, heap`deleteBoundary, heap`deleteCount
    modifies heap`realPeak, heap`peakChunks, heap`pending, heap`live, heap`size, heap`peak, heap`refusals
    ensures heap.lost ==> p == 0 && MainUnused(old(heap.State()))
    ensures !heap.lost ==> heap.Steady() && Gained(old(heap.State()), heap.State(), p, Small(bin))
    ensures heap.size == old(heap.size) + BinSize(bin) && heap.peak == Max(old(heap.peak), heap.size)
    ensures |old(heap.State()).heads| == |old(heap.State()).free| == BINS
    ensures var s := old(heap.State());
            s.free[bin] != [] ==> p == s.heads[bin] != 0 && heap.State() == PopStep(s, bin) && heap.Books() == old(heap.Books())
    ensures var s := old(heap.State());
            if s.free[bin] == [] then p != 0 ==> InSlotOrder(heap.State().free, bin, p)
            else p == s.free[bin][0] && heap.State().free == s.free[bin := s.free[bin][1..]]
    ensures HasRun(old(heap.State()), BinPages(bin)) ==> p != 0
    ensures heap.Accounts()
    ensures p == 0 && !heap.lost ==> heap.refusals > old(heap.refusals) || heap.Full()
  {
    ghost var s := heap.State();
    BooksStart(s, heap.Books());
    SoundPop(s, bin);
    AddSize(heap, BinSize(bin));
    if heap.freeSlot[bin] != 0 {
      p := PopSlot(heap, bin);
      SmallQuiet(s, heap.Books(), heap.State(), p, bin);
      OccupiedStays(s, heap.State(), 0);
    } else {
      p := AllocSmallSlow(heap, bin);
    }
  }

  method PushSlot(heap: Heap, a: int, bin: nat)
    requires bin < |heap.State().heads| && bin < |heap.State().free|
    modifies heap`freeSlot, heap`mem, heap`free, heap`live
    ensures heap.State() == PushStep(old(heap.State()), a, bin) && heap.Books() == old(heap.Books())
  {
    heap.live := heap.live - {a};
    heap.free := heap.free[bin := [a] + heap.free[bin]];
    heap.mem := StorePtr(heap.mem, a, heap.freeSlot[bin]);
    heap.freeSlot := heap.freeSlot[bin := a];
  }

  method FreeSmall(heap: Heap, a: int, bin: nat)
    requires heap.Steady() && a in heap.State().live && heap.State().live[a] == Small(bin)
    modifies heap`freeSlot, heap`mem, heap`free, heap`live, heap`size
    ensures heap.Steady() && heap.Books() == old(heap.Books())
    ensures bin < BINS && bin < |old(heap.State()).heads| && bin < |old(heap.State()).free|
    ensures heap.State() == PushStep(old(heap.State()), a, bin)
    ensures heap.State().free == old(heap.State()).free[bin := [a] + old(heap.State()).free[bin]]
    ensures heap.State().live == old(heap.State()).live - {a} && heap.State().chunks == old(heap.State()).chunks
    ensures Untouched(heap.State().live, old(heap.State()).mem, heap.State().mem)
    ensures heap.size == old(heap.size) - BinSize(bin)
  {
    ghost var s := heap.State();
    SoundPush(s, a);
    SubSize(heap, BinSize(bin));
    PushSlot(heap, a, bin);
    SameHugeDrop(s.live, a);
    BalancedQuiet(s, heap.State(), heap.Books());
    OccupiedStays(s, heap.State(), 0);
  }
}
