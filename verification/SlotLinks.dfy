/** The links zend_mm_alloc_small_slow writes into the free slots of a new run. */
module SlotLinks {
  import opened Bins
  import opened Chunks
  import opened Blocks
  import opened HeapInv
  import opened HeapMem
  import opened HeapSteps

  /** The address e steps of `size` bytes past p. */
  function Along(p: int, size: nat, e: nat): int {
    if e == 0 then p else Along(p, size, e - 1) + size
  }

  lemma {:induction false} AlongIs(p: int, size: nat, e: nat)
    ensures Along(p, size, e) == p + e * size
  {
    if e > 0 {
      AlongIs(p, size, e - 1);
      assert e * size == (e - 1) * size + size;
    }
  }

  lemma {:induction false} AlongGrows(p: int, size: nat, e: nat, f: nat)
    requires e < f
    ensures Along(p, size, e) + size <= Along(p, size, f)
    decreases f - e
  {
    if e + 1 < f {
      AlongGrows(p, size, e, f - 1);
    }
  }

  lemma {:induction false} SlotListAt(p: int, bin: nat, e: nat, j: nat)
    requires e + j < BinElements(bin)
    ensures |SlotList(p, bin, e)| == BinElements(bin) - e
    ensures SlotList(p, bin, e)[j] == Along(p, BinSize(bin), e + j)
    decreases BinElements(bin) - e
  {
    AlongIs(p, BinSize(bin), e);
    SlotListLength(p, bin, e);
    if j > 0 {
      SlotListAt(p, bin, e + 1, j - 1);
    }
  }

  lemma {:induction false} SlotListLength(p: int, bin: nat, e: nat)
    requires e <= BinElements(bin)
    ensures |SlotList(p, bin, e)| == BinElements(bin) - e
    decreases BinElements(bin) - e
  {
    if e < BinElements(bin) {
      SlotListLength(p, bin, e + 1);
    }
  }

  /** The slots from number 1 up to e are linked to their successors. */
  ghost predicate Linked(mem: Memory, p: int, size: nat, e: nat) {
    forall f :: 1 <= f < e ==> Load(mem, Along(p, size, f)) == Along(p, size, f + 1)
  }

  /** Nothing has been written but in [p + size, p + bytes). */
  ghost predicate WrittenIn(before: Memory, mem: Memory, p: int, bytes: nat) {
    forall x :: !(p <= x < p + bytes) ==> Load(mem, x) == Load(before, x)
  }

  lemma LinkOne(mem: Memory, p: int, size: nat, e: nat, to: int)
    requires LINK_SIZE <= size && 1 <= e && Linked(mem, p, size, e)
    ensures Linked(StorePtr(mem, Along(p, size, e), to), p, size, e)
  {
    forall f | 1 <= f < e
      ensures Load(StorePtr(mem, Along(p, size, e), to), Along(p, size, f)) == Along(p, size, f + 1)
    {
      AlongGrows(p, size, f, e);
    }
  }

  lemma WriteOne(before: Memory, mem: Memory, p: int, size: nat, n: nat, e: nat, to: int, bytes: nat)
    requires LINK_SIZE <= size && 1 <= e < n && n * size <= bytes && WrittenIn(before, mem, p, bytes)
    ensures WrittenIn(before, StorePtr(mem, Along(p, size, e), to), p, bytes)
  {
    AlongIs(p, size, e);
    MultipleStep(0, e, size);
    MultipleStep(e, n, size);
  }

  /** A completely linked run is the chain of its slots after the first. */
  lemma LinkedIsChained(mem: Memory, p: int, bin: nat)
    requires bin < BINS && 0 < p && 1 < BinElements(bin)
    requires Linked(mem, p, BinSize(bin), BinElements(bin) - 1)
    requires Load(mem, Along(p, BinSize(bin), BinElements(bin) - 1)) == 0
    ensures Along(p, BinSize(bin), 1) == Head(SlotList(p, bin, 1))
    ensures Chained(mem, Head(SlotList(p, bin, 1)), SlotList(p, bin, 1))
  {
    BinFacts(bin);
    var list, n, size := SlotList(p, bin, 1), BinElements(bin), BinSize(bin);
    SlotListAt(p, bin, 1, 0);
    forall i | 0 <= i < |list|
      ensures list[i] != 0 && Load(mem, list[i]) == Next(list, i)
    {
      SlotListAt(p, bin, 1, i);
      AlongGrows(p, size, 0, i + 1);
      if i + 1 < |list| {
        SlotListAt(p, bin, 1, i + 1);
      }
    }
  }

  // ---------- the loop ----------

  /** The loop stands at slot number e, whose address is q. */
  ghost predicate LinkingNow(before: Memory, mem: Memory, p: int, bin: nat, e: nat, q: int) {
    && bin < BINS && 0 < p && 1 <= e < BinElements(bin) && q == Along(p, BinSize(bin), e)
    && Linked(mem, p, BinSize(bin), e)
    && WrittenIn(before, mem, p, BinPages(bin) * PAGE_SIZE)
  }

  ghost predicate LinkingBehind(before: Memory, mem: Memory, p: int, bin: nat, e: nat, q: int, k: nat)
    decreases k
  {
    if k == 0 then LinkingNow(before, mem, p, bin, e, q) else LinkingBehind(before, mem, p, bin, e, q, k - 1)
  }

  ghost predicate Linking(before: Memory, mem: Memory, p: int, bin: nat, e: nat, q: int) {
    LinkingBehind(before, mem, p, bin, e, q, e + 3)
  }

  lemma {:induction false} LinkingBehindIs(before: Memory, mem: Memory, p: int, bin: nat, e: nat, q: int, k: nat)
    ensures LinkingBehind(before, mem, p, bin, e, q, k) == LinkingNow(before, mem, p, bin, e, q)
    decreases k
  {
    if k > 0 {
      LinkingBehindIs(before, mem, p, bin, e, q, k - 1);
    }
  }

  lemma LinkingIs(before: Memory, mem: Memory, p: int, bin: nat, e: nat, q: int)
    ensures Linking(before, mem, p, bin, e, q) == LinkingNow(before, mem, p, bin, e, q)
  {
    LinkingBehindIs(before, mem, p, bin, e, q, e + 3);
  }

  lemma LinkingStarts(mem: Memory, p: int, bin: nat)
    requires bin < BINS && 0 < p
    ensures Linking(mem, mem, p, bin, 1, p + BinSize(bin))
  {
    BinFacts(bin);
    assert Along(p, BinSize(bin), 0) == p;
    LinkingIs(mem, mem, p, bin, 1, p + BinSize(bin));
  }

  /** The address of the last slot is reached with the last slot. */
  lemma LinkingAt(before: Memory, mem: Memory, p: int, bin: nat, e: nat, q: int)
    requires Linking(before, mem, p, bin, e, q)
    ensures bin < BINS && 1 <= e < BinElements(bin)
    ensures q == Along(p, BinSize(bin), BinElements(bin) - 1) <==> e == BinElements(bin) - 1
  {
    LinkingIs(before, mem, p, bin, e, q);
    BinFacts(bin);
    if e < BinElements(bin) - 1 {
      AlongGrows(p, BinSize(bin), e, BinElements(bin) - 1);
    }
  }

  lemma LinkingSteps(before: Memory, mem: Memory, p: int, bin: nat, e: nat, q: int)
    requires Linking(before, mem, p, bin, e, q) && e < BinElements(bin) - 1
    ensures Linking(before, StorePtr(mem, q, q + BinSize(bin)), p, bin, e + 1, q + BinSize(bin))
  {
    var to := q + BinSize(bin);
    LinkingIs(before, mem, p, bin, e, q);
    BinFacts(bin);
    LinkOne(mem, p, BinSize(bin), e, to);
    WriteOne(before, mem, p, BinSize(bin), BinElements(bin), e, to, BinPages(bin) * PAGE_SIZE);
    LinkingIs(before, StorePtr(mem, q, to), p, bin, e + 1, to);
  }

  lemma LinkingEnds(before: Memory, mem: Memory, p: int, bin: nat, e: nat, q: int)
    requires Linking(before, mem, p, bin, e, q) && e == BinElements(bin) - 1
    ensures p + BinSize(bin) == Head(SlotList(p, bin, 1))
    ensures Chained(StorePtr(mem, q, 0), Head(SlotList(p, bin, 1)), SlotList(p, bin, 1))
    ensures WrittenIn(before, StorePtr(mem, q, 0), p, BinPages(bin) * PAGE_SIZE)
  {
    LinkingIs(before, mem, p, bin, e, q);
    BinFacts(bin);
    LinkOne(mem, p, BinSize(bin), e, 0);
    WriteOne(before, mem, p, BinSize(bin), BinElements(bin), e, 0, BinPages(bin) * PAGE_SIZE);
    LinkedIsChained(StorePtr(mem, q, 0), p, bin);
  }
}
