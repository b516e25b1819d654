/** One abstract step of the heap at a time: each keeps every block either handed out or free. */
module HeapSteps {
  import opened Bitset
  import opened Bins
  import opened Chunks
  import opened Blocks
  import opened BlockChanges
  import opened HeapInv

  // ---------- from one chunk to all chunks ----------

  lemma LiftSame(chunks: ChunkMap, owner: Owners, b: int, r: Chunk, o: seq<int>)
    requires Mapped(chunks, owner) && b in owner && Tiled(r, o)
    requires SameSlots(chunks[b], owner[b], r, o) && SameLarge(chunks[b], owner[b], r, o)
    ensures Mapped(chunks[b := r], owner[b := o])
    ensures SameBlocks(chunks, owner, chunks[b := r], owner[b := o])
  {
  }

  /** Resizing a run: its slots disappear, its large block becomes one of n1 pages (0: none), and nothing
      else changes. */
  lemma LiftResize(chunks: ChunkMap, owner: Owners, b: int, r: Chunk, page: nat, n0: nat, n1: nat)
    requires Mapped(chunks, owner) && b in owner && Resized(chunks[b], owner[b], r, page, n0, n1)
    requires Tiled(r, Own(owner[b], page, n1))
    ensures var chunks', owner' := chunks[b := r], owner[b := Own(owner[b], page, n1)];
            && Mapped(chunks', owner')
            && (forall a, bin: nat :: SlotAt(chunks', owner', a, bin)
                  <==> SlotAt(chunks, owner, a, bin) && !(Base(a) == b && owner[b][Page(a)] == page))
            && (forall a, n: nat :: LargeAt(chunks', owner', a, n)
                  <==> if a == b + page * PAGE_SIZE then n1 != 0 && n == n1 else LargeAt(chunks, owner, a, n))
  {
    var c, o := chunks[b], owner[b];
    var chunks', owner' := chunks[b := r], owner[b := Own(o, page, n1)];
    ResizedSlots(c, o, r, page, n0, n1);
    ResizedLarge(c, o, r, page, n0, n1);
    SplitAddress(b, page * PAGE_SIZE);
    forall a, n: nat
      ensures LargeAt(chunks', owner', a, n)
         <==> if a == b + page * PAGE_SIZE then n1 != 0 && n == n1 else LargeAt(chunks, owner, a, n)
    {
      JoinAddress(a);
    }
  }

  lemma SameBlocksOk(c0: ChunkMap, o0: Owners, c1: ChunkMap, o1: Owners, free: Lists, live: Live, pending: int)
    requires BlocksOk(c0, o0, free, live, pending) && SameBlocks(c0, o0, c1, o1)
    ensures BlocksOk(c1, o1, free, live, pending)
  {
    forall a | a in live
      ensures BlockAt(c1, o1, a, live[a])
    {
      assert BlockAt(c0, o0, a, live[a]);
    }
    forall bin: nat, a | bin < BINS && a in free[bin]
      ensures SlotAt(c1, o1, a, bin)
    {
      assert SlotAt(c0, o0, a, bin);
    }
  }

  // ---------- small blocks ----------

  /** Take the head of a free list. */
  lemma Pop(chunks: ChunkMap, owner: Owners, free: Lists, live: Live, bin: nat)
    requires Mapped(chunks, owner) && BlocksOk(chunks, owner, free, live, 0)
    requires bin < BINS && free[bin] != []
    ensures var a := free[bin][0];
            && a !in live && a != 0
            && BlocksOk(chunks, owner, free[bin := free[bin][1..]], live[a := Small(bin)], 0)
  {
    var a := free[bin][0];
    var free', live' := free[bin := free[bin][1..]], live[a := Small(bin)];
    assert SlotAt(chunks, owner, a, bin);
    SlotNotZero(chunks, owner, a, Small(bin));
    forall c: nat, x | c < BINS && x in free'[c]
      ensures SlotAt(chunks, owner, x, c) && x !in live'
    {
      assert x in free[c];
      if x == a {
        OneKind(chunks, owner, a, Small(bin), Small(c));
      }
    }
    forall x, c: nat | SlotAt(chunks, owner, x, c) && x !in live'
      ensures x in free'[c]
    {
      assert x in free[c];
      if c == bin {
        assert free[bin] == [a] + free[bin][1..];
      }
    }
  }

  lemma SlotNotZero(chunks: ChunkMap, owner: Owners, a: int, k: Kind)
    requires Mapped(chunks, owner) && BlockAt(chunks, owner, a, k)
    ensures 0 < a
  {
    JoinAddress(a);
  }

  /** Put a block back at the head of its free list. */
  lemma Push(chunks: ChunkMap, owner: Owners, free: Lists, live: Live, a: int)
    requires Mapped(chunks, owner) && BlocksOk(chunks, owner, free, live, 0)
    requires a in live && live[a].Small? && live[a].bin < BINS
    ensures var bin := live[a].bin; BlocksOk(chunks, owner, free[bin := [a] + free[bin]], live - {a}, 0)
  {
    var bin := live[a].bin;
    var free', live' := free[bin := [a] + free[bin]], live - {a};
    assert BlockAt(chunks, owner, a, live[a]);
    assert a !in free[bin];
    forall x, c: nat | SlotAt(chunks, owner, x, c) && x !in live'
      ensures c < BINS && x in free'[c]
    {
      if x == a {
        OneKind(chunks, owner, a, Small(bin), Small(c));
      }
    }
    forall x, n: nat | LargeAt(chunks, owner, x, n)
      ensures x in live' || x == 0
    {
      if x == a {
        OneKind(chunks, owner, a, Small(bin), Large(n));
      }
    }
  }

  // ---------- large blocks ----------

  ghost predicate SameSlotsAt(c0: ChunkMap, o0: Owners, c1: ChunkMap, o1: Owners) {
    forall a, bin: nat :: SlotAt(c1, o1, a, bin) <==> SlotAt(c0, o0, a, bin)
  }

  /** The large block at p now has `to` pages (0: it is gone); the other large blocks are as before. */
  ghost predicate LargeNow(c0: ChunkMap, o0: Owners, c1: ChunkMap, o1: Owners, p: int, to: nat) {
    forall a, n: nat :: LargeAt(c1, o1, a, n) <==> if a == p then to != 0 && n == to else LargeAt(c0, o0, a, n)
  }

  /** No slot belongs to a page that is free, or to a large run. */
  lemma NoSlotOfOwner(c: Chunk, o: seq<int>, page: nat, off: int, bin: nat)
    requires Tiled(c, o) && page < PAGES && (o[page] == -1 || c.info[page].Lrun?)
    ensures !(SlotIn(c, o, off, bin) && o[off / PAGE_SIZE] == page)
  {
    if SlotIn(c, o, off, bin) {
      var p := off / PAGE_SIZE;
      assert o[o[p]] == o[p];
    }
  }

  /** Taking, freeing, growing and shrinking a large run leave all slots alone. */
  lemma LiftLarge(chunks: ChunkMap, owner: Owners, b: int, r: Chunk, page: nat, n: nat, to: nat)
    requires Mapped(chunks, owner) && b in owner && Resized(chunks[b], owner[b], r, page, n, to)
    requires Tiled(r, Own(owner[b], page, to)) && (n == 0 || chunks[b].info[page] == Lrun(n))
    ensures var p := b + page * PAGE_SIZE;
            var chunks', owner' := chunks[b := r], owner[b := Own(owner[b], page, to)];
            && Mapped(chunks', owner') && SameSlotsAt(chunks, owner, chunks', owner')
            && LargeNow(chunks, owner, chunks', owner', p, to)
            && 0 < p && (forall m: nat :: LargeAt(chunks, owner, p, m) <==> n != 0 && m == n)
            && (forall bin: nat :: !SlotAt(chunks, owner, p, bin))
  {
    LiftResize(chunks, owner, b, r, page, n, to);
    SplitAddress(b, page * PAGE_SIZE);
    assert Page(b + page * PAGE_SIZE) == page;
    forall a, bin: nat
      ensures !(SlotAt(chunks, owner, a, bin) && Base(a) == b && owner[b][Page(a)] == page)
    {
      NoSlotOfOwner(chunks[b], owner[b], page, Offset(a), bin);
    }
  }

  /** zend_mm_alloc_pages takes a run: it is described by the page map but not handed out yet. */
  lemma TakeRun(c0: ChunkMap, o0: Owners, c1: ChunkMap, o1: Owners, free: Lists, live: Live, p: int, n: nat)
    requires Mapped(c0, o0) && BlocksOk(c0, o0, free, live, 0) && 0 < n && 0 < p && Offset(p) != 0
    requires SameSlotsAt(c0, o0, c1, o1) && LargeNow(c0, o0, c1, o1, p, n)
    requires (forall m: nat :: !LargeAt(c0, o0, p, m)) && (forall bin: nat :: !SlotAt(c0, o0, p, bin))
    ensures BlocksOk(c1, o1, free, live, p) && LargeAt(c1, o1, p, n)
  {
    forall a | a in live
      ensures a != p && BlockAt(c1, o1, a, live[a])
    {
      assert BlockAt(c0, o0, a, live[a]);
    }
    forall bin: nat, a | bin < BINS && a in free[bin]
      ensures SlotAt(c1, o1, a, bin)
    {
      assert SlotAt(c0, o0, a, bin);
    }
    NoZeroBlock(c0, o0, live);
  }

  lemma NoZeroBlock(chunks: ChunkMap, owner: Owners, live: Live)
    requires Mapped(chunks, owner) && LiveOk(chunks, owner, live)
    ensures 0 !in live
    ensures forall n: nat :: !LargeAt(chunks, owner, 0, n)
  {
    assert forall a :: a in live ==> BlockAt(chunks, owner, a, live[a]);
  }

  lemma HandOut(chunks: ChunkMap, owner: Owners, free: Lists, live: Live, p: int, n: nat)
    requires Mapped(chunks, owner) && BlocksOk(chunks, owner, free, live, p) && LargeAt(chunks, owner, p, n) && 0 < p
    ensures BlocksOk(chunks, owner, free, live[p := Large(n)], 0)
  {
    NotFree(chunks, owner, free, live, p, n, p);
    NoZeroBlock(chunks, owner, live);
  }

  /** A large block is on no free list. */
  lemma NotFree(chunks: ChunkMap, owner: Owners, free: Lists, live: Live, p: int, n: nat, pending: int)
    requires Mapped(chunks, owner) && BlocksOk(chunks, owner, free, live, pending) && LargeAt(chunks, owner, p, n)
    ensures forall bin: nat :: !SlotAt(chunks, owner, p, bin)
    ensures forall bin: nat, a :: bin < BINS && a in free[bin] ==> a != p
  {
    forall bin: nat
      ensures !SlotAt(chunks, owner, p, bin)
    {
      if SlotAt(chunks, owner, p, bin) {
        OneKind(chunks, owner, p, Small(bin), Large(n));
      }
    }
    forall bin: nat, a | bin < BINS && a in free[bin]
      ensures a != p
    {
      assert SlotAt(chunks, owner, a, bin);
    }
  }

  /** Free (to == 0), grow or shrink a large block; everything else keeps its place. */
  lemma ResizeRun(c0: ChunkMap, o0: Owners, c1: ChunkMap, o1: Owners, free: Lists, live: Live, p: int, n: nat, to: nat)
    requires Mapped(c0, o0) && BlocksOk(c0, o0, free, live, 0) && 0 < p && LargeAt(c0, o0, p, n)
    requires SameSlotsAt(c0, o0, c1, o1) && LargeNow(c0, o0, c1, o1, p, to)
    ensures BlocksOk(c1, o1, free, if to == 0 then live - {p} else live[p := Large(to)], 0)
  {
    var live' := if to == 0 then live - {p} else live[p := Large(to)];
    NotFree(c0, o0, free, live, p, n, 0);
    NoZeroBlock(c0, o0, live);
    forall a | a in live' && a != p
      ensures BlockAt(c1, o1, a, live'[a])
    {
      assert BlockAt(c0, o0, a, live[a]);
    }
    forall bin: nat, a | bin < BINS && a in free[bin]
      ensures SlotAt(c1, o1, a, bin) && a !in live'
    {
      assert SlotAt(c0, o0, a, bin);
    }
    forall x, bin: nat | SlotAt(c1, o1, x, bin)
      ensures bin < BINS && (x in live' || x in free[bin])
    {
      assert SlotAt(c0, o0, x, bin);
    }
    forall x, m: nat | LargeAt(c1, o1, x, m)
      ensures x in live' || x == 0
    {
      assert x != p ==> LargeAt(c0, o0, x, m);
    }
  }

  // ---------- a new run of small blocks ----------

  /** The slots of the run at p from number e on, in address order. */
  function SlotList(p: int, bin: nat, e: nat): seq<int>
    decreases BinElements(bin) - e
  {
    if e < BinElements(bin) then [p + e * BinSize(bin)] + SlotList(p, bin, e + 1) else []
  }

  lemma {:induction false} SlotListMembers(p: int, bin: nat, e: nat, a: int)
    requires bin < BINS
    ensures a in SlotList(p, bin, e) ==> a - p in Slots(bin) && p + e * BinSize(bin) <= a
    decreases BinElements(bin) - e
  {
    if e < BinElements(bin) {
      BinFacts(bin);
      SlotByNumber(bin, BinElements(bin), e);
      SlotListMembers(p, bin, e + 1, a);
      MultipleStep(e, e + 1, BinSize(bin));
    }
  }

  lemma {:induction false} SlotListHas(p: int, bin: nat, e: nat, f: nat)
    requires e <= f < BinElements(bin)
    ensures p + f * BinSize(bin) in SlotList(p, bin, e)
    decreases f - e
  {
    if e < f {
      SlotListHas(p, bin, e + 1, f);
    }
  }

  lemma {:induction false} SlotListNoDup(p: int, bin: nat, e: nat)
    requires bin < BINS
    ensures NoDup(SlotList(p, bin, e))
    decreases BinElements(bin) - e
  {
    if e < BinElements(bin) {
      var rest := SlotList(p, bin, e + 1);
      BinFacts(bin);
      SlotListNoDup(p, bin, e + 1);
      MultipleStep(e, e + 1, BinSize(bin));
      forall j | 0 <= j < |rest|
        ensures rest[j] != p + e * BinSize(bin)
      {
        SlotListMembers(p, bin, e + 1, rest[j]);
      }
    }
  }

  lemma SlotListExact(p: int, bin: nat, a: int)
    requires bin < BINS
    ensures a in SlotList(p, bin, 1) <==> a - p in Slots(bin) && a != p
  {
    BinFacts(bin);
    SlotListMembers(p, bin, 1, a);
    var size := BinSize(bin);
    assert 1 * size == size && 0 * size == 0;
    if a - p in Slots(bin) && a != p {
      var f := SlotNumber(bin, BinElements(bin), a - p);
      assert f != 0;
      SlotListHas(p, bin, 1, f);
    }
  }

  /** The slots after the first of the run at p. */
  lemma SlotListIs(p: int, bin: nat)
    requires bin < BINS
    ensures NoDup(SlotList(p, bin, 1))
    ensures forall a :: a in SlotList(p, bin, 1) <==> a - p in Slots(bin) && a != p
    ensures 0 in Slots(bin)
  {
    BinFacts(bin);
    SlotListNoDup(p, bin, 1);
    SlotByNumber(bin, BinElements(bin), 0);
    forall a {
      SlotListExact(p, bin, a);
    }
  }

  /** The slots of the run of class bin at p appear; the large block at p is gone. */
  ghost predicate RunAppears(c0: ChunkMap, c1: ChunkMap, owner: Owners, p: int, bin: nat) {
    && (forall a, c: nat :: SlotAt(c1, owner, a, c) <==> SlotAt(c0, owner, a, c) || (c == bin && a - p in Slots(bin)))
    && (forall a, n: nat :: LargeAt(c1, owner, a, n) <==> LargeAt(c0, owner, a, n) && a != p)
  }

  lemma SlotAddress(b: int, page: nat, bin: nat, a: int)
    requires b % CHUNK_SIZE == 0 && bin < BINS && page + BinPages(bin) <= PAGES
    ensures a - (b + page * PAGE_SIZE) in Slots(bin) <==> Base(a) == b && Offset(a) - page * PAGE_SIZE in Slots(bin)
  {
    JoinAddress(a);
    var d := a - (b + page * PAGE_SIZE);
    if Base(a) == b {
      assert Offset(a) - page * PAGE_SIZE == d;
    } else if d in Slots(bin) {
      BinFacts(bin);
      SlotInside(bin, d);
      SplitAddress(b, page * PAGE_SIZE + d);
    }
  }

  lemma LiftMakeSmallSlots(chunks: ChunkMap, owner: Owners, b: int, page: nat, bin: nat, a: int, k: nat)
    requires Mapped(chunks, owner) && b in owner && 1 <= page < PAGES && bin < BINS
    requires chunks[b].info[page] == Lrun(BinPages(bin))
    ensures SlotAt(chunks[b := MakeSmall(chunks[b], page, bin)], owner, a, k)
       <==> SlotAt(chunks, owner, a, k) || (k == bin && a - (b + page * PAGE_SIZE) in Slots(bin))
  {
    MakeSmallSlots(chunks[b], owner[b], page, bin);
    assert owner[b][page] == page;
    SlotAddress(b, page, bin, a);
  }

  lemma LiftMakeSmallLarge(chunks: ChunkMap, owner: Owners, b: int, page: nat, bin: nat, a: int, n: nat)
    requires Mapped(chunks, owner) && b in owner && 1 <= page < PAGES && bin < BINS
    requires chunks[b].info[page] == Lrun(BinPages(bin))
    ensures LargeAt(chunks[b := MakeSmall(chunks[b], page, bin)], owner, a, n)
       <==> LargeAt(chunks, owner, a, n) && a != b + page * PAGE_SIZE
  {
    MakeSmallLarge(chunks[b], owner[b], page, bin);
    SplitAddress(b, page * PAGE_SIZE);
    JoinAddress(a);
  }

  lemma LiftMakeSmall(chunks: ChunkMap, owner: Owners, b: int, page: nat, bin: nat)
    requires Mapped(chunks, owner) && b in owner && 1 <= page < PAGES && bin < BINS
    requires chunks[b].info[page] == Lrun(BinPages(bin))
    ensures var chunks' := chunks[b := MakeSmall(chunks[b], page, bin)];
            Mapped(chunks', owner) && RunAppears(chunks, chunks', owner, b + page * PAGE_SIZE, bin)
  {
    MakeSmallTiled(chunks[b], owner[b], page, bin);
    forall a, k: nat {
      LiftMakeSmallSlots(chunks, owner, b, page, bin, a, k);
    }
    forall a, n: nat {
      LiftMakeSmallLarge(chunks, owner, b, page, bin, a, n);
    }
  }

  /** Whatever block starts on a slot of the large run at p is that run itself. */
  lemma OnlyTheRun(chunks: ChunkMap, owner: Owners, p: int, bin: nat, a: int, k: Kind)
    requires Mapped(chunks, owner) && bin < BINS && LargeAt(chunks, owner, p, BinPages(bin))
    requires a - p in Slots(bin) && BlockAt(chunks, owner, a, k)
    ensures a == p && k == Large(BinPages(bin))
  {
    var run := Large(BinPages(bin));
    BinFacts(bin);
    SlotInside(bin, a - p);
    BlockPages(chunks, owner, p, run, a);
    JoinAddress(a);
    JoinAddress(p);
    var c, o := chunks[Base(a)], owner[Base(a)];
    forall j: nat
      ensures !SlotAt(chunks, owner, a, j)
    {
      NoSlotOfOwner(c, o, Page(p), Offset(a), j);
    }
  }

  /** No slot of the run to be made is a block yet. */
  lemma NewSlotsUnused(chunks: ChunkMap, owner: Owners, free: Lists, live: Live, p: int, bin: nat)
    requires bin < BINS && Mapped(chunks, owner) && BlocksOk(chunks, owner, free, live, p)
    requires LargeAt(chunks, owner, p, BinPages(bin))
    ensures forall a :: a - p in Slots(bin) ==> a !in live
    ensures forall a, c: nat :: a - p in Slots(bin) && c < BINS ==> a !in free[c]
  {
    forall a, k | a - p in Slots(bin) && BlockAt(chunks, owner, a, k)
      ensures a == p && k == Large(BinPages(bin))
    {
      OnlyTheRun(chunks, owner, p, bin, a, k);
    }
    assert forall a :: a in live ==> BlockAt(chunks, owner, a, live[a]);
    assert forall a, c: nat :: c < BINS && a in free[c] ==> BlockAt(chunks, owner, a, Small(c));
  }

  /** zend_mm_alloc_small_slow: the pending run becomes a run of small blocks; its first slot is handed out
      and the others form the free list, which was empty. */
  lemma NewSmallRun(c0: ChunkMap, c1: ChunkMap, owner: Owners, free: Lists, live: Live, p: int, bin: nat)
    requires bin < BINS && 0 < p && Mapped(c0, owner) && BlocksOk(c0, owner, free, live, p)
    requires LargeAt(c0, owner, p, BinPages(bin)) && RunAppears(c0, c1, owner, p, bin) && free[bin] == []
    ensures BlocksOk(c1, owner, free[bin := SlotList(p, bin, 1)], live[p := Small(bin)], 0)
  {
    var free', live' := free[bin := SlotList(p, bin, 1)], live[p := Small(bin)];
    SlotListIs(p, bin);
    NewSlotsUnused(c0, owner, free, live, p, bin);
    NoZeroBlock(c0, owner, live);
    forall a | a in live
      ensures a != p && BlockAt(c1, owner, a, live[a])
    {
      assert BlockAt(c0, owner, a, live[a]);
    }
    assert SlotAt(c1, owner, p, bin);
    forall c: nat, a | c < BINS && a in free'[c]
      ensures SlotAt(c1, owner, a, c) && a !in live'
    {
      if c != bin {
        assert SlotAt(c0, owner, a, c);
      }
    }
    forall x, c: nat | SlotAt(c1, owner, x, c)
      ensures c < BINS && (x in live' || x in free'[c])
    {
      if !(c == bin && x - p in Slots(bin)) {
        assert SlotAt(c0, owner, x, c);
        assert c == bin ==> x in live;
      }
    }
  }

  // ---------- chunks come and go ----------

  /** A chunk with only its header page can join the heap, or leave it, without touching any block. */
  lemma JoinChunk(chunks: ChunkMap, owner: Owners, b: int, c: Chunk)
    requires Mapped(chunks, owner) && b !in owner && 0 < b && b % CHUNK_SIZE == 0 && Tiled(c, HeaderOnly())
    ensures Mapped(chunks[b := c], owner[b := HeaderOnly()])
    ensures SameBlocks(chunks, owner, chunks[b := c], owner[b := HeaderOnly()])
  {
    NoBlocks(c, HeaderOnly());
  }

  lemma LeaveChunk(chunks: ChunkMap, owner: Owners, b: int)
    requires Mapped(chunks, owner) && b in owner && chunks[b].freePages == PAGES - FIRST_PAGE
    ensures Mapped(chunks, owner - {b})
    ensures SameBlocks(chunks, owner, chunks, owner - {b})
    ensures AllClear(chunks[b].bits, FIRST_PAGE, PAGES)
    ensures forall k :: 1 <= k < PAGES ==> !Header(chunks[b].info[k])
  {
    var c, o := chunks[b], owner[b];
    assert Tiled(c, o);
    EmptyByCount(c, o);
    NoBlocks(c, o);
  }

  /** The free-page counter at its maximum means that only the header page is allocated. */
  lemma EmptyByCount(c: Chunk, o: seq<int>)
    requires Tiled(c, o) && c.freePages == PAGES - FIRST_PAGE
    ensures AllClear(c.bits, FIRST_PAGE, PAGES)
    ensures o[0] == 0 && forall k :: 1 <= k < PAGES ==> o[k] == -1
  {
    assert o[0] == 0;
    forall k | 1 <= k < PAGES
      ensures !c.bits[k]
    {
      FreeCountAdds(c.bits, 0, 1);
      FreeCountAdds(c.bits, 1, k);
      FreeCountAdds(c.bits, k, k + 1);
      FreeCountAdds(c.bits, k + 1, PAGES);
    }
  }
}
