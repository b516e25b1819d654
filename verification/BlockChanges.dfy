/** How each page operation changes the set of blocks a chunk describes. */
module BlockChanges {
  import opened Bitset
  import opened Bins
  import opened Chunks
  import opened Blocks

  /** Two descriptions of a chunk with the same slots. */
  ghost predicate SameSlots(c: Chunk, o: seq<int>, r: Chunk, p: seq<int>)
    requires WellSized(c) && |o| == PAGES && WellSized(r) && |p| == PAGES
  {
    forall off, bin :: SlotIn(r, p, off, bin) <==> SlotIn(c, o, off, bin)
  }

  ghost predicate SameLarge(c: Chunk, o: seq<int>, r: Chunk, p: seq<int>)
    requires WellSized(c) && |o| == PAGES && WellSized(r) && |p| == PAGES
  {
    forall off, n :: LargeIn(r, p, off, n) <==> LargeIn(c, o, off, n)
  }

  /** Resizing the run at `page` affects only the block or blocks of that run. */
  lemma ResizedSlots(c: Chunk, owner: seq<int>, r: Chunk, page: nat, n0: nat, n1: nat)
    requires Resized(c, owner, r, page, n0, n1)
    ensures forall off, bin :: SlotIn(r, Own(owner, page, n1), off, bin)
              <==> SlotIn(c, owner, off, bin) && owner[off / PAGE_SIZE] != page
  {
    var o := Own(owner, page, n1);
    forall off, bin | 0 <= off < CHUNK_SIZE
      ensures SlotIn(r, o, off, bin) <==> SlotIn(c, owner, off, bin) && owner[off / PAGE_SIZE] != page
    {
      var p := off / PAGE_SIZE;
      if page <= p < page + n1 {
        assert o[p] == page;
        assert page + n0 <= p ==> owner[p] == -1;
        assert p < page + n0 ==> owner[p] == page;
      }
    }
  }

  lemma ResizedLarge(c: Chunk, owner: seq<int>, r: Chunk, page: nat, n0: nat, n1: nat)
    requires Resized(c, owner, r, page, n0, n1)
    ensures forall off, n :: LargeIn(r, Own(owner, page, n1), off, n)
              <==> if off == page * PAGE_SIZE then n1 != 0 && n == n1 else LargeIn(c, owner, off, n)
  {
    var o := Own(owner, page, n1);
    forall off, n | 0 < off < CHUNK_SIZE && off % PAGE_SIZE == 0 && off != page * PAGE_SIZE
      ensures LargeIn(r, o, off, n) <==> LargeIn(c, owner, off, n)
    {
      var p := off / PAGE_SIZE;
      assert p != page;
    }
  }

  lemma MakeSmallSlots(c: Chunk, owner: seq<int>, page: nat, bin: nat)
    requires Tiled(c, owner) && 1 <= page < PAGES && bin < BINS && c.info[page] == Lrun(BinPages(bin))
    ensures forall off, b :: SlotIn(MakeSmall(c, page, bin), owner, off, b)
              <==> SlotIn(c, owner, off, b) || (b == bin && off - page * PAGE_SIZE in Slots(bin))
  {
    var r := MakeSmall(c, page, bin);
    MakeSmallTiled(c, owner, page, bin);
    forall off, b | b == bin && off - page * PAGE_SIZE in Slots(bin)
      ensures SlotIn(r, owner, off, b)
    {
      SlotOfRun(r, owner, page, off - page * PAGE_SIZE);
    }
    forall off, b | SlotIn(r, owner, off, b) && !(b == bin && off - page * PAGE_SIZE in Slots(bin))
      ensures SlotIn(c, owner, off, b)
    {
      assert owner[owner[off / PAGE_SIZE]] == owner[off / PAGE_SIZE];
    }
    forall off, b | SlotIn(c, owner, off, b)
      ensures SlotIn(r, owner, off, b)
    {
      assert owner[owner[off / PAGE_SIZE]] == owner[off / PAGE_SIZE];
    }
  }

  lemma MakeSmallLarge(c: Chunk, owner: seq<int>, page: nat, bin: nat)
    requires Tiled(c, owner) && 1 <= page < PAGES && bin < BINS && c.info[page] == Lrun(BinPages(bin))
    ensures forall off, n :: LargeIn(MakeSmall(c, page, bin), owner, off, n)
              <==> LargeIn(c, owner, off, n) && off != page * PAGE_SIZE
  {
    BinFacts(bin);
    forall off, n | 0 < off < CHUNK_SIZE && off % PAGE_SIZE == 0 && owner[off / PAGE_SIZE] == off / PAGE_SIZE
      ensures LargeIn(MakeSmall(c, page, bin), owner, off, n) <==> LargeIn(c, owner, off, n) && off != page * PAGE_SIZE
    {
      var k := off / PAGE_SIZE;
      assert owner[page] == page;
      assert page <= k ==> (owner[k] == page <==> k < page + BinPages(bin));
    }
  }

  /** A chunk that owns only its header page has no blocks. */
  lemma NoBlocks(c: Chunk, owner: seq<int>)
    requires WellSized(c) && |owner| == PAGES && (forall k :: 1 <= k < PAGES ==> owner[k] == -1) && owner[0] == 0
    ensures forall off, bin :: !SlotIn(c, owner, off, bin)
    ensures forall off, n :: !LargeIn(c, owner, off, n)
  {
    forall off, bin | 0 <= off < CHUNK_SIZE
      ensures !SlotIn(c, owner, off, bin)
    {
      assert owner[off / PAGE_SIZE] <= 0;
    }
    forall off, n | 0 < off < CHUNK_SIZE && off % PAGE_SIZE == 0
      ensures !LargeIn(c, owner, off, n)
    {
      assert off / PAGE_SIZE >= 1;
    }
  }
}
