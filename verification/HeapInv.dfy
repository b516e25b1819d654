/** The invariant of the whole heap, as predicates on its parts: chunks, free lists, blocks handed out. */
module HeapInv {
  import opened Bitset
  import opened Bins
  import opened Chunks
  import opened Blocks
  import opened BlockChanges

  type ChunkMap = map<int, Chunk>
  type Owners = map<int, seq<int>>
  type Lists = seq<seq<int>>
  type Live = map<int, Kind>
  type Memory = map<int, int>

  // ---------- chunks and the blocks they describe ----------

  /** Every chunk in use is aligned and well formed. */
  ghost predicate Mapped(chunks: ChunkMap, owner: Owners) {
    forall b :: b in owner ==> b in chunks && 0 < b && b % CHUNK_SIZE == 0 && Tiled(chunks[b], owner[b])
  }

  ghost predicate SlotAt(chunks: ChunkMap, owner: Owners, a: int, bin: nat) {
    var b := Base(a);
    && b in owner && b in chunks && WellSized(chunks[b]) && |owner[b]| == PAGES
    && SlotIn(chunks[b], owner[b], Offset(a), bin)
  }

  ghost predicate LargeAt(chunks: ChunkMap, owner: Owners, a: int, n: nat) {
    var b := Base(a);
    && b in owner && b in chunks && WellSized(chunks[b]) && |owner[b]| == PAGES
    && LargeIn(chunks[b], owner[b], Offset(a), n)
  }

  ghost predicate BlockAt(chunks: ChunkMap, owner: Owners, a: int, k: Kind) {
    match k
    case Small(bin) => SlotAt(chunks, owner, a, bin)
    case Large(n) => LargeAt(chunks, owner, a, n)
    case Huge(_) => 0 < a && Offset(a) == 0
  }

  ghost predicate SameBlocks(c0: ChunkMap, o0: Owners, c1: ChunkMap, o1: Owners) {
    && (forall a, bin: nat :: SlotAt(c1, o1, a, bin) <==> SlotAt(c0, o0, a, bin))
    && (forall a, n: nat :: LargeAt(c1, o1, a, n) <==> LargeAt(c0, o0, a, n))
  }

  // ---------- blocks: each one is either handed out or on its free list ----------

  ghost predicate NoDup(s: seq<int>) {
    forall i, j :: 0 <= i < j < |s| ==> s[i] != s[j]
  }

  /** The free lists hold slots of their class, each once, and none that is handed out. */
  ghost predicate FreeOk(chunks: ChunkMap, owner: Owners, free: Lists, live: Live) {
    && |free| == BINS
    && forall bin :: 0 <= bin < BINS ==>
         && NoDup(free[bin])
         && forall a :: a in free[bin] ==> SlotAt(chunks, owner, a, bin) && a !in live
  }

  /** Every block handed out is described by the page map. */
  ghost predicate LiveOk(chunks: ChunkMap, owner: Owners, live: Live) {
    forall a :: a in live ==> BlockAt(chunks, owner, a, live[a])
  }

  /** Every block the page map describes is handed out, or a free slot. `pending` is a run just taken by
      zend_mm_alloc_pages and not yet handed out (0 when there is none). */
  ghost predicate Complete(chunks: ChunkMap, owner: Owners, free: Lists, live: Live, pending: int)
    requires |free| == BINS
  {
    && (forall a, bin: nat :: SlotAt(chunks, owner, a, bin) ==> bin < BINS && (a in live || a in free[bin]))
    && (forall a, n: nat :: LargeAt(chunks, owner, a, n) ==> a in live || a == pending)
  }

  ghost predicate BlocksOk(chunks: ChunkMap, owner: Owners, free: Lists, live: Live, pending: int) {
    && FreeOk(chunks, owner, free, live)
    && LiveOk(chunks, owner, live)
    && Complete(chunks, owner, free, live, pending)
    && pending !in live
  }

  // ---------- the class of a block is determined by its address ----------

  lemma OneKind(chunks: ChunkMap, owner: Owners, a: int, k: Kind, l: Kind)
    requires Mapped(chunks, owner)
    requires BlockAt(chunks, owner, a, k) && BlockAt(chunks, owner, a, l) && !k.Huge?
    ensures k == l
  {
    var c, o := chunks[Base(a)], owner[Base(a)];
    assert Tiled(c, o);
    var p := Offset(a) / PAGE_SIZE;
    assert o[p] >= 0;
    assert o[o[p]] == o[p];
  }

  // ---------- blocks do not overlap ----------

  /** Bytes of a small or large block lie on pages of its run. */
  lemma BlockPages(chunks: ChunkMap, owner: Owners, a: int, k: Kind, x: int)
    requires Mapped(chunks, owner) && BlockAt(chunks, owner, a, k) && !k.Huge?
    requires a <= x < a + Usable(k)
    ensures Base(x) == Base(a) && Base(a) in owner && |owner[Base(a)]| == PAGES
    ensures owner[Base(a)][Page(x)] == owner[Base(a)][Page(a)] > 0
  {
    var b := Base(a);
    var c, o := chunks[b], owner[b];
    assert Tiled(c, o);
    JoinAddress(a);
    var off := Offset(a);
    var y := off + (x - a);
    match k
    case Small(bin) =>
      SlotPages(c, o, off, bin, y);
      SplitAddress(b, y);
    case Large(n) =>
      LargePages(c, o, off, n, y);
      SplitAddress(b, y);
  }

  /** Two blocks of the same run that share a byte are the same block. */
  lemma SameRunSameBlock(c: Chunk, o: seq<int>, off1: int, k1: Kind, off2: int, k2: Kind, y: int)
    requires Tiled(c, o)
    requires (k1.Small? && SlotIn(c, o, off1, k1.bin)) || (k1.Large? && LargeIn(c, o, off1, k1.pages))
    requires (k2.Small? && SlotIn(c, o, off2, k2.bin)) || (k2.Large? && LargeIn(c, o, off2, k2.pages))
    requires o[off1 / PAGE_SIZE] == o[off2 / PAGE_SIZE]
    requires off1 <= y < off1 + Usable(k1) && off2 <= y < off2 + Usable(k2)
    ensures off1 == off2
  {
    if k1.Small? && k2.Small? {
      var s := o[off1 / PAGE_SIZE];
      if off1 < off2 {
        SlotsApart(k1.bin, off1 - s * PAGE_SIZE, off2 - s * PAGE_SIZE);
      } else if off2 < off1 {
        SlotsApart(k1.bin, off2 - s * PAGE_SIZE, off1 - s * PAGE_SIZE);
      }
    }
  }

  /** Live blocks and free slots never share a byte with a different block. */
  lemma BlocksApart(chunks: ChunkMap, owner: Owners, a1: int, k1: Kind, a2: int, k2: Kind, x: int)
    requires Mapped(chunks, owner)
    requires BlockAt(chunks, owner, a1, k1) && !k1.Huge?
    requires BlockAt(chunks, owner, a2, k2) && !k2.Huge?
    requires a1 <= x < a1 + Usable(k1) && a2 <= x < a2 + Usable(k2)
    ensures a1 == a2
  {
    BlockPages(chunks, owner, a1, k1, x);
    BlockPages(chunks, owner, a2, k2, x);
    var b := Base(x);
    JoinAddress(a1);
    JoinAddress(a2);
    assert Tiled(chunks[b], owner[b]);
    SameRunSameBlock(chunks[b], owner[b], Offset(a1), k1, Offset(a2), k2, x - b);
  }
}
