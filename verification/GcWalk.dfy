// The two list walks of zend_mm_gc for one size class, each a locked invariant with one lemma per iteration.
module GcWalk {
  // The first counts free slots, the second unlinks the slots of runs that are entirely free.

  import opened Bitset
  import opened Bins
  import opened Chunks
  import opened Blocks
  import opened HeapInv
  import opened HeapMem
  import opened HeapState
  import opened GcCounts
  import opened GcSteps
  import opened GcPhases

  /** The page where the code looks for the run of an address: the page itself, or the first page of its run. */
  function HeaderPage(c: Chunk, a: int): int
    requires WellSized(c)
  {
    var info := c.info[Page(a)];
    if info.Nrun? then Page(a) - info.offset else Page(a)
  }

  // ---------- counting ----------

  /** No run of class i is marked as full. */
  ghost predicate NoneFull(c: ChunkMap, owner: Owners, i: nat) {
    forall a :: !FullAt(c, owner, a, i)
  }

  /** k slots of class i are counted; `full` says that some counter has reached the size of its run. */
  ghost predicate CountingNow(s: State, t: State, c: ChunkMap, i: nat, k: nat, full: bool) {
    && Sound(s) && i < BINS && Filtered(s, t, i)
    && Mapped(t.chunks, s.owner)
    && (forall a :: a in s.free[i] ==> SlotAt(t.chunks, s.owner, a, i))
    && Chained(t.mem, t.heads[i], s.free[i])
    && k <= |s.free[i]|
    && Counted(t.chunks, c, s.owner, i, s.free[i], k)
    && (!full ==> NoneFull(c, s.owner, i))
  }

  ghost predicate CountingBehind(s: State, t: State, c: ChunkMap, i: nat, k: nat, full: bool, d: nat)
    decreases d
  {
    if d == 0 then CountingNow(s, t, c, i, k, full) else CountingBehind(s, t, c, i, k, full, d - 1)
  }

  ghost predicate Counting(s: State, t: State, c: ChunkMap, i: nat, k: nat, full: bool) {
    CountingBehind(s, t, c, i, k, full, k + 3)
  }

  lemma {:induction false} CountingBehindIs(s: State, t: State, c: ChunkMap, i: nat, k: nat, full: bool, d: nat)
    ensures CountingBehind(s, t, c, i, k, full, d) == CountingNow(s, t, c, i, k, full)
    decreases d
  {
    if d > 0 {
      CountingBehindIs(s, t, c, i, k, full, d - 1);
    }
  }

  lemma CountingIs(s: State, t: State, c: ChunkMap, i: nat, k: nat, full: bool)
    ensures Counting(s, t, c, i, k, full) == CountingNow(s, t, c, i, k, full)
  {
    CountingBehindIs(s, t, c, i, k, full, k + 3);
  }

  /** Classes not yet counted have zero counters. */
  lemma NotYetCounted(s: State, t: State, i: nat, b: int, p: nat)
    requires Sound(s) && i < BINS && Filtered(s, t, i) && b in s.owner && b in t.chunks && WellSized(t.chunks[b]) && p < PAGES
    requires t.chunks[b].info[p].Srun? && t.chunks[b].info[p].bin == i
    ensures t.chunks[b].info[p].counter == 0
  {
    SoundIs(s);
    assert Tiled(s.chunks[b], s.owner[b]);
    assert ChunkCounted(s.chunks[b], t.chunks[b], s.owner, b, s.free, i);
  }

  lemma CountingStarts(s: State, t: State, i: nat)
    requires Sound(s) && i < BINS && Filtered(s, t, i)
    ensures |s.free| == |t.heads| == BINS
    ensures t.heads[i] == Head(s.free[i]) && 0 !in s.free[i]
    ensures Counting(s, t, t.chunks, i, 0, false)
  {
    FilteredBlocks(s, t, i);
    forall b, p | b in s.owner && 0 <= p < PAGES && t.chunks[b].info[p].Srun? && t.chunks[b].info[p].bin == i
      ensures t.chunks[b].info[p].counter == 0
    {
      NotYetCounted(s, t, i, b, p);
    }
    CountStart(t.chunks, s.owner, i, s.free[i]);
    BinFacts(i);
    SoundIs(s);
    forall a
      ensures !FullAt(t.chunks, s.owner, a, i)
    {
      var b := Base(a);
      if b in t.chunks && b in s.owner && WellSized(t.chunks[b]) && |s.owner[b]| == PAGES && 0 <= s.owner[b][Page(a)] < PAGES {
        var p := s.owner[b][Page(a)];
        if t.chunks[b].info[p].Srun? && t.chunks[b].info[p].bin == i {
          NotYetCounted(s, t, i, b, p);
        }
      }
    }
    assert t.free[i] == s.free[i];
    assert forall a :: a in s.free[i] ==> SlotAt(s.chunks, s.owner, a, i);
    CountingIs(s, t, t.chunks, i, 0, false);
  }

  /** What the code reads for the slot at position k. */
  lemma CountingAt(s: State, t: State, c: ChunkMap, i: nat, k: nat, full: bool)
    requires Counting(s, t, c, i, k, full) && i < |s.free| && k < |s.free[i]|
    ensures var a := s.free[i][k];
            && a != 0 && Load(t.mem, a) == Next(s.free[i], k)
            && Base(a) in c && WellSized(c[Base(a)])
            && var q := HeaderPage(c[Base(a)], a);
               && 0 <= q < PAGES && c[Base(a)].info[q].Srun? && c[Base(a)].info[q].bin == i
               && InRun(s.owner, a, Base(a), q)
  {
    CountingIs(s, t, c, i, k, full);
    var a := s.free[i][k];
    assert a in s.free[i];
    RunOfSlot(t.chunks, s.owner, a, i);
    assert CountedChunk(t.chunks[Base(a)], c[Base(a)], s.owner, Base(a), i, s.free[i], k);
  }

  function CountOne(c: ChunkMap, a: int, i: nat): ChunkMap
    requires Base(a) in c && WellSized(c[Base(a)]) && 0 <= HeaderPage(c[Base(a)], a) < PAGES
    requires c[Base(a)].info[HeaderPage(c[Base(a)], a)].Srun?
  {
    var b, q := Base(a), HeaderPage(c[Base(a)], a);
    c[b := SetInfo(c[b], q, SrunEx(i, c[b].info[q].counter + 1))]
  }

  /** Counting one more slot makes no run full unless its counter just got there. */
  lemma OneMoreNotFull(c: ChunkMap, owner: Owners, a: int, i: nat)
    requires Base(a) in c && WellSized(c[Base(a)]) && 0 <= HeaderPage(c[Base(a)], a) < PAGES
    requires var info := c[Base(a)].info[HeaderPage(c[Base(a)], a)];
             info.Srun? && info.counter < 512 && info.counter + 1 != BinElements(i)
    requires i < BINS && NoneFull(c, owner, i)
    ensures NoneFull(CountOne(c, a, i), owner, i)
  {
    BinFacts(i);
    forall x
      ensures !FullAt(CountOne(c, a, i), owner, x, i)
    {
      assert !FullAt(c, owner, x, i);
    }
  }

  lemma CountingSteps(s: State, t: State, c: ChunkMap, i: nat, k: nat, full: bool)
    requires Counting(s, t, c, i, k, full) && i < |s.free| && k < |s.free[i]|
    requires var a := s.free[i][k];
             Base(a) in c && WellSized(c[Base(a)]) && 0 <= HeaderPage(c[Base(a)], a) < PAGES
             && c[Base(a)].info[HeaderPage(c[Base(a)], a)].Srun?
    ensures var a := s.free[i][k];
            Counting(s, t, CountOne(c, a, i), i, k + 1,
                     full || c[Base(a)].info[HeaderPage(c[Base(a)], a)].counter + 1 == BinElements(i))
  {
    var a := s.free[i][k];
    var counter := c[Base(a)].info[HeaderPage(c[Base(a)], a)].counter + 1;
    CountingAt(s, t, c, i, k, full);
    CountingIs(s, t, c, i, k, full);
    CountedMore(t.chunks, c, s.owner, i, s.free[i], k);
    if !full && counter != BinElements(i) {
      OneMoreNotFull(c, s.owner, a, i);
    }
    CountingIs(s, t, CountOne(c, a, i), i, k + 1, full || counter == BinElements(i));
  }

  lemma CountedMore(c0: ChunkMap, c: ChunkMap, owner: Owners, i: nat, list: seq<int>, k: nat)
    requires Mapped(c0, owner) && k < |list| && Counted(c0, c, owner, i, list, k)
    requires forall a :: a in list ==> SlotAt(c0, owner, a, i)
    requires Base(list[k]) in c && WellSized(c[Base(list[k])]) && 0 <= HeaderPage(c[Base(list[k])], list[k]) < PAGES
    requires var q := HeaderPage(c[Base(list[k])], list[k]);
             c[Base(list[k])].info[q].Srun? && InRun(owner, list[k], Base(list[k]), q)
    ensures Counted(c0, CountOne(c, list[k], i), owner, i, list, k + 1)
    ensures c[Base(list[k])].info[HeaderPage(c[Base(list[k])], list[k])].counter < 512
  {
    var a := list[k];
    assert a in list;
    RunOfSlot(c0, owner, a, i);
    assert CountedChunk(c0[Base(a)], c[Base(a)], owner, Base(a), i, list, k);
    CountStep(c0, c, owner, i, list, k);
  }

  lemma CountingEnds(s: State, t: State, c: ChunkMap, i: nat, full: bool)
    requires i < |s.free| && Counting(s, t, c, i, |s.free[i]|, full)
    ensures Counted(t.chunks, c, s.owner, i, s.free[i], |s.free[i]|)
    ensures !full ==> NoneFull(c, s.owner, i)
  {
    CountingIs(s, t, c, i, |s.free[i]|, full);
  }

  // ---------- filtering ----------

  /** The list of class i after its first n elements have been filtered: the kept ones, then the rest. */
  ghost function HalfKept(s: State, c: ChunkMap, i: nat, n: nat): seq<int>
    requires i < |s.free| && n <= |s.free[i]|
  {
    Kept(s.free[i], n, c, s.owner, i) + s.free[i][n..]
  }

  /** t: the heap when class i was reached. c: the chunks after class i was counted. */
  ghost predicate FilteringNow(s: State, t: State, c: ChunkMap, i: nat, n: nat, mem: Memory, heads: seq<int>) {
    && Sound(s) && i < BINS && Filtered(s, t, i)
    && Counted(t.chunks, c, s.owner, i, s.free[i], |s.free[i]|)
    && n <= |s.free[i]|
    && Links(mem, heads, t.free[i := HalfKept(s, c, i, n)])
    && Untouched(s.live, s.mem, mem)
  }

  ghost predicate FilteringBehind(s: State, t: State, c: ChunkMap, i: nat, n: nat, mem: Memory, heads: seq<int>, d: nat)
    decreases d
  {
    if d == 0 then FilteringNow(s, t, c, i, n, mem, heads) else FilteringBehind(s, t, c, i, n, mem, heads, d - 1)
  }

  ghost predicate Filtering(s: State, t: State, c: ChunkMap, i: nat, n: nat, mem: Memory, heads: seq<int>) {
    FilteringBehind(s, t, c, i, n, mem, heads, n + 3)
  }

  lemma {:induction false} FilteringBehindIs(s: State, t: State, c: ChunkMap, i: nat, n: nat, mem: Memory, heads: seq<int>, d: nat)
    ensures FilteringBehind(s, t, c, i, n, mem, heads, d) == FilteringNow(s, t, c, i, n, mem, heads)
    decreases d
  {
    if d > 0 {
      FilteringBehindIs(s, t, c, i, n, mem, heads, d - 1);
    }
  }

  lemma FilteringIs(s: State, t: State, c: ChunkMap, i: nat, n: nat, mem: Memory, heads: seq<int>)
    ensures Filtering(s, t, c, i, n, mem, heads) == FilteringNow(s, t, c, i, n, mem, heads)
  {
    FilteringBehindIs(s, t, c, i, n, mem, heads, n + 3);
  }

  lemma FilteringStarts(s: State, t: State, c: ChunkMap, i: nat)
    requires Sound(s) && i < BINS && Filtered(s, t, i)
    requires Counted(t.chunks, c, s.owner, i, s.free[i], |s.free[i]|)
    ensures Filtering(s, t, c, i, 0, t.mem, t.heads)
  {
    assert t.free[i] == s.free[i];
    assert HalfKept(s, c, i, 0) == s.free[i];
    assert t.free[i := s.free[i]] == t.free;
    FilteringIs(s, t, c, i, 0, t.mem, t.heads);
  }

  /** The slot at position n, and where its run's counter is. */
  lemma FilteringAt(s: State, t: State, c: ChunkMap, i: nat, n: nat, mem: Memory, heads: seq<int>)
    requires Filtering(s, t, c, i, n, mem, heads) && i < |s.free| && n < |s.free[i]|
    ensures var a := s.free[i][n];
            && |heads| == BINS && a != 0 && Load(mem, a) == Next(s.free[i], n)
            && Base(a) in c && WellSized(c[Base(a)])
            && var q := HeaderPage(c[Base(a)], a);
               && 0 <= q < PAGES && c[Base(a)].info[q].Srun?
               && (c[Base(a)].info[q].counter == BinElements(i) <==> FullAt(c, s.owner, a, i))
  {
    FilteringIs(s, t, c, i, n, mem, heads);
    var a := s.free[i][n];
    var kept := Kept(s.free[i], n, c, s.owner, i);
    var half := HalfKept(s, c, i, n);
    assert Chained(mem, heads[i], half);
    assert half[|kept|] == a && Next(half, |kept|) == Next(s.free[i], n);
    FilteredSlot(s, t, c, i, a);
  }

  /** A free slot of class i, looked up in the counted chunks. */
  lemma FilteredSlot(s: State, t: State, c: ChunkMap, i: nat, a: int)
    requires Sound(s) && i < BINS && Filtered(s, t, i) && a in s.free[i]
    requires Counted(t.chunks, c, s.owner, i, s.free[i], |s.free[i]|)
    ensures Base(a) in c && WellSized(c[Base(a)]) && SlotAt(s.chunks, s.owner, a, i)
    ensures var q := HeaderPage(c[Base(a)], a);
            && 0 <= q < PAGES && c[Base(a)].info[q].Srun?
            && (c[Base(a)].info[q].counter == BinElements(i) <==> FullAt(c, s.owner, a, i))
  {
    SoundIs(s);
    assert SlotAt(s.chunks, s.owner, a, i);
    FilteredBlocks(s, t, i);
    RunOfSlot(t.chunks, s.owner, a, i);
    assert CountedChunk(t.chunks[Base(a)], c[Base(a)], s.owner, Base(a), i, s.free[i], |s.free[i]|);
  }

  lemma HalfKeptKeeps(s: State, c: ChunkMap, i: nat, n: nat)
    requires i < |s.free| && n < |s.free[i]| && !FullAt(c, s.owner, s.free[i][n], i)
    ensures HalfKept(s, c, i, n + 1) == HalfKept(s, c, i, n)
    ensures Kept(s.free[i], n + 1, c, s.owner, i) == Kept(s.free[i], n, c, s.owner, i) + [s.free[i][n]]
  {
  }

  lemma FilteringKeeps(s: State, t: State, c: ChunkMap, i: nat, n: nat, mem: Memory, heads: seq<int>)
    requires Filtering(s, t, c, i, n, mem, heads) && i < |s.free| && n < |s.free[i]|
    requires !FullAt(c, s.owner, s.free[i][n], i)
    ensures Filtering(s, t, c, i, n + 1, mem, heads)
    ensures Kept(s.free[i], n + 1, c, s.owner, i) == Kept(s.free[i], n, c, s.owner, i) + [s.free[i][n]]
  {
    HalfKeptKeeps(s, c, i, n);
    FilteringIs(s, t, c, i, n, mem, heads);
    FilteringIs(s, t, c, i, n + 1, mem, heads);
  }

  /** Slot a has no link within the eight bytes at `last`. */
  predicate Far(a: int, last: int) {
    !(last <= a < last + LINK_SIZE)
  }

  predicate FarPart(part: seq<int>, from: nat, to: nat, last: int) {
    to <= |part| && forall j :: from <= j < to ==> Far(part[j], last)
  }

  /** All members of the list but `last` itself. */
  ghost predicate FarMembers(list: seq<int>, last: int) {
    forall a :: a in list && a != last ==> Far(a, last)
  }

  /** All members of the lists of other classes. */
  ghost predicate FarLists(free: Lists, i: nat, last: int) {
    |free| == BINS && forall d: nat, a :: d < BINS && d != i && a in free[d] ==> Far(a, last)
  }

  /** Part of the list, without `last`. */
  predicate OthersOf(part: seq<int>, from: nat, to: nat, list: seq<int>, last: int) {
    to <= |part| && forall j :: from <= j < to ==> part[j] in list && part[j] != last
  }

  /** Links of other slots are not within the last kept slot. */
  lemma LastKeptAway(s: State, t: State, i: nat, last: int)
    requires Sound(s) && i < BINS && Filtered(s, t, i) && i < |s.free| && last in s.free[i]
    ensures FarMembers(s.free[i], last) && FarLists(t.free, i, last)
  {
    SoundIs(s);
    assert SlotAt(s.chunks, s.owner, last, i);
    forall c: nat, a | c < BINS && a in s.free[c] && !Far(a, last)
      ensures a == last && c == i
    {
      assert SlotAt(s.chunks, s.owner, a, c);
      SlotsFar(s.chunks, s.owner, last, i, a, c);
    }
    assert forall c: nat, a :: c < BINS && a in t.free[c] ==> a in s.free[c];
  }

  /** Links outside eight bytes stay chained. */
  lemma ChainedStays(mem: Memory, head: int, list: seq<int>, last: int, p: int)
    requires Chained(mem, head, list) && forall a :: a in list ==> Far(a, last)
    ensures Chained(StorePtr(mem, last, p), head, list)
  {
    forall j | 0 <= j < |list|
      ensures Load(StorePtr(mem, last, p), list[j]) == Next(list, j)
    {
      assert list[j] in list;
    }
  }

  lemma KeptOrder(list: seq<int>, n: nat, c: ChunkMap, owner: Owners, i: nat)
    requires n <= |list| && NoDup(list) && Kept(list, n, c, owner, i) != []
    ensures var kept := Kept(list, n, c, owner, i);
            var last := kept[|kept| - 1];
            last in list && OthersOf(kept, 0, |kept| - 1, list, last) && OthersOf(list, n, |list|, list, last)
  {
    var kept := Kept(list, n, c, owner, i);
    KeptIs(list, n, c, owner, i);
    assert forall j :: 0 <= j < |kept| ==> kept[j] in kept && kept[j] in list[..n];
    forall j | n <= j < |list|
      ensures list[j] != kept[|kept| - 1]
    {
      assert (kept + list[n..])[|kept| + j - n] == list[j];
    }
  }

  lemma OthersFar(part: seq<int>, from: nat, to: nat, list: seq<int>, last: int)
    requires OthersOf(part, from, to, list, last) && FarMembers(list, last)
    ensures FarPart(part, from, to, last)
  {
  }

  /** The links of the other free slots are not within the last kept slot, which is not handed out. */
  lemma LastKept(s: State, t: State, c: ChunkMap, i: nat, n: nat, kept: seq<int>, last: int)
    requires Sound(s) && i < BINS && Filtered(s, t, i) && i < |s.free| && n <= |s.free[i]|
    requires kept == Kept(s.free[i], n, c, s.owner, i) != [] && last == kept[|kept| - 1]
    ensures last in s.free[i] && FarPart(kept, 0, |kept| - 1, last) && FarPart(s.free[i], n, |s.free[i]|, last)
    ensures FarLists(t.free, i, last)
  {
    FreeOnce(s, i);
    KeptOrder(s.free[i], n, c, s.owner, i);
    LastKeptAway(s, t, i, last);
    OthersFar(kept, 0, |kept| - 1, s.free[i], last);
    OthersFar(s.free[i], n, |s.free[i]|, s.free[i], last);
  }

  lemma FreeOnce(s: State, i: nat)
    requires Sound(s) && i < BINS
    ensures |s.free| == BINS && NoDup(s.free[i])
  {
    SoundIs(s);
  }

  /** Writing a link into a free slot touches no block that is handed out. */
  lemma FreeWriteUntouched(s: State, i: nat, a: int, mem: Memory, p: int)
    requires Sound(s) && i < BINS && i < |s.free| && a in s.free[i] && Untouched(s.live, s.mem, mem)
    ensures Untouched(s.live, s.mem, StorePtr(mem, a, p))
  {
    SoundIs(s);
    assert SlotAt(s.chunks, s.owner, a, i);
    LinkWriteUntouched(s.chunks, s.owner, s.live, a, i, mem, p);
  }

  /** Dropping the slot at position n through the link of the last kept one. */
  lemma DropByLink(s: State, t: State, c: ChunkMap, i: nat, n: nat, mem: Memory, heads: seq<int>)
    requires Sound(s) && i < BINS && Filtered(s, t, i) && n < |s.free[i]| && FullAt(c, s.owner, s.free[i][n], i)
    requires Kept(s.free[i], n, c, s.owner, i) != []
    requires Links(mem, heads, t.free[i := HalfKept(s, c, i, n)]) && Untouched(s.live, s.mem, mem)
    ensures var kept := Kept(s.free[i], n, c, s.owner, i);
            var mem' := StorePtr(mem, kept[|kept| - 1], Next(s.free[i], n));
            Links(mem', heads, t.free[i := HalfKept(s, c, i, n + 1)]) && Untouched(s.live, s.mem, mem')
  {
    var kept := Kept(s.free[i], n, c, s.owner, i);
    LastKept(s, t, c, i, n, kept, kept[|kept| - 1]);
    DroppedLinks(mem, heads, t.free, i, kept, s.free[i], n);
    assert HalfKept(s, c, i, n + 1) == kept + s.free[i][n + 1..];
    FreeWriteUntouched(s, i, kept[|kept| - 1], mem, Next(s.free[i], n));
  }

  lemma DroppedLinks(mem: Memory, heads: seq<int>, free: Lists, i: nat, kept: seq<int>, list: seq<int>, n: nat)
    requires i < BINS && |free| == BINS && kept != [] && n < |list| && Links(mem, heads, free[i := kept + list[n..]])
    requires var last := kept[|kept| - 1];
             FarPart(kept, 0, |kept| - 1, last) && FarPart(list, n, |list|, last) && FarLists(free, i, last)
    ensures Links(StorePtr(mem, kept[|kept| - 1], Next(list, n)), heads, free[i := kept + list[n + 1..]])
  {
    var last, rest := kept[|kept| - 1], list[n..];
    assert Chained(mem, heads[i], free[i := kept + rest][i]);
    Unlink(mem, heads[i], kept, rest);
    assert rest[1..] == list[n + 1..] && Head(rest[1..]) == Next(list, n);
    forall d: nat | d < BINS && d != i
      ensures Chained(StorePtr(mem, last, Next(list, n)), heads[d], free[d])
    {
      assert Chained(mem, heads[d], free[i := kept + rest][d]);
      ChainedStays(mem, heads[d], free[d], last, Next(list, n));
    }
  }

  lemma DropByHead(s: State, t: State, c: ChunkMap, i: nat, n: nat, mem: Memory, heads: seq<int>)
    requires FilteringNow(s, t, c, i, n, mem, heads) && n < |s.free[i]| && FullAt(c, s.owner, s.free[i][n], i)
    requires Kept(s.free[i], n, c, s.owner, i) == []
    ensures FilteringNow(s, t, c, i, n + 1, mem, heads[i := Next(s.free[i], n)])
  {
    var list := s.free[i];
    assert HalfKept(s, c, i, n) == list[n..] && HalfKept(s, c, i, n + 1) == list[n + 1..];
    HeadLinks(mem, heads, t.free, i, list, n);
  }

  lemma HeadLinks(mem: Memory, heads: seq<int>, free: Lists, i: nat, list: seq<int>, n: nat)
    requires i < BINS && |free| == BINS && n < |list| && Links(mem, heads, free[i := list[n..]])
    ensures Links(mem, heads[i := Next(list, n)], free[i := list[n + 1..]])
  {
    var now := free[i := list[n..]];
    assert Chained(mem, heads[i], now[i]);
    assert Load(mem, list[n..][0]) == Next(list[n..], 0) == Next(list, n);
    PopLinks(mem, heads, now, i);
    assert list[n..][1..] == list[n + 1..] && now[i := list[n + 1..]] == free[i := list[n + 1..]];
  }

  lemma FilteringDrops(s: State, t: State, c: ChunkMap, i: nat, n: nat, mem: Memory, heads: seq<int>)
    requires Filtering(s, t, c, i, n, mem, heads) && i < |s.free| && n < |s.free[i]| && i < |heads|
    requires FullAt(c, s.owner, s.free[i][n], i)
    ensures var kept := Kept(s.free[i], n, c, s.owner, i);
            && Kept(s.free[i], n + 1, c, s.owner, i) == kept
            && if kept == [] then Filtering(s, t, c, i, n + 1, mem, heads[i := Next(s.free[i], n)])
               else kept[|kept| - 1] != 0
                    && Filtering(s, t, c, i, n + 1, StorePtr(mem, kept[|kept| - 1], Next(s.free[i], n)), heads)
  {
    FilteringIs(s, t, c, i, n, mem, heads);
    var kept := Kept(s.free[i], n, c, s.owner, i);
    if kept == [] {
      DropByHead(s, t, c, i, n, mem, heads);
      FilteringIs(s, t, c, i, n + 1, mem, heads[i := Next(s.free[i], n)]);
    } else {
      assert Chained(mem, heads[i], HalfKept(s, c, i, n));
      assert HalfKept(s, c, i, n)[|kept| - 1] == kept[|kept| - 1];
      DropByLink(s, t, c, i, n, mem, heads);
      FilteringIs(s, t, c, i, n + 1, StorePtr(mem, kept[|kept| - 1], Next(s.free[i], n)), heads);
    }
  }

  /** The last kept slot among the first n; 0 when none is kept and the list head is to be changed. */
  ghost function LastOf(s: State, c: ChunkMap, i: nat, n: nat): int
    requires i < |s.free| && n <= |s.free[i]|
  {
    var kept := Kept(s.free[i], n, c, s.owner, i);
    if kept == [] then 0 else kept[|kept| - 1]
  }

  /** One iteration, with q the place whose link leads to the slot at position n. */
  lemma FilteringSteps(s: State, t: State, c: ChunkMap, i: nat, n: nat, mem: Memory, heads: seq<int>, q: int)
    requires Filtering(s, t, c, i, n, mem, heads) && i < |s.free| && n < |s.free[i]| && i < |heads|
    requires q == LastOf(s, c, i, n)
    ensures !FullAt(c, s.owner, s.free[i][n], i) ==> Filtering(s, t, c, i, n + 1, mem, heads) && LastOf(s, c, i, n + 1) == s.free[i][n]
    ensures FullAt(c, s.owner, s.free[i][n], i) && q == 0 ==>
              Filtering(s, t, c, i, n + 1, mem, heads[i := Next(s.free[i], n)]) && LastOf(s, c, i, n + 1) == 0
    ensures FullAt(c, s.owner, s.free[i][n], i) && q != 0 ==>
              Filtering(s, t, c, i, n + 1, StorePtr(mem, q, Next(s.free[i], n)), heads) && LastOf(s, c, i, n + 1) == q
  {
    if FullAt(c, s.owner, s.free[i][n], i) {
      FilteringDrops(s, t, c, i, n, mem, heads);
    } else {
      FilteringKeeps(s, t, c, i, n, mem, heads);
    }
  }

  /** The heap value after class i has been counted and filtered. */
  ghost function FilterStep(s: State, t: State, c: ChunkMap, i: nat, mem: Memory, heads: seq<int>): State
    requires i < |s.free| && i < |t.free|
  {
    t.(chunks := c, mem := mem, heads := heads, free := t.free[i := Kept(s.free[i], |s.free[i]|, c, s.owner, i)])
  }

  lemma FilteringEnds(s: State, t: State, c: ChunkMap, i: nat, mem: Memory, heads: seq<int>)
    requires i < |s.free| && Filtering(s, t, c, i, |s.free[i]|, mem, heads)
    ensures i < |t.free| && i < BINS && Filtered(s, FilterStep(s, t, c, i, mem, heads), i + 1)
  {
    FilteringIs(s, t, c, i, |s.free[i]|, mem, heads);
    assert HalfKept(s, c, i, |s.free[i]|) == Kept(s.free[i], |s.free[i]|, c, s.owner, i);
    SoundIs(s);
    CountedOne(s.chunks, t.chunks, c, s.owner, s.free, i);
    FilteredOne(s, t.chunks, c, t.free, i);
  }

  /** With no run entirely free there is nothing to unlink. */
  lemma {:induction false} NothingToDrop(list: seq<int>, n: nat, c: ChunkMap, owner: Owners, i: nat)
    requires n <= |list| && NoneFull(c, owner, i)
    ensures Kept(list, n, c, owner, i) == list[..n]
    decreases n
  {
    if n > 0 {
      NothingToDrop(list, n - 1, c, owner, i);
      assert list[..n] == list[..n - 1] + [list[n - 1]];
    }
  }

  lemma FilterSkips(s: State, t: State, c: ChunkMap, i: nat)
    requires Sound(s) && i < BINS && Filtered(s, t, i)
    requires Counted(t.chunks, c, s.owner, i, s.free[i], |s.free[i]|) && NoneFull(c, s.owner, i)
    ensures Filtered(s, t.(chunks := c), i + 1)
  {
    FilteringStarts(s, t, c, i);
    NothingToDrop(s.free[i], |s.free[i]|, c, s.owner, i);
    var list := s.free[i];
    assert list[..|list|] == list;
    assert t.free[i] == list && t.free[i := list] == t.free;
    SoundIs(s);
    CountedOne(s.chunks, t.chunks, c, s.owner, s.free, i);
    FilteredOne(s, t.chunks, c, t.free, i);
  }
}
