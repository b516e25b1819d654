/** The filtering phase of zend_mm_gc, and the invariant of the heap between the phases. */
module GcSteps {
  import opened Bitset
  import opened Bins
  import opened Chunks
  import opened Blocks
  import opened BlockChanges
  import opened HeapInv
  import opened HeapMem
  import opened HeapSteps
  import opened HeapState
  import opened HeapChunks
  import opened GcCounts
  import opened Sweep

  // ---------- removing the slots of full runs from a list ----------

  /** The free counter of the run of slot a equals the number of its elements. */
  ghost predicate FullAt(chunks: ChunkMap, owner: Owners, a: int, bin: nat) {
    var b := Base(a);
    && b in chunks && b in owner && WellSized(chunks[b]) && |owner[b]| == PAGES
    && 0 <= owner[b][Page(a)] < PAGES
    && chunks[b].info[owner[b][Page(a)]] == Srun(bin, BinElements(bin))
  }

  /** The first n elements of the list without those of full runs. */
  ghost function Kept(list: seq<int>, n: nat, chunks: ChunkMap, owner: Owners, bin: nat): seq<int>
    requires n <= |list|
    decreases n
  {
    if n == 0 then []
    else if FullAt(chunks, owner, list[n - 1], bin) then Kept(list, n - 1, chunks, owner, bin)
    else Kept(list, n - 1, chunks, owner, bin) + [list[n - 1]]
  }

  lemma {:induction false} KeptIs(list: seq<int>, n: nat, chunks: ChunkMap, owner: Owners, bin: nat)
    requires n <= |list| && NoDup(list)
    ensures forall a :: a in Kept(list, n, chunks, owner, bin) <==> a in list[..n] && !FullAt(chunks, owner, a, bin)
    ensures NoDup(Kept(list, n, chunks, owner, bin))
    ensures NoDup(Kept(list, n, chunks, owner, bin) + list[n..])
    decreases n
  {
    var k := Kept(list, n, chunks, owner, bin);
    if n > 0 {
      KeptIs(list, n - 1, chunks, owner, bin);
      assert list[..n] == list[..n - 1] + [list[n - 1]];
      assert list[n - 1] !in list[..n - 1];
    }
    assert forall a :: a in k ==> a in list[..n];
    assert forall j :: n <= j < |list| ==> list[j] !in list[..n];
  }

  /** Unlinking the first element of the rest: through the head when nothing is kept yet, else through the
      link of the last kept element. */
  lemma Unlink(mem: Memory, head: int, kept: seq<int>, rest: seq<int>)
    requires Chained(mem, head, kept + rest) && rest != []
    requires kept != [] ==> forall i :: 0 <= i < |kept| - 1 ==> !(kept[|kept| - 1] <= kept[i] < kept[|kept| - 1] + LINK_SIZE)
    requires kept != [] ==> forall i :: 0 <= i < |rest| ==> !(kept[|kept| - 1] <= rest[i] < kept[|kept| - 1] + LINK_SIZE)
    ensures rest[0] != 0 && Load(mem, rest[0]) == Head(rest[1..])
    ensures kept == [] ==> head == rest[0] && Chained(mem, Head(rest[1..]), rest[1..])
    ensures kept != [] ==> Chained(StorePtr(mem, kept[|kept| - 1], Head(rest[1..])), head, kept + rest[1..])
  {
    var all := kept + rest;
    var left := kept + rest[1..];
    assert all[|kept|] == rest[0] && Next(all, |kept|) == Head(rest[1..]);
    if kept == [] {
      forall i | 0 <= i < |rest[1..]|
        ensures rest[1..][i] != 0 && Load(mem, rest[1..][i]) == Next(rest[1..], i)
      {
        assert rest[1..][i] == all[i + 1] && Next(rest[1..], i) == Next(all, i + 1);
      }
    } else {
      var last := kept[|kept| - 1];
      var mem' := StorePtr(mem, last, Head(rest[1..]));
      forall i | 0 <= i < |left|
        ensures left[i] != 0 && Load(mem', left[i]) == Next(left, i)
      {
        if i < |kept| - 1 {
          assert left[i] == all[i] && Next(left, i) == Next(all, i);
        } else if i >= |kept| {
          assert left[i] == all[i + 1] == rest[i + 1 - |kept|] && Next(left, i) == Next(all, i + 1);
        } else {
          assert left[i] == last && all[i] == last;
        }
      }
    }
  }

  // ---------- between the phases ----------

  ghost predicate SpentAt(chunks: ChunkMap, owner: Owners, a: int) {
    var b := Base(a);
    && b in chunks && b in owner && WellSized(chunks[b]) && |owner[b]| == PAGES
    && 0 <= owner[b][Page(a)] < PAGES && Spent(chunks[b], owner[b][Page(a)])
  }

  /** The run at page p of chunk b has a block that is handed out. */
  ghost predicate HasLive(live: Live, b: int, p: int, bin: nat) {
    exists a :: SlotOf(a, RunAddress(b, p), bin) && a in live
  }

  /** Every run of small blocks of class 1 or more in these chunks has a block handed out. (A run of class 0
      has 512 slots, which its nine-bit counter cannot show.) */
  ghost predicate NoIdleRun(chunks: ChunkMap, owner: Owners, live: Live, but: set<int>) {
    forall b, p :: b in owner && b in chunks && 0 <= p < |chunks[b].info| && chunks[b].info[p].Srun? && chunks[b].info[p].bin != 0
      && !(b in but && WellSized(chunks[b]) && Spent(chunks[b], p))
      ==> HasLive(live, b, p, chunks[b].info[p].bin)
  }

  /** As `Complete`, except that slots of spent runs of the chunks still to be swept belong to no one. */
  ghost predicate GcComplete(s: State, todo: set<int>)
    requires |s.free| == BINS
  {
    && (forall a, bin: nat :: SlotAt(s.chunks, s.owner, a, bin) ==>
          bin < BINS && (a in s.live || a in s.free[bin] || (Base(a) in todo && SpentAt(s.chunks, s.owner, a))))
    && (forall a, n: nat :: LargeAt(s.chunks, s.owner, a, n) ==> a in s.live || a == s.pending)
  }

  ghost predicate SpentUnused(s: State, todo: set<int>)
    requires |s.free| == BINS
  {
    forall a :: Base(a) in todo && SpentAt(s.chunks, s.owner, a) ==>
      && (a in s.live ==> s.live[a].Huge?)
      && forall bin :: 0 <= bin < BINS ==> a !in s.free[bin]
  }

  /** The heap while the chunks in `todo` are still to be swept. */
  ghost predicate GcNow(s: State, todo: set<int>) {
    && Mapped(s.chunks, s.owner)
    && RingOk(s)
    && (forall b :: b in s.chunks && b !in todo ==> NoCounts(s.chunks[b]))
    && FreeOk(s.chunks, s.owner, s.free, s.live)
    && LiveOk(s.chunks, s.owner, s.live)
    && GcComplete(s, todo) && s.pending !in s.live
    && SpentUnused(s, todo)
    && NoIdleRun(s.chunks, s.owner, s.live, todo)
    && Links(s.mem, s.heads, s.free)
    && Regions(s.chunks, s.live)
  }

  ghost predicate GcBehind(s: State, todo: set<int>, k: nat)
    decreases k
  {
    if k == 0 then GcNow(s, todo) else GcBehind(s, todo, k - 1)
  }

  ghost predicate SoundGc(s: State, todo: set<int>) {
    GcBehind(s, todo, |s.ring| + 3)
  }

  lemma {:induction false} GcBehindIs(s: State, todo: set<int>, k: nat)
    ensures GcBehind(s, todo, k) == GcNow(s, todo)
    decreases k
  {
    if k > 0 {
      GcBehindIs(s, todo, k - 1);
    }
  }

  lemma SoundGcIs(s: State, todo: set<int>)
    ensures SoundGc(s, todo) == GcNow(s, todo)
  {
    GcBehindIs(s, todo, |s.ring| + 3);
  }

  /** The invariant of the sweep, part by part. */
  lemma GcFrom(r: State, todo: set<int>)
    requires Mapped(r.chunks, r.owner)
    requires RingOk(r)
    requires forall b :: b in r.chunks && b !in todo ==> NoCounts(r.chunks[b])
    requires FreeOk(r.chunks, r.owner, r.free, r.live)
    requires LiveOk(r.chunks, r.owner, r.live)
    requires GcComplete(r, todo) && r.pending !in r.live
    requires SpentUnused(r, todo)
    requires NoIdleRun(r.chunks, r.owner, r.live, todo)
    requires Links(r.mem, r.heads, r.free)
    requires Regions(r.chunks, r.live)
    ensures SoundGc(r, todo)
  {
    SoundGcIs(r, todo);
  }

  /** With nothing left to sweep the heap is sound again, and no run is left that could be collected. */
  lemma GcEnds(s: State)
    requires SoundGc(s, {})
    ensures Sound(s) && NoIdleRun(s.chunks, s.owner, s.live, {})
  {
    SoundGcIs(s, {});
    SoundIs(s);
  }

  // ---------- sweeping one chunk ----------

  lemma SweptSlots(c: Chunk, o: seq<int>, r: Chunk, p: seq<int>)
    requires Tiled(c, o) && Tiled(r, p) && Swept(c, o, r, p)
    ensures forall off, bin: nat :: SlotIn(r, p, off, bin)
              <==> SlotIn(c, o, off, bin) && !Spent(c, o[off / PAGE_SIZE])
    ensures SameLarge(c, o, r, p)
    ensures NoCounts(r)
  {
    forall off, bin: nat | 0 <= off < CHUNK_SIZE && 0 < o[off / PAGE_SIZE]
      ensures SlotIn(r, p, off, bin) <==> SlotIn(c, o, off, bin) && !Spent(c, o[off / PAGE_SIZE])
    {
      var k := off / PAGE_SIZE;
      assert o[o[k]] == o[k];
      assert r.info[o[k]] == if Spent(c, o[k]) then Frun else Reset(c.info[o[k]]);
    }
  }

  ghost predicate SlotsLessSpent(c0: ChunkMap, o0: Owners, c1: ChunkMap, o1: Owners, b: int) {
    forall a, bin: nat :: SlotAt(c1, o1, a, bin) <==> SlotAt(c0, o0, a, bin) && !(Base(a) == b && SpentAt(c0, o0, a))
  }

  ghost predicate SameLargeAt(c0: ChunkMap, o0: Owners, c1: ChunkMap, o1: Owners) {
    forall a, n: nat :: LargeAt(c1, o1, a, n) <==> LargeAt(c0, o0, a, n)
  }

  lemma LiftSwept(chunks: ChunkMap, owner: Owners, b: int, r: Chunk, p: seq<int>)
    requires Mapped(chunks, owner) && b in owner && Tiled(r, p) && Swept(chunks[b], owner[b], r, p)
    ensures Mapped(chunks[b := r], owner[b := p])
    ensures SlotsLessSpent(chunks, owner, chunks[b := r], owner[b := p], b)
    ensures SameLargeAt(chunks, owner, chunks[b := r], owner[b := p])
    ensures NoCounts(r)
  {
    SweptSlots(chunks[b], owner[b], r, p);
  }
}
