// How the phases of zend_mm_gc connect, each step from one heap value to the next.
module GcPhases {
  // First counting and filtering class by class, then sweeping chunk by chunk.

  import opened Bitset
  import opened Bins
  import opened Chunks
  import opened Blocks
  import opened BlockChanges
  import opened HeapInv
  import opened HeapMem
  import opened HeapSteps
  import opened HeapState
  import opened HeapChunks
  import opened GcCounts
  import opened Sweep
  import opened GcSteps

  // ---------- sweeping ----------

  lemma SpentElsewhere(s: State, b: int, r: Chunk, p: seq<int>, a: int)
    requires Base(a) != b
    ensures SpentAt(s.chunks[b := r], s.owner[b := p], a) <==> SpentAt(s.chunks, s.owner, a)
  {
  }

  lemma SweepComplete(s: State, todo: set<int>, b: int, r: Chunk, p: seq<int>)
    requires |s.free| == BINS && GcComplete(s, todo) && SpentUnused(s, todo)
    requires SlotsLessSpent(s.chunks, s.owner, s.chunks[b := r], s.owner[b := p], b)
    requires SameLargeAt(s.chunks, s.owner, s.chunks[b := r], s.owner[b := p])
    ensures GcComplete(SetChunk(s, b, r, p), todo - {b})
    ensures SpentUnused(SetChunk(s, b, r, p), todo - {b})
  {
    var t := SetChunk(s, b, r, p);
    forall a | Base(a) in todo - {b}
      ensures SpentAt(t.chunks, t.owner, a) <==> SpentAt(s.chunks, s.owner, a)
    {
      SpentElsewhere(s, b, r, p, a);
    }
  }

  lemma SweepBlocks(s: State, todo: set<int>, b: int, r: Chunk, p: seq<int>)
    requires Mapped(s.chunks, s.owner) && FreeOk(s.chunks, s.owner, s.free, s.live) && LiveOk(s.chunks, s.owner, s.live)
    requires b in todo && SpentUnused(s, todo)
    requires SlotsLessSpent(s.chunks, s.owner, s.chunks[b := r], s.owner[b := p], b)
    requires SameLargeAt(s.chunks, s.owner, s.chunks[b := r], s.owner[b := p])
    ensures FreeOk(s.chunks[b := r], s.owner[b := p], s.free, s.live)
    ensures LiveOk(s.chunks[b := r], s.owner[b := p], s.live)
  {
    forall a | a in s.live
      ensures BlockAt(s.chunks[b := r], s.owner[b := p], a, s.live[a])
    {
      assert BlockAt(s.chunks, s.owner, a, s.live[a]);
    }
    forall bin, a | 0 <= bin < BINS && a in s.free[bin]
      ensures SlotAt(s.chunks[b := r], s.owner[b := p], a, bin)
    {
      assert SlotAt(s.chunks, s.owner, a, bin);
    }
  }

  lemma SweepIdle(s: State, todo: set<int>, b: int, r: Chunk, p: seq<int>)
    requires Mapped(s.chunks, s.owner) && b in s.owner && b in todo
    requires NoIdleRun(s.chunks, s.owner, s.live, todo) && WellSized(r) && |p| == PAGES
    requires Swept(s.chunks[b], s.owner[b], r, p)
    ensures NoIdleRun(s.chunks[b := r], s.owner[b := p], s.live, todo - {b})
  {
    var chunks, owner := s.chunks[b := r], s.owner[b := p];
    forall d, q | d in owner && d in chunks && 0 <= q < |chunks[d].info| && chunks[d].info[q].Srun? && chunks[d].info[q].bin != 0
      && !(d in todo - {b} && WellSized(chunks[d]) && Spent(chunks[d], q))
      ensures HasLive(s.live, d, q, chunks[d].info[q].bin)
    {
      if d == b {
        assert r.info[q] == if Spent(s.chunks[b], q) then Frun else Reset(s.chunks[b].info[q]);
        assert s.chunks[b].info[q].Srun?;
      } else {
        assert chunks[d] == s.chunks[d];
      }
    }
  }

  lemma GcSweep(s: State, todo: set<int>, b: int, r: Chunk, p: seq<int>)
    requires SoundGc(s, todo) && b in todo && b in s.ring && b in s.chunks && b in s.owner
    requires Tiled(s.chunks[b], s.owner[b]) && Tiled(r, p) && Swept(s.chunks[b], s.owner[b], r, p)
    ensures SoundGc(SetChunk(s, b, r, p), todo - {b})
  {
    SoundGcIs(s, todo);
    var t := SetChunk(s, b, r, p);
    LiftSwept(s.chunks, s.owner, b, r, p);
    SweepBlocks(s, todo, b, r, p);
    SweepComplete(s, todo, b, r, p);
    SweepIdle(s, todo, b, r, p);
    assert RingOk(t);
    assert Regions(t.chunks, t.live);
    GcFrom(t, todo - {b});
  }

  lemma GcChunk(s: State, todo: set<int>, b: int)
    requires SoundGc(s, todo) && b in s.ring
    ensures b in s.chunks && b in s.owner && Tiled(s.chunks[b], s.owner[b]) && s.ring != []
    ensures NoDup(s.ring)
    ensures forall d :: d in s.cached ==> d in s.chunks && WellSized(s.chunks[d]) && d !in s.ring
  {
    SoundGcIs(s, todo);
  }

  /** A swept chunk with no run left can leave the ring. */
  lemma GcLeave(s: State, todo: set<int>, b: int, cached: seq<int>, gone: set<int>)
    requires SoundGc(s, todo) && b !in todo && (forall d :: d in todo ==> d in s.ring)
    requires b in s.ring && s.ring != [] && b != s.ring[0] && b in s.chunks && s.chunks[b].freePages == PAGES - FIRST_PAGE
    requires Disposal(s, b, cached, gone)
    ensures SoundGc(LeaveStep(s, b, cached, gone), todo)
    ensures Without(s.ring, b) != [] && Without(s.ring, b)[0] == s.ring[0]
  {
    SoundGcIs(s, todo);
    var t := LeaveStep(s, b, cached, gone);
    LeaveChunk(s.chunks, s.owner, b);
    assert forall d :: d in gone ==> d == b || d in s.cached;
    GoneBlocks(s, b, gone);
    GcLeaveBlocks(s, todo, t, b, gone);
    LeaveRing(s, b, cached, gone);
    GcFrom(t, todo);
  }

  lemma GoneBlocks(s: State, b: int, gone: set<int>)
    requires RingOk(s) && forall d :: d in gone ==> d == b || d in s.cached
    requires SameBlocks(s.chunks, s.owner, s.chunks, s.owner - {b})
    ensures SameBlocks(s.chunks, s.owner, s.chunks - gone, s.owner - {b})
  {
    assert SameBlocks(s.chunks, s.owner - {b}, s.chunks - gone, s.owner - {b});
  }

  lemma GcLeaveBlocks(s: State, todo: set<int>, t: State, b: int, gone: set<int>)
    requires Mapped(s.chunks, s.owner) && FreeOk(s.chunks, s.owner, s.free, s.live) && LiveOk(s.chunks, s.owner, s.live)
    requires GcComplete(s, todo) && SpentUnused(s, todo) && NoIdleRun(s.chunks, s.owner, s.live, todo)
    requires RingOk(s) && b !in todo && (forall d :: d in todo ==> d in s.ring)
    requires forall d :: d in gone ==> d == b || d in s.cached
    requires t.chunks == s.chunks - gone && t.owner == s.owner - {b} && t.free == s.free && t.live == s.live && t.pending == s.pending
    requires SameBlocks(s.chunks, s.owner, t.chunks, t.owner)
    ensures Mapped(t.chunks, t.owner) && FreeOk(t.chunks, t.owner, t.free, t.live) && LiveOk(t.chunks, t.owner, t.live)
    ensures GcComplete(t, todo) && SpentUnused(t, todo) && NoIdleRun(t.chunks, t.owner, t.live, todo)
  {
    forall a | a in t.live
      ensures BlockAt(t.chunks, t.owner, a, t.live[a])
    {
      assert BlockAt(s.chunks, s.owner, a, s.live[a]);
    }
    forall bin, a | 0 <= bin < BINS && a in t.free[bin]
      ensures SlotAt(t.chunks, t.owner, a, bin)
    {
      assert SlotAt(s.chunks, s.owner, a, bin);
    }
    forall a | Base(a) in todo
      ensures SpentAt(t.chunks, t.owner, a) <==> SpentAt(s.chunks, s.owner, a)
    {
    }
  }

  // ---------- counting and filtering, class by class ----------

  /** Chunk c1 is c0 with the runs of the classes below i counted against their lists. */
  ghost predicate ChunkCounted(c0: Chunk, c1: Chunk, owner: Owners, b: int, free: Lists, i: nat)
    requires |free| == BINS && i <= BINS
  {
    && WellSized(c0) && WellSized(c1) && c1 == c0.(info := c1.info)
    && forall p :: 0 <= p < PAGES ==>
         c1.info[p] == if c0.info[p].Srun? && c0.info[p].bin < i
                       then SrunEx(c0.info[p].bin, Count(free[c0.info[p].bin], |free[c0.info[p].bin]|, owner, b, p))
                       else c0.info[p]
  }

  ghost predicate BinsCounted(c0: ChunkMap, c1: ChunkMap, owner: Owners, free: Lists, i: nat)
    requires |free| == BINS && i <= BINS
  {
    && c1.Keys == c0.Keys
    && (forall b :: b in c0 && b !in owner ==> c1[b] == c0[b])
    && (forall b :: b in c0 && b in owner ==> ChunkCounted(c0[b], c1[b], owner, b, free, i))
  }

  /** The lists of the classes below i have lost the slots of full runs; the others are as before. */
  ghost predicate BinsFiltered(s: State, chunks: ChunkMap, free: Lists, i: nat)
    requires |s.free| == BINS && i <= BINS
  {
    && |free| == BINS
    && (forall bin :: i <= bin < BINS ==> free[bin] == s.free[bin])
    && (forall bin :: 0 <= bin < i ==> NoDup(free[bin]))
    && (forall bin, a :: 0 <= bin < i ==> (a in free[bin] <==> a in s.free[bin] && !FullAt(chunks, s.owner, a, bin)))
  }

  lemma CountedOne(c0: ChunkMap, c1: ChunkMap, c2: ChunkMap, owner: Owners, free: Lists, i: nat)
    requires |free| == BINS && i < BINS && BinsCounted(c0, c1, owner, free, i)
    requires Counted(c1, c2, owner, i, free[i], |free[i]|)
    ensures BinsCounted(c0, c2, owner, free, i + 1)
  {
    forall b | b in c0 && b in owner
      ensures ChunkCounted(c0[b], c2[b], owner, b, free, i + 1)
    {
      assert ChunkCounted(c0[b], c1[b], owner, b, free, i);
      assert CountedChunk(c1[b], c2[b], owner, b, i, free[i], |free[i]|);
    }
  }

  /** Counting a later class does not disturb the verdict on an earlier one. */
  lemma FullStays(c1: ChunkMap, c2: ChunkMap, owner: Owners, i: nat, list: seq<int>, a: int, bin: nat)
    requires Counted(c1, c2, owner, i, list, |list|) && bin != i
    ensures FullAt(c2, owner, a, bin) <==> FullAt(c1, owner, a, bin)
  {
    var b := Base(a);
    if b in c1 && b in owner {
      assert CountedChunk(c1[b], c2[b], owner, b, i, list, |list|);
    }
  }

  lemma FilteredOne(s: State, c1: ChunkMap, c2: ChunkMap, free: Lists, i: nat)
    requires |s.free| == BINS && i < BINS && BinsFiltered(s, c1, free, i) && NoDup(s.free[i])
    requires Counted(c1, c2, s.owner, i, s.free[i], |s.free[i]|)
    ensures BinsFiltered(s, c2, free[i := Kept(s.free[i], |s.free[i]|, c2, s.owner, i)], i + 1)
  {
    var list := s.free[i];
    KeptIs(list, |list|, c2, s.owner, i);
    assert list[..|list|] == list;
    forall bin: nat, a | bin < i
      ensures FullAt(c2, s.owner, a, bin) <==> FullAt(c1, s.owner, a, bin)
    {
      FullStays(c1, c2, s.owner, i, list, a, bin);
    }
  }

  /** All classes counted and filtered: the heap between the phases, as a change of s. */
  ghost predicate Filtered(s: State, t: State, i: nat) {
    && t == s.(chunks := t.chunks, heads := t.heads, mem := t.mem, free := t.free)
    && |s.free| == BINS && i <= BINS
    && BinsCounted(s.chunks, t.chunks, s.owner, s.free, i)
    && BinsFiltered(s, t.chunks, t.free, i)
    && Links(t.mem, t.heads, t.free)
    && Untouched(s.live, s.mem, t.mem)
  }

  lemma FilteredStart(s: State)
    requires Sound(s)
    ensures Filtered(s, s, 0)
  {
    SoundIs(s);
    forall b | b in s.chunks && b in s.owner
      ensures ChunkCounted(s.chunks[b], s.chunks[b], s.owner, b, s.free, 0)
    {
      assert Tiled(s.chunks[b], s.owner[b]);
    }
  }

  lemma CountedKeepsTiling(c0: Chunk, c1: Chunk, o: seq<int>)
    requires Tiled(c0, o) && WellSized(c1) && c1 == c0.(info := c1.info)
    requires forall p :: 0 <= p < PAGES ==> c1.info[p] == c0.info[p] || (c0.info[p].Srun? && c1.info[p].Srun? && c1.info[p].bin == c0.info[p].bin)
    ensures Tiled(c1, o)
  {
    assert forall p :: 0 <= p < PAGES && Header(c0.info[p]) ==> Header(c1.info[p]) && RunPages(c1.info[p]) == RunPages(c0.info[p]);
  }

  lemma CountedTiles(c0: Chunk, c1: Chunk, owner: Owners, b: int, free: Lists, i: nat)
    requires |free| == BINS && i <= BINS && b in owner && Tiled(c0, owner[b]) && ChunkCounted(c0, c1, owner, b, free, i)
    ensures Tiled(c1, owner[b]) && SameSlots(c0, owner[b], c1, owner[b]) && SameLarge(c0, owner[b], c1, owner[b])
  {
    CountedKeepsTiling(c0, c1, owner[b]);
  }

  lemma FilteredBlocks(s: State, t: State, i: nat)
    requires Sound(s) && Filtered(s, t, i)
    ensures Mapped(t.chunks, t.owner) && SameBlocks(s.chunks, s.owner, t.chunks, t.owner)
    ensures FreeOk(t.chunks, t.owner, t.free, t.live) && LiveOk(t.chunks, t.owner, t.live)
  {
    SoundIs(s);
    forall b | b in s.owner
      ensures b in t.chunks && Tiled(t.chunks[b], s.owner[b])
      ensures SameSlots(s.chunks[b], s.owner[b], t.chunks[b], s.owner[b])
      ensures SameLarge(s.chunks[b], s.owner[b], t.chunks[b], s.owner[b])
    {
      assert ChunkCounted(s.chunks[b], t.chunks[b], s.owner, b, s.free, i);
      CountedTiles(s.chunks[b], t.chunks[b], s.owner, b, s.free, i);
    }
    forall a | a in s.live
      ensures BlockAt(t.chunks, t.owner, a, s.live[a])
    {
      assert BlockAt(s.chunks, s.owner, a, s.live[a]);
    }
    forall bin, a | 0 <= bin < BINS && a in t.free[bin]
      ensures SlotAt(t.chunks, t.owner, a, bin) && a !in t.live
    {
      assert a in s.free[bin];
      assert SlotAt(s.chunks, s.owner, a, bin);
    }
  }
}
