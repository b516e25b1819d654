// From the filtered free lists to the sweep.
module GcStart {
  // A counter shows its run's size exactly when no block of the run is handed out.

  import opened Bitset
  import opened Bins
  import opened Chunks
  import opened Blocks
  import opened HeapInv
  import opened HeapMem
  import opened HeapSteps
  import opened HeapState
  import opened GcCounts
  import opened Sweep
  import opened GcSteps
  import opened GcPhases

  /** Chunk b has a run of small blocks of this class at page p. */
  ghost predicate SmallRun(s: State, b: int, p: int, bin: nat) {
    b in s.owner && b in s.chunks && WellSized(s.chunks[b]) && 0 <= p < PAGES
    && s.chunks[b].info[p].Srun? && s.chunks[b].info[p].bin == bin
  }

  /** A nine-bit counter shows the number of elements of every class but the first. */
  lemma CounterShows(bin: nat, n: nat)
    requires bin < BINS && n <= BinElements(bin)
    ensures n % 512 == BinElements(bin) <==> bin != 0 && n == BinElements(bin)
  {
    BinFacts(bin);
  }

  lemma RunCounted(s: State, t: State, b: int, p: int, bin: nat)
    requires Sound(s) && Filtered(s, t, BINS) && SmallRun(s, b, p, bin)
    ensures bin < BINS && 0 < p && |s.free| == BINS && b in t.chunks && WellSized(t.chunks[b])
    ensures t.chunks[b].info[p] == SrunEx(bin, Count(s.free[bin], |s.free[bin]|, s.owner, b, p))
  {
    SoundIs(s);
    assert Tiled(s.chunks[b], s.owner[b]);
    assert ChunkCounted(s.chunks[b], t.chunks[b], s.owner, b, s.free, BINS);
  }

  lemma RunCount(s: State, b: int, p: int, bin: nat)
    requires Sound(s) && SmallRun(s, b, p, bin) && bin < BINS && 0 < p && |s.free| == BINS
    ensures Count(s.free[bin], |s.free[bin]|, s.owner, b, p) <= BinElements(bin)
    ensures Count(s.free[bin], |s.free[bin]|, s.owner, b, p) == BinElements(bin) <==> AllFree(s.free[bin], b, p, bin)
  {
    SoundIs(s);
    CountMeansAll(s.chunks, s.owner, s.free[bin], b, p, bin);
  }

  /** The free counter of a run after counting, and what it means. */
  lemma SpentMeans(s: State, t: State, b: int, p: int, bin: nat)
    requires Sound(s) && Filtered(s, t, BINS) && SmallRun(s, b, p, bin)
    ensures bin < BINS && 0 < p && |s.free| == BINS && b in t.chunks && WellSized(t.chunks[b])
    ensures t.chunks[b].info[p].Srun? && t.chunks[b].info[p].bin == bin
    ensures Spent(t.chunks[b], p) <==> bin != 0 && AllFree(s.free[bin], b, p, bin)
  {
    RunCounted(s, t, b, p, bin);
    RunCount(s, b, p, bin);
    CounterShows(bin, Count(s.free[bin], |s.free[bin]|, s.owner, b, p));
  }

  /** A run has a live block exactly when not all its slots are free. */
  lemma LiveOrAllFree(s: State, b: int, p: int, bin: nat)
    requires Sound(s) && SmallRun(s, b, p, bin) && bin < BINS && |s.free| == BINS && 0 < p
    ensures AllFree(s.free[bin], b, p, bin) <==> !HasLive(s.live, b, p, bin)
  {
    SoundIs(s);
    forall a | SlotOf(a, RunAddress(b, p), bin)
      ensures a in s.live <==> a !in s.free[bin]
    {
      SlotOfRunIs(s.chunks, s.owner, b, p, a);
    }
  }

  /** A block on a page of a run of small blocks is a slot of that run. */
  lemma BlockOnRun(s: State, a: int, k: Kind, p: int, bin: nat)
    requires Sound(s) && BlockAt(s.chunks, s.owner, a, k) && !k.Huge?
    requires SmallRun(s, Base(a), p, bin) && InRun(s.owner, a, Base(a), p)
    ensures k == Small(bin) && SlotOf(a, RunAddress(Base(a), p), bin)
  {
    SoundIs(s);
    JoinAddress(a);
    var c, o := s.chunks[Base(a)], s.owner[Base(a)];
    assert Tiled(c, o);
    assert a - RunAddress(Base(a), p) == Offset(a) - p * PAGE_SIZE;
  }

  /** The run of an address whose run is spent. */
  lemma SpentRun(s: State, t: State, a: int) returns (p: int, bin: nat)
    requires Sound(s) && Filtered(s, t, BINS) && SpentAt(t.chunks, t.owner, a)
    ensures SmallRun(s, Base(a), p, bin) && InRun(s.owner, a, Base(a), p) && bin != 0 && bin < BINS
    ensures |s.free| == BINS && AllFree(s.free[bin], Base(a), p, bin)
    ensures t.chunks[Base(a)].info[p] == Srun(bin, BinElements(bin))
  {
    var b := Base(a);
    p := s.owner[b][Page(a)];
    assert b in s.chunks && b in s.owner;
    assert ChunkCounted(s.chunks[b], t.chunks[b], s.owner, b, s.free, BINS);
    bin := s.chunks[b].info[p].bin;
    SpentMeans(s, t, b, p, bin);
  }

  lemma SpentNotUsed(s: State, t: State, a: int)
    requires Sound(s) && Filtered(s, t, BINS) && SpentAt(t.chunks, t.owner, a)
    ensures a in s.live ==> s.live[a].Huge?
    ensures |t.free| == BINS && forall k :: 0 <= k < BINS ==> a !in t.free[k]
  {
    var p, bin := SpentRun(s, t, a);
    SoundIs(s);
    assert a in s.live ==> BlockAt(s.chunks, s.owner, a, s.live[a]);
    if a in s.live && !s.live[a].Huge? {
      BlockOnRun(s, a, s.live[a], p, bin);
    }
    forall k | 0 <= k < BINS
      ensures a !in t.free[k]
    {
      if a in t.free[k] {
        assert SlotAt(s.chunks, s.owner, a, k);
        BlockOnRun(s, a, Small(k), p, bin);
        assert FullAt(t.chunks, s.owner, a, k);
      }
    }
  }

  lemma StartComplete(s: State, t: State)
    requires Sound(s) && Filtered(s, t, BINS)
    ensures |t.free| == BINS && GcComplete(t, set b | b in s.ring)
  {
    SoundIs(s);
    FilteredBlocks(s, t, BINS);
    var todo := set b | b in s.ring;
    forall a, bin: nat | SlotAt(t.chunks, t.owner, a, bin)
      ensures bin < BINS && (a in t.live || a in t.free[bin] || (Base(a) in todo && SpentAt(t.chunks, t.owner, a)))
    {
      assert SlotAt(s.chunks, s.owner, a, bin);
      assert FullAt(t.chunks, t.owner, a, bin) ==> SpentAt(t.chunks, t.owner, a);
    }
  }

  lemma StartIdle(s: State, t: State)
    requires Sound(s) && Filtered(s, t, BINS)
    ensures NoIdleRun(t.chunks, t.owner, t.live, set b | b in s.ring)
  {
    SoundIs(s);
    forall b, p | b in t.owner && b in t.chunks && 0 <= p < |t.chunks[b].info| && t.chunks[b].info[p].Srun?
      && t.chunks[b].info[p].bin != 0 && !(b in (set d | d in s.ring) && WellSized(t.chunks[b]) && Spent(t.chunks[b], p))
      ensures HasLive(t.live, b, p, t.chunks[b].info[p].bin)
    {
      assert ChunkCounted(s.chunks[b], t.chunks[b], s.owner, b, s.free, BINS);
      var bin := t.chunks[b].info[p].bin;
      SpentMeans(s, t, b, p, bin);
      LiveOrAllFree(s, b, p, bin);
    }
  }

  /** After counting and filtering, the sweep may begin. */
  lemma GcStarts(s: State, t: State)
    requires Sound(s) && Filtered(s, t, BINS)
    ensures SoundGc(t, set b | b in s.ring)
  {
    var todo := set b | b in s.ring;
    SoundIs(s);
    FilteredBlocks(s, t, BINS);
    StartComplete(s, t);
    StartIdle(s, t);
    forall a | Base(a) in todo && SpentAt(t.chunks, t.owner, a)
      ensures a in t.live ==> t.live[a].Huge?
      ensures forall bin :: 0 <= bin < BINS ==> a !in t.free[bin]
    {
      SpentNotUsed(s, t, a);
    }
    StartRing(s, t);
    SoundGcIs(t, todo);
  }

  lemma StartRing(s: State, t: State)
    requires SoundNow(s) && Filtered(s, t, BINS)
    ensures RingOk(t) && Regions(t.chunks, t.live)
    ensures forall b :: b in t.chunks && b !in s.ring ==> NoCounts(t.chunks[b])
  {
  }

  // ---------- what a collection does, in terms of the heap before it ----------

  /** The run of slot a could be collected: its class shows in the counter and all its slots are free. */
  ghost predicate IdleAt(s: State, a: int, bin: nat)
    requires bin < |s.free|
  {
    && bin != 0
    && Base(a) in s.owner && |s.owner[Base(a)]| == PAGES
    && AllFree(s.free[bin], Base(a), s.owner[Base(a)][Page(a)], bin)
  }

  /** Exactly the slots of collectable runs leave their free lists. */
  lemma FilteredMeans(s: State, t: State, bin: nat, a: int)
    requires Sound(s) && Filtered(s, t, BINS) && bin < BINS
    ensures |s.free| == |t.free| == BINS
    ensures a in t.free[bin] <==> a in s.free[bin] && !IdleAt(s, a, bin)
  {
    SoundIs(s);
    if a in s.free[bin] {
      assert SlotAt(s.chunks, s.owner, a, bin);
      RunOfSlot(s.chunks, s.owner, a, bin);
      var b, p := Base(a), s.owner[Base(a)][Page(a)];
      SpentMeans(s, t, b, p, bin);
      assert FullAt(t.chunks, t.owner, a, bin) <==> Spent(t.chunks[b], p);
    }
  }

  /** There is something to sweep exactly when some run could be collected. */
  lemma NothingSpent(s: State, t: State)
    requires Sound(s) && Filtered(s, t, BINS)
    ensures (forall b, p :: b in s.ring && b in t.chunks && WellSized(t.chunks[b]) && 0 <= p < PAGES ==> !Spent(t.chunks[b], p))
       <==> NoIdleRun(s.chunks, s.owner, s.live, {})
  {
    SoundIs(s);
    forall b, p | b in s.owner && b in s.chunks && 0 <= p < PAGES
      ensures b in t.chunks && WellSized(t.chunks[b]) && WellSized(s.chunks[b])
      ensures Spent(t.chunks[b], p) <==>
              s.chunks[b].info[p].Srun? && s.chunks[b].info[p].bin != 0 && !HasLive(s.live, b, p, s.chunks[b].info[p].bin)
    {
      assert Tiled(s.chunks[b], s.owner[b]);
      assert ChunkCounted(s.chunks[b], t.chunks[b], s.owner, b, s.free, BINS);
      if s.chunks[b].info[p].Srun? {
        var bin := s.chunks[b].info[p].bin;
        SpentMeans(s, t, b, p, bin);
        LiveOrAllFree(s, b, p, bin);
      }
    }
  }
}
