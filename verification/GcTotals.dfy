/** The walk of zend_mm_gc over the ring: pages released so far, chunks still to be swept. */
module GcTotals {
  import opened Bitset
  import opened Bins
  import opened Chunks
  import opened Blocks
  import opened HeapInv
  import opened HeapMem
  import opened HeapSteps
  import opened HeapState
  import opened HeapChunks
  import opened Sweep
  import opened GcSteps
  import opened GcPhases
  import opened GcStart

  // ---------- pages in use ----------

  /** Pages of the ring's chunks that are allocated, not counting the header pages. */
  function UsedPages(chunks: ChunkMap, ring: seq<int>): int {
    if ring == [] then 0
    else (if ring[0] in chunks then PAGES - FIRST_PAGE - chunks[ring[0]].freePages else 0) + UsedPages(chunks, ring[1..])
  }

  lemma {:induction false} UsedSame(c: ChunkMap, d: ChunkMap, ring: seq<int>)
    requires forall b :: b in ring ==> b in c && b in d && c[b].freePages == d[b].freePages
    ensures UsedPages(c, ring) == UsedPages(d, ring)
  {
    if ring != [] {
      var b := ring[0];
      assert b in ring && b in c && b in d;
      UsedSame(c, d, ring[1..]);
      assert UsedPages(c, ring) == PAGES - FIRST_PAGE - c[b].freePages + UsedPages(c, ring[1..]);
      assert UsedPages(d, ring) == PAGES - FIRST_PAGE - d[b].freePages + UsedPages(d, ring[1..]);
    }
  }

  lemma {:induction false} UsedChange(c: ChunkMap, ring: seq<int>, b: int, r: Chunk)
    requires NoDup(ring) && b in ring && forall d :: d in ring ==> d in c
    ensures UsedPages(c[b := r], ring) == UsedPages(c, ring) + c[b].freePages - r.freePages
  {
    assert ring == [ring[0]] + ring[1..];
    if ring[0] == b {
      UsedSame(c, c[b := r], ring[1..]);
    } else {
      UsedChange(c, ring[1..], b, r);
    }
  }

  lemma {:induction false} UsedWithout(c: ChunkMap, ring: seq<int>, b: int)
    requires NoDup(ring) && b in ring && b in c && c[b].freePages == PAGES - FIRST_PAGE
    ensures UsedPages(c, Without(ring, b)) == UsedPages(c, ring)
  {
    assert ring == [ring[0]] + ring[1..];
    if ring[0] != b {
      UsedWithout(c, ring[1..], b);
    }
  }

  lemma {:induction false} WithoutAt(s: seq<int>, i: nat)
    requires NoDup(s) && i < |s|
    ensures Without(s, s[i]) == s[..i] + s[i + 1..]
  {
    if i > 0 {
      WithoutAt(s[1..], i - 1);
      assert s[1..][..i - 1] == s[1..i] && s[1..][i..] == s[i + 1..];
    }
  }

  // ---------- a chunk whose runs are all collectable ----------

  /** Every run of chunk b, other than its header page, is a run of free slots that can be collected. */
  ghost predicate ChunkIdle(s: State, b: int) {
    && b in s.chunks && WellSized(s.chunks[b])
    && forall p :: 1 <= p < PAGES && Header(s.chunks[b].info[p]) ==>
         && s.chunks[b].info[p].Srun? && s.chunks[b].info[p].bin != 0
         && !HasLive(s.live, b, p, s.chunks[b].info[p].bin)
  }

  lemma EmptiedThenIdle(s: State, t: State, b: int, r: Chunk, p: seq<int>)
    requires Sound(s) && Filtered(s, t, BINS) && b in s.ring && b in t.chunks && b in s.owner
    requires WellSized(t.chunks[b]) && |s.owner[b]| == PAGES && Tiled(r, p) && Swept(t.chunks[b], s.owner[b], r, p)
    requires r.freePages == PAGES - FIRST_PAGE
    ensures ChunkIdle(s, b)
  {
    EmptyByCount(r, p);
    SoundIs(s);
    assert Tiled(s.chunks[b], s.owner[b]);
    forall k | 1 <= k < PAGES && Header(s.chunks[b].info[k])
      ensures s.chunks[b].info[k].Srun? && s.chunks[b].info[k].bin != 0
      ensures !HasLive(s.live, b, k, s.chunks[b].info[k].bin)
    {
      assert s.owner[b][k] == k && p[k] == -1;
      assert ChunkCounted(s.chunks[b], t.chunks[b], s.owner, b, s.free, BINS);
      var bin := s.chunks[b].info[k].bin;
      SpentMeans(s, t, b, k, bin);
      LiveOrAllFree(s, b, k, bin);
    }
  }

  lemma IdleThenEmptied(s: State, t: State, b: int, r: Chunk, p: seq<int>)
    requires Sound(s) && Filtered(s, t, BINS) && b in s.ring && b in t.chunks && b in s.owner
    requires WellSized(t.chunks[b]) && |s.owner[b]| == PAGES && Tiled(r, p) && Swept(t.chunks[b], s.owner[b], r, p)
    requires ChunkIdle(s, b)
    ensures r.freePages == PAGES - FIRST_PAGE
  {
    SoundIs(s);
    var o := s.owner[b];
    assert Tiled(s.chunks[b], o);
    forall k | 1 <= k < PAGES
      ensures !r.bits[k]
    {
      var h := o[k];
      if 0 <= h {
        assert o[h] == h;
        OnlyHeaderAtZero(s.chunks[b], o, k);
        var bin := s.chunks[b].info[h].bin;
        SpentMeans(s, t, b, h, bin);
        LiveOrAllFree(s, b, h, bin);
      }
    }
    FreeCountAdds(r.bits, 0, 1);
    FreeCountAdds(r.bits, 1, PAGES);
    assert o[0] == 0;
    HeaderStays(s, t, b, r, p);
  }

  /** Page 0 is a run of its own. */
  lemma OnlyHeaderAtZero(c: Chunk, o: seq<int>, k: nat)
    requires Tiled(c, o) && 1 <= k < PAGES && 0 <= o[k]
    ensures 1 <= o[k] && Header(c.info[o[k]])
  {
    assert o[o[k]] == o[k];
    assert o[0] == 0;
  }

  lemma HeaderStays(s: State, t: State, b: int, r: Chunk, p: seq<int>)
    requires Tiled(r, p)
    ensures r.bits[0]
  {
    assert r.info[0] == Lrun(FIRST_PAGE) && p[0] == 0;
  }

  lemma EmptiedIffIdle(s: State, t: State, b: int, r: Chunk, p: seq<int>)
    requires Sound(s) && Filtered(s, t, BINS) && b in s.ring && b in t.chunks && b in s.owner
    requires WellSized(t.chunks[b]) && |s.owner[b]| == PAGES && Tiled(r, p) && Swept(t.chunks[b], s.owner[b], r, p)
    ensures r.freePages == PAGES - FIRST_PAGE <==> ChunkIdle(s, b)
  {
    if r.freePages == PAGES - FIRST_PAGE {
      EmptiedThenIdle(s, t, b, r, p);
    }
    if ChunkIdle(s, b) {
      IdleThenEmptied(s, t, b, r, p);
    }
  }

  // ---------- the walk ----------

  function Waiting(ring: seq<int>, i: nat): set<int>
    requires i <= |ring|
  {
    set b | b in ring[i..]
  }

  predicate NoSpent(c: Chunk) {
    WellSized(c) && forall p :: 0 <= p < PAGES ==> !Spent(c, p)
  }

  /** The chunks from position i of u's ring are as they were in t. */
  ghost predicate Unswept(s: State, t: State, u: State, i: nat) {
    forall j :: i <= j < |u.ring| ==>
      var b := u.ring[j];
      b in s.ring && b in t.chunks && b in t.owner && b in u.chunks && b in u.owner
      && u.chunks[b] == t.chunks[b] && u.owner[b] == t.owner[b]
  }

  /** s: the heap before the collection. t: after counting and filtering. u: now, with the chunks from
      position i of its ring still to be swept. */
  ghost predicate WalkingNow(s: State, t: State, u: State, i: nat, pages: int) {
    && Sound(s) && Filtered(s, t, BINS)
    && i <= |u.ring| && u.ring != [] && u.ring[0] == s.ring[0] && NoDup(u.ring)
    && SoundGc(u, Waiting(u.ring, i))
    && Unswept(s, t, u, i)
    && u.live == s.live && u.free == t.free && u.mem == t.mem && u.pending == s.pending
    && pages == UsedPages(s.chunks, s.ring) - UsedPages(u.chunks, u.ring)
    && (pages == 0 <==> forall b :: b in s.ring && b !in Waiting(u.ring, i) ==> b in t.chunks && NoSpent(t.chunks[b]))
  }

  ghost predicate WalkingBehind(s: State, t: State, u: State, i: nat, pages: int, k: nat)
    decreases k
  {
    if k == 0 then WalkingNow(s, t, u, i, pages) else WalkingBehind(s, t, u, i, pages, k - 1)
  }

  ghost predicate Walking(s: State, t: State, u: State, i: nat, pages: int) {
    WalkingBehind(s, t, u, i, pages, i + 3)
  }

  lemma {:induction false} WalkingBehindIs(s: State, t: State, u: State, i: nat, pages: int, k: nat)
    ensures WalkingBehind(s, t, u, i, pages, k) == WalkingNow(s, t, u, i, pages)
    decreases k
  {
    if k > 0 {
      WalkingBehindIs(s, t, u, i, pages, k - 1);
    }
  }

  lemma WalkingIs(s: State, t: State, u: State, i: nat, pages: int)
    ensures Walking(s, t, u, i, pages) == WalkingNow(s, t, u, i, pages)
  {
    WalkingBehindIs(s, t, u, i, pages, i + 3);
  }

  lemma WalkingFrom(s: State, t: State, u: State, i: nat, pages: int)
    requires Sound(s) && Filtered(s, t, BINS)
    requires i <= |u.ring| && u.ring != [] && u.ring[0] == s.ring[0] && NoDup(u.ring)
    requires SoundGc(u, Waiting(u.ring, i))
    requires Unswept(s, t, u, i)
    requires u.live == s.live && u.free == t.free && u.mem == t.mem && u.pending == s.pending
    requires pages == UsedPages(s.chunks, s.ring) - UsedPages(u.chunks, u.ring)
    requires pages == 0 <==> forall b :: b in s.ring && b !in Waiting(u.ring, i) ==> b in t.chunks && NoSpent(t.chunks[b])
    ensures Walking(s, t, u, i, pages)
  {
    WalkingIs(s, t, u, i, pages);
  }

  lemma WalkingStarts(s: State, t: State)
    requires Sound(s) && Filtered(s, t, BINS)
    ensures Walking(s, t, t, 0, 0)
  {
    GcStarts(s, t);
    SoundIs(s);
    assert t.ring[0..] == t.ring;
    assert Waiting(t.ring, 0) == set b | b in s.ring;
    forall b | b in s.ring
      ensures b in t.chunks && t.chunks[b].freePages == s.chunks[b].freePages
    {
      assert ChunkCounted(s.chunks[b], t.chunks[b], s.owner, b, s.free, BINS);
    }
    UsedSame(s.chunks, t.chunks, s.ring);
    WalkingIs(s, t, t, 0, 0);
  }

  /** The chunk at position i, about to be swept. */
  lemma WalkingAt(s: State, t: State, u: State, i: nat, pages: int)
    requires Walking(s, t, u, i, pages) && i < |u.ring|
    ensures var b := u.ring[i];
            && b in u.chunks && b in u.owner && Tiled(u.chunks[b], u.owner[b])
            && b in s.ring && (b == s.ring[0] <==> i == 0)
            && b in t.chunks && b in s.owner && u.chunks[b] == t.chunks[b] && u.owner[b] == s.owner[b]
            && Sound(s) && Filtered(s, t, BINS)
    ensures NoDup(u.ring) && s.ring != [] && u.ring[0] == s.ring[0]
    ensures u.cached != [] ==> u.cached[0] in u.chunks
  {
    WalkingIs(s, t, u, i, pages);
    GcChunk(u, Waiting(u.ring, i), u.ring[i]);
    SoundRing(s);
    if u.cached != [] {
      var d := u.cached[0];
      assert d in u.cached;
      assert d in u.chunks;
    }
  }

  lemma WaitingNext(ring: seq<int>, i: nat)
    requires i < |ring| && NoDup(ring)
    ensures Waiting(ring, i) == Waiting(ring, i + 1) + {ring[i]}
    ensures ring[i] !in Waiting(ring, i + 1) && ring[i] in Waiting(ring, i)
    ensures forall b :: b in Waiting(ring, i + 1) ==> b in ring
  {
    assert ring[i..] == [ring[i]] + ring[i + 1..];
  }

  lemma WalkingSweeps(s: State, t: State, u: State, i: nat, pages: int, r: Chunk, p: seq<int>, n: nat)
    requires Walking(s, t, u, i, pages) && i < |u.ring| && 0 <= pages
    requires u.ring[i] in u.chunks && u.ring[i] in u.owner && Tiled(u.chunks[u.ring[i]], u.owner[u.ring[i]])
    requires Tiled(r, p) && Swept(u.chunks[u.ring[i]], u.owner[u.ring[i]], r, p)
    requires n == r.freePages - u.chunks[u.ring[i]].freePages
    requires n == 0 <==> forall q :: 0 <= q < PAGES ==> !Spent(u.chunks[u.ring[i]], q)
    ensures Walking(s, t, SetChunk(u, u.ring[i], r, p), i + 1, pages + n)
  {
    var b := u.ring[i];
    var v := SetChunk(u, b, r, p);
    WalkingIs(s, t, u, i, pages);
    WaitingNext(u.ring, i);
    GcSweep(u, Waiting(u.ring, i), b, r, p);
    assert Waiting(u.ring, i) - {b} == Waiting(u.ring, i + 1);
    RingMapped(u, Waiting(u.ring, i));
    UsedChange(u.chunks, u.ring, b, r);
    WalkedMore(s, t, u, i, pages, n);
    SweptUnswept(s, t, u, i, r, p);
    WalkingFrom(s, t, v, i + 1, pages + n);
  }

  /** Sweeping one chunk leaves the chunks behind it as they were. */
  lemma SweptUnswept(s: State, t: State, u: State, i: nat, r: Chunk, p: seq<int>)
    requires i < |u.ring| && Unswept(s, t, u, i) && NoDup(u.ring)
    ensures Unswept(s, t, SetChunk(u, u.ring[i], r, p), i + 1)
  {
    assert forall j :: i + 1 <= j < |u.ring| ==> u.ring[j] != u.ring[i];
  }

  lemma WalkedMore(s: State, t: State, u: State, i: nat, pages: nat, n: nat)
    requires WalkingNow(s, t, u, i, pages) && i < |u.ring|
    requires WellSized(u.chunks[u.ring[i]]) && (n == 0 <==> forall q :: 0 <= q < PAGES ==> !Spent(u.chunks[u.ring[i]], q))
    ensures pages + n == 0 <==> forall d :: d in s.ring && d !in Waiting(u.ring, i + 1) ==> d in t.chunks && NoSpent(t.chunks[d])
  {
    var b := u.ring[i];
    WaitingNext(u.ring, i);
    assert n == 0 <==> NoSpent(t.chunks[b]);
    assert forall d :: d !in Waiting(u.ring, i + 1) <==> d !in Waiting(u.ring, i) || d == b;
  }

  lemma RingMapped(u: State, todo: set<int>)
    requires SoundGc(u, todo)
    ensures forall d :: d in u.ring ==> d in u.chunks
  {
    SoundGcIs(u, todo);
  }

  /** The chunk just swept has no run left and leaves the ring. */
  lemma WalkingLeaves(s: State, t: State, u: State, i: nat, pages: int, cached: seq<int>, gone: set<int>)
    requires Walking(s, t, u, i + 1, pages) && 0 < i < |u.ring| && 0 <= pages
    requires u.ring[i] in u.chunks && u.chunks[u.ring[i]].freePages == PAGES - FIRST_PAGE
    requires Disposal(u, u.ring[i], cached, gone)
    ensures Walking(s, t, LeaveStep(u, u.ring[i], cached, gone), i, pages)
    ensures forall d :: d in gone && d in u.live ==> !u.live[d].Huge?
  {
    WalkingIs(s, t, u, i + 1, pages);
    var b := u.ring[i];
    var v := LeaveStep(u, b, cached, gone);
    WaitingNext(u.ring, i);
    WithoutAt(u.ring, i);
    WithoutIs(u.ring, b);
    GcLeave(u, Waiting(u.ring, i + 1), b, cached, gone);
    assert v.ring[i..] == u.ring[i + 1..];
    assert Waiting(v.ring, i) == Waiting(u.ring, i + 1);
    GoneApart(u, Waiting(u.ring, i + 1), b, cached, gone);
    LeaveUsed(u, b, gone);
    LeaveUnswept(s, t, u, i, v, gone);
    WalkingIs(s, t, v, i, pages);
  }

  lemma GoneApart(u: State, todo: set<int>, b: int, cached: seq<int>, gone: set<int>)
    requires SoundGc(u, todo) && b in u.ring && Disposal(u, b, cached, gone)
    ensures NoDup(u.ring) && forall d :: d in u.ring ==> d in u.chunks
    ensures forall d :: d in gone && d != b ==> d !in u.ring
    ensures forall d :: d in gone && d in u.live ==> !u.live[d].Huge?
  {
    SoundGcIs(u, todo);
    assert u.cached != [] ==> u.cached[0] in u.cached;
  }

  /** Chunks behind the one that leaves keep their places one step nearer. */
  lemma LeaveUnswept(s: State, t: State, u: State, i: nat, v: State, gone: set<int>)
    requires i < |u.ring| && Unswept(s, t, u, i + 1) && NoDup(u.ring)
    requires v.ring == u.ring[..i] + u.ring[i + 1..] && v.chunks == u.chunks - gone && v.owner == u.owner - {u.ring[i]}
    requires forall d :: d in gone && d != u.ring[i] ==> d !in u.ring
    ensures Unswept(s, t, v, i)
  {
    forall j | i <= j < |v.ring|
      ensures v.ring[j] == u.ring[j + 1] && v.ring[j] in v.chunks && v.ring[j] in v.owner
    {
      assert u.ring[j + 1] in u.ring && u.ring[i] != u.ring[j + 1];
    }
  }

  lemma LeaveUsed(u: State, b: int, gone: set<int>)
    requires NoDup(u.ring) && b in u.ring && forall d :: d in u.ring ==> d in u.chunks
    requires forall d :: d in gone && d != b ==> d !in u.ring
    requires u.chunks[b].freePages == PAGES - FIRST_PAGE
    ensures UsedPages(u.chunks - gone, Without(u.ring, b)) == UsedPages(u.chunks, u.ring)
  {
    UsedWithout(u.chunks, u.ring, b);
    WithoutIs(u.ring, b);
    UsedSame(u.chunks, u.chunks - gone, Without(u.ring, b));
  }

  // ---------- no chunk but the main one is left empty ----------

  /** The chunks at positions 1 to i - 1 hold something. */
  ghost predicate PastNow(u: State, i: nat) {
    && i <= |u.ring|
    && forall j :: 1 <= j < i ==> u.ring[j] in u.chunks && u.chunks[u.ring[j]].freePages < PAGES - FIRST_PAGE
  }

  ghost predicate PastBehind(u: State, i: nat, k: nat)
    decreases k
  {
    if k == 0 then PastNow(u, i) else PastBehind(u, i, k - 1)
  }

  ghost predicate PastOccupied(u: State, i: nat) {
    PastBehind(u, i, i + 3)
  }

  lemma {:induction false} PastBehindIs(u: State, i: nat, k: nat)
    ensures PastBehind(u, i, k) == PastNow(u, i)
    decreases k
  {
    if k > 0 {
      PastBehindIs(u, i, k - 1);
    }
  }

  lemma PastIs(u: State, i: nat)
    ensures PastOccupied(u, i) == PastNow(u, i)
  {
    PastBehindIs(u, i, i + 3);
  }

  lemma PastStarts(u: State)
    ensures PastOccupied(u, 0)
  {
    PastIs(u, 0);
  }

  lemma PastSweeps(u: State, i: nat, r: Chunk, p: seq<int>)
    requires PastOccupied(u, i) && i < |u.ring| && NoDup(u.ring) && Tiled(r, p)
    ensures PastOccupied(SetChunk(u, u.ring[i], r, p), i)
    ensures r.freePages != PAGES - FIRST_PAGE ==> PastOccupied(SetChunk(u, u.ring[i], r, p), i + 1)
  {
    FreeAtMost(r, p);
    PastIs(u, i);
    PastIs(SetChunk(u, u.ring[i], r, p), i);
    PastIs(SetChunk(u, u.ring[i], r, p), i + 1);
    assert forall j :: 1 <= j < i ==> u.ring[j] != u.ring[i];
  }

  lemma PastLeaves(s: State, t: State, u: State, i: nat, pages: int, cached: seq<int>, gone: set<int>)
    requires Walking(s, t, u, i + 1, pages) && 0 < i < |u.ring| && PastOccupied(u, i)
    requires Disposal(u, u.ring[i], cached, gone)
    ensures PastOccupied(LeaveStep(u, u.ring[i], cached, gone), i)
  {
    WalkingIs(s, t, u, i + 1, pages);
    WithoutAt(u.ring, i);
    GoneApart(u, Waiting(u.ring, i + 1), u.ring[i], cached, gone);
    var v := LeaveStep(u, u.ring[i], cached, gone);
    PastIs(u, i);
    PastIs(v, i);
    forall j | 1 <= j < i
      ensures v.ring[j] in v.chunks && v.chunks[v.ring[j]].freePages < PAGES - FIRST_PAGE
    {
      assert v.ring[j] == u.ring[j] && u.ring[j] in u.ring && u.ring[j] != u.ring[i];
    }
  }

  lemma PastEnds(u: State)
    requires PastOccupied(u, |u.ring|)
    ensures Occupied(u)
  {
    PastIs(u, |u.ring|);
    OccupiedIs(u, 0);
  }

  /** A chunk that the sweep empties has given pages back. */
  lemma SweptSome(s: State, t: State, u: State, i: nat, pages: int)
    requires Walking(s, t, u, i, pages) && 0 < i < |u.ring| && Occupied(s)
    ensures u.ring[i] in u.chunks && u.chunks[u.ring[i]].freePages < PAGES - FIRST_PAGE
  {
    WalkingAt(s, t, u, i, pages);
    var b := u.ring[i];
    GcStarts(s, t);
    SoundIs(s);
    assert ChunkCounted(s.chunks[b], t.chunks[b], s.owner, b, s.free, BINS);
    OccupiedIs(s, 0);
  }

  /** What a collection that keeps the main chunk does to the heap. */
  ghost predicate Collected(s: State, u: State, bytes: int) {
    && u.ring != [] && s.ring != [] && u.ring[0] == s.ring[0]
    && u.live == s.live && u.pending == s.pending && Untouched(s.live, s.mem, u.mem)
    && NoIdleRun(u.chunks, u.owner, u.live, {})
    && (bytes == 0 <==> NoIdleRun(s.chunks, s.owner, s.live, {}))
    && bytes == PAGE_SIZE * (UsedPages(s.chunks, s.ring) - UsedPages(u.chunks, u.ring))
    && |s.free| == |u.free| == BINS
    && (forall bin: nat, a :: bin < BINS ==> (a in u.free[bin] <==> a in s.free[bin] && !IdleAt(s, a, bin)))
  }

  /** A second collection right after the first finds nothing, so the loop in zend_mm_alloc_pages that retries
      after a collection ends. */
  lemma CollectedTwice(s: State, u: State, v: State, bytes: int, more: int)
    requires Collected(s, u, bytes) && Collected(u, v, more)
    ensures more == 0
  {
  }

  /** All chunks swept: the heap is sound, nothing collectable is left, and the pages tell whether there was
      anything to collect. */
  lemma WalkingEnds(s: State, t: State, u: State, pages: int)
    requires Walking(s, t, u, |u.ring|, pages)
    ensures Sound(u) && NoIdleRun(u.chunks, u.owner, u.live, {})
    ensures pages == 0 <==> NoIdleRun(s.chunks, s.owner, s.live, {})
    ensures pages == UsedPages(s.chunks, s.ring) - UsedPages(u.chunks, u.ring)
    ensures u.ring != [] && s.ring != [] && u.ring[0] == s.ring[0] && u.live == s.live && u.pending == s.pending
    ensures Untouched(s.live, s.mem, u.mem)
    ensures |s.free| == |u.free| == BINS
    ensures forall bin: nat, a :: bin < BINS ==> (a in u.free[bin] <==> a in s.free[bin] && !IdleAt(s, a, bin))
  {
    WalkingIs(s, t, u, |u.ring|, pages);
    assert Waiting(u.ring, |u.ring|) == {};
    GcEnds(u);
    SoundRing(s);
    NothingSpent(s, t);
    forall bin: nat, a | bin < BINS
      ensures a in u.free[bin] <==> a in s.free[bin] && !IdleAt(s, a, bin)
    {
      FilteredMeans(s, t, bin, a);
    }
    NoneSpent(s, t);
  }

  lemma NoneSpent(s: State, t: State)
    requires Sound(s) && Filtered(s, t, BINS)
    ensures (forall b :: b in s.ring ==> b in t.chunks && NoSpent(t.chunks[b]))
       <==> (forall b, p :: b in s.ring && b in t.chunks && WellSized(t.chunks[b]) && 0 <= p < PAGES ==> !Spent(t.chunks[b], p))
  {
    SoundIs(s);
    forall b | b in s.ring
      ensures b in t.chunks && WellSized(t.chunks[b])
    {
      assert ChunkCounted(s.chunks[b], t.chunks[b], s.owner, b, s.free, BINS);
    }
  }
}
