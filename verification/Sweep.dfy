// The last phase of zend_mm_gc on one chunk.
module Sweep {
  // Runs whose free counter has reached the number of their elements are released, the counters of the others
  // are reset.

  import opened Bitset
  import opened Bins
  import opened Chunks
  import opened Blocks
  import opened BlockChanges

  /** The free counter of the run at s equals the number of its elements. */
  predicate Spent(c: Chunk, s: nat)
    requires WellSized(c) && s < PAGES
  {
    c.info[s].Srun? && c.info[s].counter == BinElements(c.info[s].bin)
  }

  function Reset(i: PageInfo): PageInfo {
    if i.Srun? then Srun(i.bin, 0) else i
  }

  /** Spent runs that start before page i are released, the other counters before i are reset. */
  ghost predicate SweptTo(c: Chunk, o: seq<int>, r: Chunk, p: seq<int>, i: nat)
    requires WellSized(c) && |o| == PAGES && WellSized(r) && |p| == PAGES
  {
    && (forall k :: 0 <= k < PAGES ==> o[k] < PAGES && p[k] == if 0 <= o[k] < i && Spent(c, o[k]) then -1 else o[k])
    && (forall s :: 0 <= s < PAGES ==>
          r.info[s] == if s < i then (if Spent(c, s) then Frun else Reset(c.info[s])) else c.info[s])
  }

  ghost predicate Swept(c: Chunk, o: seq<int>, r: Chunk, p: seq<int>)
    requires WellSized(c) && |o| == PAGES && WellSized(r) && |p| == PAGES
  {
    SweptTo(c, o, r, p, PAGES)
  }

  lemma ReleaseRun(c: Chunk, o: seq<int>, r: Chunk, p: seq<int>, i: nat)
    requires Tiled(c, o) && Tiled(r, p) && 1 <= i < PAGES && SweptTo(c, o, r, p, i)
    requires p[i] == i && Spent(c, i)
    ensures var n := BinPages(c.info[i].bin);
            && RunPages(r.info[i]) == n && i + n <= PAGES
            && Tiled(Put(r, i, n), Own(p, i, 0))
            && SweptTo(c, o, Put(r, i, n), Own(p, i, 0), i + n)
  {
    PutTiled(r, p, i);
    NoHeaderInside(r, p, i);
  }

  lemma ResetRun(c: Chunk, o: seq<int>, r: Chunk, p: seq<int>, i: nat)
    requires Tiled(c, o) && Tiled(r, p) && 1 <= i < PAGES && SweptTo(c, o, r, p, i)
    requires p[i] == i && c.info[i].Srun? && !Spent(c, i)
    ensures var n := BinPages(c.info[i].bin);
            && RunPages(r.info[i]) == n && i + n <= PAGES
            && Tiled(SetInfo(r, i, SrunEx(c.info[i].bin, 0)), p)
            && SweptTo(c, o, SetInfo(r, i, SrunEx(c.info[i].bin, 0)), p, i + n)
  {
    SetCounterTiled(r, p, i, 0);
    NoHeaderInside(r, p, i);
  }

  /** A run has no header but its own, and what follows it is free or starts a run. */
  lemma NoHeaderInside(c: Chunk, o: seq<int>, s: nat)
    requires Tiled(c, o) && s < PAGES && o[s] == s
    ensures s + RunPages(c.info[s]) <= PAGES
    ensures forall k :: s < k < s + RunPages(c.info[s]) ==> k < PAGES && o[k] == s && !Header(c.info[k])
    ensures var e := s + RunPages(c.info[s]); e < PAGES ==> o[e] == e || o[e] == -1
  {
    var e := s + RunPages(c.info[s]);
    assert e < PAGES && 0 <= o[e] ==> o[o[e]] == o[e];
  }

  lemma AfterFree(c: Chunk, o: seq<int>, i: nat)
    requires Tiled(c, o) && i + 1 < PAGES && o[i] == -1
    ensures o[i + 1] == i + 1 || o[i + 1] == -1
  {
    assert 0 <= o[i + 1] ==> o[o[i + 1]] == o[i + 1];
  }

  /** The state of the sweep when it stands at page i. */
  ghost predicate SweepInv(c: Chunk, o: seq<int>, r: Chunk, p: seq<int>, i: nat, pages: nat) {
    && Tiled(c, o) && Tiled(r, p) && 1 <= i <= PAGES && SweptTo(c, o, r, p, i)
    && (i < PAGES ==> p[i] == i || p[i] == -1)
    && r.num == c.num && pages == r.freePages - c.freePages
    && (pages == 0 <==> forall s :: 0 <= s < i ==> !Spent(c, s))
  }

  // ---------- the loop ----------

  /** SweepInv behind k trivial steps: the loop below carries it as one fact, and only the four step
      lemmas look inside. */
  ghost predicate SweepBehind(c: Chunk, o: seq<int>, r: Chunk, p: seq<int>, i: nat, pages: nat, k: nat)
    decreases k
  {
    if k == 0 then SweepInv(c, o, r, p, i, pages) else SweepBehind(c, o, r, p, i, pages, k - 1)
  }

  ghost predicate Standing(c: Chunk, o: seq<int>, r: Chunk, p: seq<int>, i: nat, pages: nat) {
    SweepBehind(c, o, r, p, i, pages, i + 3)
  }

  lemma {:induction false} Behind(c: Chunk, o: seq<int>, r: Chunk, p: seq<int>, i: nat, pages: nat, k: nat)
    ensures SweepBehind(c, o, r, p, i, pages, k) == SweepInv(c, o, r, p, i, pages)
    decreases k
  {
    if k > 0 {
      Behind(c, o, r, p, i, pages, k - 1);
    }
  }

  lemma StandingIs(c: Chunk, o: seq<int>, r: Chunk, p: seq<int>, i: nat, pages: nat)
    ensures Standing(c, o, r, p, i, pages) == SweepInv(c, o, r, p, i, pages)
  {
    Behind(c, o, r, p, i, pages, i + 3);
  }

  lemma StandingFrom(c: Chunk, o: seq<int>, r: Chunk, p: seq<int>, i: nat, pages: nat)
    requires Tiled(c, o)
    requires Tiled(r, p)
    requires 1 <= i <= PAGES && SweptTo(c, o, r, p, i)
    requires i < PAGES ==> p[i] == i || p[i] == -1
    requires r.num == c.num && pages == r.freePages - c.freePages
    requires pages == 0 <==> forall s :: 0 <= s < i ==> !Spent(c, s)
    ensures Standing(c, o, r, p, i, pages)
  {
    StandingIs(c, o, r, p, i, pages);
  }

  lemma Start(c: Chunk, o: seq<int>)
    requires Tiled(c, o)
    ensures Standing(c, o, c, o, FIRST_PAGE, 0)
  {
    AfterHeader(c, o);
    StandingIs(c, o, c, o, FIRST_PAGE, 0);
  }

  /** The bit of page i tells whether a run starts there. */
  lemma AtPage(c: Chunk, o: seq<int>, r: Chunk, p: seq<int>, i: nat, pages: nat)
    requires Standing(c, o, r, p, i, pages)
    ensures WellSized(c) && WellSized(r) && |p| == PAGES && r.freeTail <= PAGES
    ensures i < r.freeTail ==> r.info[i] == c.info[i]
    ensures i < r.freeTail ==> if r.bits[i] then p[i] == i && Header(r.info[i]) else p[i] == -1
    ensures i < r.freeTail && r.info[i].Srun? ==> r.info[i].bin < BINS && 1 <= BinPages(r.info[i].bin)
  {
    StandingIs(c, o, r, p, i, pages);
    if i < r.freeTail {
      assert r.bits[i] <==> 0 <= p[i];
      if r.info[i].Srun? {
        BinFacts(r.info[i].bin);
      }
    }
  }

  /** A run at page i ends at a boundary and has no header inside. */
  lemma AtRun(c: Chunk, o: seq<int>, r: Chunk, p: seq<int>, i: nat, pages: nat)
    requires Standing(c, o, r, p, i, pages) && i < PAGES && |p| == PAGES && p[i] == i
    ensures Tiled(c, o) && Tiled(r, p) && SweptTo(c, o, r, p, i)
    ensures r.info[i] == c.info[i] && Header(c.info[i])
    ensures var e := i + RunPages(c.info[i]); e <= PAGES && (e < PAGES ==> p[e] == e || p[e] == -1)
    ensures forall s :: i < s < i + RunPages(c.info[i]) ==> !Header(c.info[s])
  {
    StandingIs(c, o, r, p, i, pages);
    NoHeaderInside(r, p, i);
  }

  /** Where a run starts or a page is free, that stays so when another run is given back. */
  lemma BoundaryStays(p: seq<int>, i: nat, e: nat)
    requires |p| == PAGES && i < e < PAGES && (p[e] == e || p[e] == -1)
    ensures Own(p, i, 0)[e] == p[e]
  {
  }

  /** What a pass that reached page i has counted. */
  lemma Tally(c: Chunk, o: seq<int>, r: Chunk, p: seq<int>, i: nat, pages: nat)
    requires Standing(c, o, r, p, i, pages)
    ensures WellSized(c) && i <= PAGES && r.num == c.num && pages == r.freePages - c.freePages
    ensures pages == 0 <==> forall s :: 0 <= s < i ==> !Spent(c, s)
  {
    StandingIs(c, o, r, p, i, pages);
  }

  lemma StepRelease(c: Chunk, o: seq<int>, r: Chunk, p: seq<int>, i: nat, pages: nat)
    requires Standing(c, o, r, p, i, pages) && 1 <= i < PAGES && WellSized(c) && |p| == PAGES && p[i] == i && Spent(c, i)
    ensures var n := BinPages(c.info[i].bin);
            WellSized(r) && i + n <= PAGES && Standing(c, o, Put(r, i, n), Own(p, i, 0), i + n, pages + n)
  {
    AtRun(c, o, r, p, i, pages);
    Tally(c, o, r, p, i, pages);
    Released(c, o, r, p, i, pages);
  }

  lemma Released(c: Chunk, o: seq<int>, r: Chunk, p: seq<int>, i: nat, pages: nat)
    requires Tiled(c, o) && Tiled(r, p) && 1 <= i < PAGES && SweptTo(c, o, r, p, i) && p[i] == i && Spent(c, i)
    requires r.num == c.num && pages == r.freePages - c.freePages
    ensures var n := BinPages(c.info[i].bin);
            i + n <= PAGES && Standing(c, o, Put(r, i, n), Own(p, i, 0), i + n, pages + n)
  {
    var n := BinPages(c.info[i].bin);
    BinFacts(c.info[i].bin);
    ReleaseRun(c, o, r, p, i);
    NoHeaderInside(r, p, i);
    var e, r2, p2 := i + n, Put(r, i, n), Own(p, i, 0);
    if e < PAGES {
      BoundaryStays(p, i, e);
    }
    StandingFrom(c, o, r2, p2, e, pages + n);
  }

  lemma StepReset(c: Chunk, o: seq<int>, r: Chunk, p: seq<int>, i: nat, pages: nat)
    requires Standing(c, o, r, p, i, pages) && 1 <= i < PAGES && WellSized(c) && |p| == PAGES && p[i] == i
    requires c.info[i].Srun? && !Spent(c, i)
    ensures var n := BinPages(c.info[i].bin);
            WellSized(r) && i + n <= PAGES && Standing(c, o, SetInfo(r, i, SrunEx(c.info[i].bin, 0)), p, i + n, pages)
  {
    var n := BinPages(c.info[i].bin);
    AtRun(c, o, r, p, i, pages);
    ResetRun(c, o, r, p, i);
    StandingIs(c, o, r, p, i, pages);
    StandingFrom(c, o, SetInfo(r, i, SrunEx(c.info[i].bin, 0)), p, i + n, pages);
  }

  lemma StepLarge(c: Chunk, o: seq<int>, r: Chunk, p: seq<int>, i: nat, pages: nat)
    requires Standing(c, o, r, p, i, pages) && i < PAGES && WellSized(c) && |p| == PAGES && p[i] == i && c.info[i].Lrun?
    ensures Standing(c, o, r, p, i + c.info[i].pages, pages)
    ensures 1 <= c.info[i].pages && i + c.info[i].pages <= PAGES
  {
    AtRun(c, o, r, p, i, pages);
    StandingIs(c, o, r, p, i, pages);
    LargeSwept(c, o, r, p, i);
    StandingFrom(c, o, r, p, i + c.info[i].pages, pages);
  }

  lemma LargeSwept(c: Chunk, o: seq<int>, r: Chunk, p: seq<int>, i: nat)
    requires Tiled(c, o) && Tiled(r, p) && i < PAGES && SweptTo(c, o, r, p, i) && p[i] == i && c.info[i].Lrun?
    ensures i + c.info[i].pages <= PAGES && SweptTo(c, o, r, p, i + c.info[i].pages)
  {
    NoHeaderInside(r, p, i);
  }

  lemma StepFree(c: Chunk, o: seq<int>, r: Chunk, p: seq<int>, i: nat, pages: nat)
    requires Standing(c, o, r, p, i, pages) && i < PAGES && |p| == PAGES && p[i] == -1
    ensures Standing(c, o, r, p, i + 1, pages)
  {
    StandingIs(c, o, r, p, i, pages);
    FreeSwept(c, o, r, p, i);
    if i + 1 < PAGES {
      AfterFree(r, p, i);
    }
    StandingFrom(c, o, r, p, i + 1, pages);
  }

  lemma FreeSwept(c: Chunk, o: seq<int>, r: Chunk, p: seq<int>, i: nat)
    requires Tiled(c, o) && Tiled(r, p) && i < PAGES && SweptTo(c, o, r, p, i) && p[i] == -1
    ensures SweptTo(c, o, r, p, i + 1) && !Spent(c, i)
  {
    assert !Header(r.info[i]);
  }

  /** Past free_tail no run is left to visit. */
  lemma Finish(c: Chunk, o: seq<int>, r: Chunk, p: seq<int>, i: nat, pages: nat)
    requires Standing(c, o, r, p, i, pages) && r.freeTail <= i
    ensures Tiled(c, o) && Tiled(r, p) && Swept(c, o, r, p)
    ensures r.num == c.num && pages == r.freePages - c.freePages
    ensures pages == 0 <==> forall s :: 0 <= s < PAGES ==> !Spent(c, s)
  {
    StandingIs(c, o, r, p, i, pages);
    forall s | i <= s < PAGES
      ensures r.info[s] == c.info[s] && !Header(c.info[s])
    {
      assert p[s] != s;
    }
  }

  method SweepChunk(c: Chunk, ghost o: seq<int>) returns (r: Chunk, pages: nat, ghost p: seq<int>)
    requires Tiled(c, o)
    ensures Tiled(r, p) && Swept(c, o, r, p)
    ensures r.num == c.num && pages == r.freePages - c.freePages
    ensures pages == 0 <==> forall s :: 0 <= s < PAGES ==> !Spent(c, s)
  {
    r, pages, p := c, 0, o;
    var i: nat := FIRST_PAGE;
    Start(c, o);
    AtPage(c, o, r, p, i, pages);
    while i < r.freeTail
      invariant 1 <= i && Standing(c, o, r, p, i, pages)
      invariant WellSized(r) && r.freeTail <= PAGES
      decreases PAGES - i
    {
      AtPage(c, o, r, p, i, pages);
      if r.bits[i] {
        var info := r.info[i];
        if info.Srun? {
          var n := BinPages(info.bin);
          if info.counter == BinElements(info.bin) {
            StepRelease(c, o, r, p, i, pages);
            r, p := Put(r, i, n), Own(p, i, 0);
            pages := pages + n;
          } else {
            StepReset(c, o, r, p, i, pages);
            r := SetInfo(r, i, SrunEx(info.bin, 0));
          }
          i := i + n;
        } else {
          StepLarge(c, o, r, p, i, pages);
          i := i + info.pages;
        }
      } else {
        StepFree(c, o, r, p, i, pages);
        i := i + 1;
      }
      AtPage(c, o, r, p, i, pages);
    }
    Finish(c, o, r, p, i, pages);
  }

  lemma AfterHeader(c: Chunk, o: seq<int>)
    requires Tiled(c, o)
    ensures o[1] == 1 || o[1] == -1
    ensures SweepInv(c, o, c, o, 1, 0)
  {
    assert o[0] == 0;
    NoHeaderInside(c, o, 0);
  }
}
