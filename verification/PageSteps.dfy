/** Value-level steps of zend_mm_alloc_pages: the scan of the ring, and the run that is taken. */
module PageSteps {
  import opened Bitset
  import opened BestFit
  import opened Bins
  import opened Chunks
  import opened Blocks
  import opened HeapInv
  import opened HeapSteps
  import opened HeapMem
  import opened HeapState
  import opened HeapChunks
  import opened HeapBooks
  import opened GcCounts
  import opened GcSteps
  import opened GcTotals

  // ---------- scanning chunks ----------

  /** What a search for n pages in chunk b does to the heap: its free_tail is brought up to date. */
  ghost function ScanStep(s: State, b: int, n: nat): State {
    if b in s.chunks && b in s.owner && WellSized(s.chunks[b]) && 0 <= s.chunks[b].freeTail then
      SetChunk(s, b, s.chunks[b].(freeTail := FindIn(s.chunks[b], n).tail), s.owner[b])
    else s
  }

  /** The heap after the first i chunks of the ring have been searched. */
  ghost function Scanned(s: State, i: nat, n: nat): State
    requires i <= |s.ring|
    decreases i
  {
    if i == 0 then s else ScanStep(Scanned(s, i - 1, n), s.ring[i - 1], n)
  }

  /** Where a search for n pages in chunk b puts the run (0: nowhere). */
  ghost function FoundIn(s: State, b: int, n: nat): nat {
    if b in s.chunks && WellSized(s.chunks[b]) && 0 <= s.chunks[b].freeTail then FindIn(s.chunks[b], n).page else 0
  }

  /** None of the first i chunks of the ring has room for n pages. */
  ghost predicate Missed(s: State, n: nat, i: nat) {
    i <= |s.ring| && forall j :: 0 <= j < i ==> FoundIn(s, s.ring[j], n) == 0
  }

  /** The chunk at position i is the first of the ring with room for n pages. */
  ghost predicate FirstFit(s: State, n: nat, i: nat) {
    i < |s.ring| && FoundIn(s, s.ring[i], n) != 0 && Missed(s, n, i)
  }

  ghost predicate NoRoom(s: State, n: nat) {
    Missed(s, n, |s.ring|)
  }

  /** n pages can be had without asking for memory: from a chunk in use, or from the cache list. */
  ghost predicate HasRun(s: State, n: nat) {
    s.cached != [] || !NoRoom(s, n)
  }

  /** Room in a chunk is a free run of at least n pages, and the choice is the tightest one. */
  lemma RoomIsFreeRun(s: State, b: int, n: nat)
    requires Sound(s) && b in s.ring && 1 <= n <= PAGES
    ensures b in s.chunks && WellSized(s.chunks[b])
    ensures FoundIn(s, b, n) == 0 <==> forall p, e :: FreeRun(s.chunks[b].bits, p, e) ==> e - p < n
    ensures FoundIn(s, b, n) != 0 ==> exists e :: Tightest(s.chunks[b].bits, n, FoundIn(s, b, n), e)
  {
    SoundChunk(s, b);
    FindIsBestFit(s.chunks[b], s.owner[b], n);
  }

  lemma {:induction false} ScannedIs(s: State, i: nat, n: nat)
    requires Sound(s) && i <= |s.ring| && 1 <= n
    ensures var t := Scanned(s, i, n);
            && Sound(t) && t == s.(chunks := t.chunks)
            && t.chunks.Keys == s.chunks.Keys
            && (forall j :: i <= j < |s.ring| ==> s.ring[j] in s.chunks && t.chunks[s.ring[j]] == s.chunks[s.ring[j]])
    decreases i
  {
    SoundRing(s);
    assert forall j :: 0 <= j < |s.ring| ==> s.ring[j] in s.ring;
    if i > 0 {
      var t, b := Scanned(s, i - 1, n), s.ring[i - 1];
      ScannedIs(s, i - 1, n);
      SoundScan(t, b, n);
      assert t.owner[b := t.owner[b]] == t.owner;
      assert forall j :: i <= j < |s.ring| ==> s.ring[j] != b;
    }
  }

  /** The chunk at position i is still as it was when the search comes to it. */
  lemma ScannedNext(s: State, i: nat, n: nat)
    requires Sound(s) && i < |s.ring| && 1 <= n
    ensures var t, b := Scanned(s, i, n), s.ring[i];
            && Sound(t) && b in t.ring && b in t.chunks && b in t.owner && WellSized(t.chunks[b]) && 0 <= t.chunks[b].freeTail
            && FindIn(t.chunks[b], n).page == FoundIn(s, b, n)
            && ScanStep(t, b, n) == Scanned(s, i + 1, n)
  {
    ScannedIs(s, i, n);
    SoundChunk(Scanned(s, i, n), s.ring[i]);
    SoundChunk(s, s.ring[i]);
  }

  /** The run found can be taken. */
  lemma FoundFree(s: State, i: nat, n: nat)
    requires Sound(s) && i < |s.ring| && 1 <= n && FoundIn(s, s.ring[i], n) != 0
    ensures var t, b, page := Scanned(s, i + 1, n), s.ring[i], FoundIn(s, s.ring[i], n);
            && Sound(t) && t.ring == s.ring && b in t.chunks && b in t.owner && WellSized(t.chunks[b]) && |t.owner[b]| == PAGES
            && 1 <= page && page + n <= PAGES && AllClear(t.chunks[b].bits, page, page + n) && page <= t.chunks[b].freeTail
            && t.ring != [] && t.pending == s.pending && t.live == s.live && t.mem == s.mem
  {
    ScannedNext(s, i, n);
    ScannedIs(s, i, n);
    ScannedIs(s, i + 1, n);
    var t, b := Scanned(s, i, n), s.ring[i];
    SoundChunk(t, b);
    SoundChunk(Scanned(s, i + 1, n), b);
    FindKeeps(t.chunks[b], t.owner[b], n);
  }

  /** Searching changes no number of free pages. */
  lemma {:induction false} ScannedOccupied(s: State, i: nat, n: nat)
    requires Sound(s) && Occupied(s) && i <= |s.ring| && 1 <= n
    ensures Occupied(Scanned(s, i, n))
    decreases i
  {
    if i > 0 {
      var t, b := Scanned(s, i - 1, n), s.ring[i - 1];
      ScannedOccupied(s, i - 1, n);
      ScannedIs(s, i - 1, n);
      OccupiedStays(t, ScanStep(t, b, n), 0);
    }
  }

  // ---------- taking the run ----------

  /** A busy chunk moves to the front of the ring. */
  ghost function Fronted(s: State, steps: nat, b: int, n: nat): State
    requires s.ring != []
  {
    if steps > 2 && n < 8 then s.(ring := ToFront(s.ring, b)) else s
  }

  lemma FrontedIs(s: State, l: Ledger, steps: nat, b: int, n: nat)
    requires Sound(s) && b in s.ring && Balanced(s, l)
    ensures s.ring != []
    ensures var t := Fronted(s, steps, b, n);
            && Sound(t) && Balanced(t, l) && b in t.ring && t == s.(ring := t.ring) && t.ring != [] && t.ring[0] == s.ring[0]
  {
    SoundRing(s);
    SoundToFront(s, b);
    ToFrontIs(s.ring, b);
    BalancedQuiet(s, Fronted(s, steps, b, n), l);
  }

  lemma TakeBalanced(s: State, l: Ledger, b: int, page: nat, n: nat)
    requires Balanced(s, l) && b in s.chunks && b in s.owner && WellSized(s.chunks[b]) && |s.owner[b]| == PAGES
    requires page < PAGES && page + n <= PAGES
    ensures Balanced(TakeStep(s, b, page, n), l)
  {
    BalancedQuiet(s, TakeStep(s, b, page, n), l);
  }

  // ---------- a chunk that has just joined ----------

  /** The number of a new chunk: one more than that of the last chunk of the ring. */
  function NextNum(s: State): int
    requires s.ring != [] && s.ring[|s.ring| - 1] in s.chunks
  {
    s.chunks[s.ring[|s.ring| - 1]].num + 1
  }

  /** All pages of the chunk but the header page are free. */
  ghost predicate Fresh(s: State, b: int) {
    && b in s.chunks && b in s.owner && WellSized(s.chunks[b]) && |s.owner[b]| == PAGES && b in s.ring
    && AllClear(s.chunks[b].bits, FIRST_PAGE, PAGES) && s.chunks[b].freeTail == FIRST_PAGE
  }

  lemma JoinedFresh(s: State, b: int, c: Chunk, num: int, cached: seq<int>)
    requires Released(c)
    ensures Fresh(JoinStep(s, b, c, num, cached), b)
  {
    var t := JoinStep(s, b, c, num, cached);
    assert t.ring[|s.ring|] == b;
  }

  // ---------- searches, collections and the main chunk ----------

  /** A heap whose main chunk holds a block never loses it to a collection. */
  lemma LiveMainStays(s: State, a: int)
    requires Sound(s) && a in s.live && !s.live[a].Huge? && s.ring != [] && Base(a) == s.ring[0]
    ensures !ChunkIdle(s, s.ring[0])
  {
    SoundIs(s);
    assert BlockAt(s.chunks, s.owner, a, s.live[a]);
    var b := s.ring[0];
    var c, o := s.chunks[b], s.owner[b];
    assert Tiled(c, o);
    var p := o[Page(a)];
    assert o[p] == p && Header(c.info[p]);
    JoinAddress(a);
    if c.info[p].Srun? {
      assert SlotOf(a, RunAddress(b, p), c.info[p].bin);
    }
  }

  /** No small or large block that is handed out lies in the main chunk. */
  ghost predicate MainUnused(s: State) {
    s.ring != [] && forall a :: a in s.live && !s.live[a].Huge? ==> Base(a) != s.ring[0]
  }

  lemma IdleMainUnused(s: State)
    requires Sound(s) && s.ring != [] && ChunkIdle(s, s.ring[0])
    ensures MainUnused(s)
  {
    forall a | a in s.live && !s.live[a].Huge? && Base(a) == s.ring[0]
      ensures false
    {
      LiveMainStays(s, a);
    }
  }

  // ---------- found ----------

  /** The run at `page` of chunk b is free and can be taken. */
  ghost predicate CanTake(s: State, b: int, page: nat, n: nat) {
    && b in s.ring && b in s.chunks && b in s.owner && WellSized(s.chunks[b]) && |s.owner[b]| == PAGES
    && 1 <= page && 1 <= n && page + n <= PAGES
    && AllClear(s.chunks[b].bits, page, page + n) && page <= s.chunks[b].freeTail
  }

  /** Moving the chunk and marking the run as allocated. */
  ghost function FoundStep(s: State, steps: nat, b: int, page: nat, n: nat): State
    requires s.ring != [] && CanTake(s, b, page, n)
  {
    TakeStep(Fronted(s, steps, b, n), b, page, n)
  }

  /** The exact effect of a successful search: the chunks up to the first with room have been searched, and
      the best-fitting run of that chunk is taken. */
  ghost function PlaceStep(s: State, n: nat, i: nat): State
    requires Sound(s) && 1 <= n && FirstFit(s, n, i)
  {
    FoundFree(s, i, n);
    FoundStep(Scanned(s, i + 1, n), i, s.ring[i], FoundIn(s, s.ring[i], n), n)
  }

  lemma SoundFound(s: State, l: Ledger, steps: nat, b: int, page: nat, n: nat)
    requires Sound(s) && Balanced(s, l) && s.pending == 0 && s.ring != [] && CanTake(s, b, page, n)
    ensures var t := FoundStep(s, steps, b, page, n);
            && Sound(t) && Balanced(t, l) && t.live == s.live && t.mem == s.mem
            && t.pending == b + page * PAGE_SIZE && 0 < t.pending && t.pending !in t.live
            && LargeAt(t.chunks, t.owner, t.pending, n)
  {
    FrontedIs(s, l, steps, b, n);
    SoundTake(Fronted(s, steps, b, n), b, page, n);
    TakeBalanced(Fronted(s, steps, b, n), l, b, page, n);
  }

  /** With the run taken, the chunk is not empty. */
  lemma OccupiedFound(s: State, l: Ledger, steps: nat, b: int, page: nat, n: nat)
    requires Sound(s) && Balanced(s, l) && s.ring != [] && CanTake(s, b, page, n) && OccupiedBut(s, b)
    ensures Occupied(FoundStep(s, steps, b, page, n))
  {
    var t := Fronted(s, steps, b, n);
    var u := FoundStep(s, steps, b, page, n);
    FrontedIs(s, l, steps, b, n);
    SoundRing(s);
    ToFrontIs(s.ring, b);
    OccupiedRing(s, t.ring, b);
    SoundChunk(s, b);
    FreeAtMost(s.chunks[b], s.owner[b]);
    OccupiedIs(t, b);
    OccupiedIs(u, 0);
  }

  lemma OccupiedMore(s: State, but: int)
    requires Occupied(s) && 0 !in s.ring
    ensures OccupiedBut(s, but)
  {
    OccupiedIs(s, 0);
    OccupiedIs(s, but);
  }
}
