/** zend_mm_alloc_pages on the heap object. */
module PageAlloc {
  import opened Bitset
  import opened BestFit
  import opened Bins
  import opened Chunks
  import opened Blocks
  import opened HeapInv
  import opened HeapMem
  import opened HeapState
  import opened HeapChunks
  import opened HeapBooks
  import opened HeapObject
  import opened GcSteps
  import opened GcTotals
  import opened GcRun
  import opened PageSteps

  // ---------- the search ----------

  method ScanChunk(heap: Heap, b: int, n: nat) returns (page: nat)
    requires var s := heap.State();
             b in s.chunks && b in s.owner && WellSized(s.chunks[b]) && 0 <= s.chunks[b].freeTail
    modifies heap`chunks
    ensures page == FindIn(old(heap.State()).chunks[b], n).page
    ensures heap.State() == ScanStep(old(heap.State()), b, n) && heap.Books() == old(heap.Books())
  {
    var found := FindIn(heap.chunks[b], n);
    heap.chunks := heap.chunks[b := heap.chunks[b].(freeTail := found.tail)];
    page := found.page;
    assert heap.owner[b := heap.owner[b]] == heap.owner;
  }

  /** Search the chunk at position i of the ring. */
  method ScanAt(heap: Heap, i: nat, n: nat, ghost s: State) returns (page: nat)
    requires Sound(s) && 1 <= n && i < |s.ring| && heap.State() == Scanned(s, i, n)
    modifies heap`chunks
    ensures heap.Books() == old(heap.Books()) && heap.ring == s.ring
    ensures heap.State() == Scanned(s, i + 1, n)
    ensures page == FoundIn(s, s.ring[i], n)
  {
    ScannedIs(s, i, n);
    ScannedNext(s, i, n);
    page := ScanChunk(heap, heap.ring[i], n);
    ScannedIs(s, i + 1, n);
  }

  /** Search the chunks of the ring in order, main chunk first; i is where the search ended. */
  method FindRun(heap: Heap, n: nat) returns (i: nat, page: nat)
    requires Sound(heap.State()) && 1 <= n
    modifies heap`chunks
    ensures heap.Books() == old(heap.Books())
    ensures i < |old(heap.State()).ring|
    ensures heap.State() == Scanned(old(heap.State()), i + 1, n)
    ensures page == FoundIn(old(heap.State()), old(heap.State()).ring[i], n)
    ensures page != 0 ==> FirstFit(old(heap.State()), n, i)
    ensures page == 0 ==> NoRoom(old(heap.State()), n) && i + 1 == |old(heap.State()).ring|
  {
    ghost var s := heap.State();
    SoundRing(s);
    i := 0;
    page := ScanAt(heap, 0, n, s);
    while page == 0 && i + 1 < |heap.ring|
      invariant i < |s.ring| && heap.ring == s.ring && heap.Books() == old(heap.Books())
      invariant heap.State() == Scanned(s, i + 1, n)
      invariant page == FoundIn(s, s.ring[i], n)
      invariant Missed(s, n, i)
      decreases |s.ring| - i
    {
      i := i + 1;
      page := ScanAt(heap, i, n, s);
    }
  }

  // ---------- a new chunk ----------

  method CountChunk(heap: Heap)
    modifies heap`chunksCount, heap`peakChunks
    ensures heap.State() == old(heap.State())
    ensures heap.Books() == old(heap.Books()).(chunksCount := old(heap.Books()).chunksCount + 1)
    ensures heap.peakChunks == Max(old(heap.peakChunks), heap.chunksCount)
  {
    heap.chunksCount := heap.chunksCount + 1;
    if heap.chunksCount > heap.peakChunks {
      heap.peakChunks := heap.chunksCount;
    }
  }

  /** zend_mm_chunk_init: chunk b, whose memory is c, becomes the last of the ring. */
  method AppendChunk(heap: Heap, b: int, c: Chunk)
    requires WellSized(c) && heap.State().ring != [] && heap.State().ring[|heap.State().ring| - 1] in heap.State().chunks
    modifies heap`chunks, heap`ring, heap`owner
    ensures heap.State() == JoinStep(old(heap.State()), b, c, NextNum(old(heap.State())), old(heap.State()).cached)
    ensures heap.Books() == old(heap.Books())
  {
    var num := heap.chunks[heap.ring[|heap.ring| - 1]].num + 1;
    heap.chunks := heap.chunks[b := Init(c, num)];
    heap.owner := heap.owner[b := HeaderOnly()];
    heap.ring := heap.ring + [b];
  }

  method TakeFirstCached(heap: Heap) returns (b: int)
    requires heap.State().cached != []
    modifies heap`cached, heap`cachedCount
    ensures b == old(heap.State()).cached[0]
    ensures heap.State() == old(heap.State()).(cached := old(heap.State()).cached[1..])
    ensures heap.Books() == old(heap.Books()).(cachedCount := old(heap.Books()).cachedCount - 1)
  {
    heap.cachedCount := heap.cachedCount - 1;
    b := heap.cached[0];
    heap.cached := heap.cached[1..];
  }

  lemma LastInRing(s: State)
    requires Sound(s)
    ensures s.ring != [] && s.ring[|s.ring| - 1] in s.chunks
  {
    SoundRing(s);
    assert s.ring[|s.ring| - 1] in s.ring;
  }

  lemma CachedPlaces(s: State)
    requires Sound(s)
    ensures 0 !in s.cached
  {
    SoundIs(s);
  }

  method JoinCached(heap: Heap) returns (b: int)
    requires heap.Steady() && heap.State().cached != []
    modifies heap`cached, heap`cachedCount, heap`chunks, heap`ring, heap`owner, heap`chunksCount, heap`peakChunks
    ensures b != 0
    ensures Sound(heap.State()) && Balanced(heap.State(), heap.Books()) && Fresh(heap.State(), b)
    ensures Joined(old(heap.State()), heap.State(), b) && OccupiedBut(heap.State(), b)
    ensures heap.peakChunks == Max(old(heap.peakChunks), heap.chunksCount)
  {
    CachedPlaces(heap.State());
    ghost var s, l := heap.State(), heap.Books();
    LastInRing(s);
    CachedOutside(s);
    OccupiedJoin(s, s.cached[0], s.chunks[s.cached[0]], NextNum(s), s.cached[1..]);
    SoundJoinCached(s, NextNum(s));
    BalancedJoinCached(s, l, NextNum(s));
    JoinedFresh(s, s.cached[0], s.chunks[s.cached[0]], NextNum(s), s.cached[1..]);
    b := TakeFirstCached(heap);
    CountChunk(heap);
    AppendChunk(heap, b, heap.chunks[b]);
  }

  /** u is s with chunk b appended to the ring, numbered one higher than the last one. */
  ghost predicate Joined(s: State, u: State, b: int) {
    && s.ring != [] && b !in s.ring && u.ring == s.ring + [b] && u.live == s.live && u.mem == s.mem && u.pending == s.pending && u.free == s.free
    && s.ring[|s.ring| - 1] in s.chunks && b in u.chunks && u.chunks[b].num == s.chunks[s.ring[|s.ring| - 1]].num + 1
  }

  method CountMapped(heap: Heap)
    modifies heap`realSize, heap`realPeak
    ensures heap.State() == old(heap.State())
    ensures var l := old(heap.Books());
            heap.Books() == l.(realSize := l.realSize + CHUNK_SIZE, realPeak := Max(l.realPeak, l.realSize + CHUNK_SIZE))
  {
    var size := heap.realSize + CHUNK_SIZE;
    heap.realPeak := Max(heap.realPeak, size);
    heap.realSize := size;
  }

  lemma UnmappedOutside(s: State, b: int)
    requires Sound(s) && Unmapped(s, b, CHUNK_SIZE)
    ensures b !in s.ring && 0 !in s.ring
  {
    SoundRing(s);
    NoZeroChunk(s);
  }

  /** Chunk b has just been mapped; `l` are the books before that. */
  method JoinFresh(heap: Heap, b: int, ghost l: Ledger)
    requires Sound(heap.State()) && Balanced(heap.State(), l) && Vacant(l.mapped, b, CHUNK_SIZE) && Occupied(heap.State())
    requires heap.Books() == l.(mapped := l.mapped[b := CHUNK_SIZE])
    modifies heap`realSize, heap`realPeak, heap`chunks, heap`ring, heap`owner, heap`chunksCount, heap`peakChunks
    ensures Sound(heap.State()) && Balanced(heap.State(), heap.Books()) && Fresh(heap.State(), b)
    ensures Joined(old(heap.State()), heap.State(), b) && OccupiedBut(heap.State(), b)
    ensures heap.realSize == l.realSize + CHUNK_SIZE && heap.realPeak == Max(l.realPeak, heap.realSize)
    ensures heap.peakChunks == Max(old(heap.peakChunks), heap.chunksCount)
  {
    ghost var s := heap.State();
    LastInRing(s);
    VacantUnmapped(s, l, b, CHUNK_SIZE);
    SoundJoinFresh(s, b, NextNum(s));
    BalancedJoinFresh(s, l, b, NextNum(s));
    ZeroReleased();
    JoinedFresh(s, b, ZeroChunk(), NextNum(s), s.cached);
    UnmappedOutside(s, b);
    OccupiedJoin(s, b, ZeroChunk(), NextNum(s), s.cached);
    CountMapped(heap);
    CountChunk(heap);
    AppendChunk(heap, b, ZeroChunk());
  }

  /** What a new chunk costs the rest of the heap: at most one collection. */
  ghost predicate Grown(s: State, u: State, b: int) {
    exists v: State :: (v == s || (exists bytes: nat :: Collected(s, v, bytes))) && Joined(v, u, b)
  }

  /** zend_mm_gc, as its callers use it. */
  method Collect(heap: Heap) returns (bytes: nat)
    requires heap.Steady()
    modifies heap`ring, heap`cached, heap`chunks, heap`owner, heap`mapped, heap`lost, heap`freeSlot, heap`mem, heap`free
    modifies heap`chunksCount, heap`cachedCount, heap`realSize, heap`deleteBoundary, heap`deleteCount
    ensures heap.lost ==> MainUnused(old(heap.State()))
    ensures !heap.lost ==> heap.Steady() && Collected(old(heap.State()), heap.State(), bytes)
    ensures heap.realSize <= old(heap.realSize) && (!heap.lost && bytes == 0 ==> heap.realSize == old(heap.realSize))
    ensures heap.chunksCount <= old(heap.chunksCount)
  {
    ghost var s := heap.State();
    bytes := Gc(heap);
    if heap.lost {
      IdleMainUnused(s);
    }
  }

  /** The state v is s, or s after one collection that released something. */
  ghost predicate Later(s: State, v: State, collected: bool, bytes: nat) {
    if collected then Collected(s, v, bytes) && bytes > 0 else v == s
  }

  /** No free list has gained an element. */
  ghost predicate FewerFree(s: State, v: State) {
    |s.free| == |v.free| && forall bin :: 0 <= bin < |s.free| && s.free[bin] == [] ==> v.free[bin] == []
  }

  /** Blocks and their bytes are in v as they are in s. */
  ghost predicate SameUse(s: State, v: State) {
    FewerFree(s, v) && v.live == s.live && v.pending == s.pending && Untouched(s.live, s.mem, v.mem) && (MainUnused(v) ==> MainUnused(s))
  }

  lemma First(list: seq<int>) returns (a: int)
    requires list != []
    ensures a in list
  {
    a := list[0];
  }

  lemma CollectedFewer(s: State, v: State, bytes: int)
    requires Collected(s, v, bytes)
    ensures FewerFree(s, v)
  {
    forall bin: nat | bin < |s.free| && s.free[bin] == []
      ensures v.free[bin] == []
    {
      if v.free[bin] != [] {
        var a := First(v.free[bin]);
      }
    }
  }

  lemma LaterAgain(s: State, v: State, collected: bool, bytes: nat, u: State, more: nat)
    requires Later(s, v, collected, bytes) && Collected(v, u, more)
    ensures SameUse(s, u)
    ensures more > 0 ==> !collected && Collected(s, u, more)
  {
    LaterUse(s, v, collected, bytes);
    CollectedFewer(v, u, more);
  }

  lemma LaterUse(s: State, v: State, collected: bool, bytes: nat)
    requires Later(s, v, collected, bytes)
    ensures SameUse(s, v)
  {
    if collected {
      CollectedFewer(s, v, bytes);
    }
  }

  lemma GrownIs(s: State, v: State, u: State, b: int, collected: bool, bytes: nat)
    requires Later(s, v, collected, bytes) && Joined(v, u, b)
    ensures Grown(s, u, b) && SameUse(s, u)
  {
    LaterUse(s, v, collected, bytes);
  }

  /** zend_mm_chunk_alloc for a chunk, with one collection when the operating system refuses. `l` are the
      books before the chunk was mapped. */
  method MapChunk(heap: Heap, ghost s: State, ghost collected: bool, ghost bytes: nat)
    returns (b: int, ghost l: Ledger, ghost again: bool, ghost more: nat)
    requires heap.Steady() && Later(s, heap.State(), collected, bytes)
    modifies heap`ring, heap`cached, heap`chunks, heap`owner, heap`mapped, heap`lost, heap`freeSlot, heap`mem, heap`free
    modifies heap`chunksCount, heap`cachedCount, heap`realSize, heap`deleteBoundary, heap`deleteCount, heap`refusals
    ensures heap.realSize <= old(heap.realSize) && heap.chunksCount <= old(heap.chunksCount)
    ensures if b == 0 then heap.refusals > old(heap.refusals) else heap.refusals >= old(heap.refusals)
    ensures heap.lost ==> b == 0 && MainUnused(s)
    ensures !heap.lost ==> Sound(heap.State()) && SameUse(s, heap.State()) && Balanced(heap.State(), l) && Occupied(heap.State())
    ensures !heap.lost && b == 0 ==> heap.Books() == l
    ensures b != 0 ==> Later(s, heap.State(), again, more) && l.realSize == heap.realSize && l.realPeak == heap.realPeak
    ensures b != 0 ==> Vacant(l.mapped, b, CHUNK_SIZE) && heap.Books() == l.(mapped := l.mapped[b := CHUNK_SIZE])
  {
    l, again, more := heap.Books(), collected, bytes;
    ghost var v := heap.State();
    LaterUse(s, v, collected, bytes);
    b := heap.ChunkAlloc(CHUNK_SIZE);
    if b == 0 {
      var n := Collect(heap);
      if !heap.lost {
        l := heap.Books();
        LaterAgain(s, v, collected, bytes, heap.State(), n);
        if n > 0 {
          again, more := true, n;
          b := heap.ChunkAlloc(CHUNK_SIZE);
        }
      }
    }
  }

  /** The next cached chunk joins the ring. */
  method GetCached(heap: Heap, ghost s: State, ghost collected: bool, ghost bytes: nat) returns (b: int)
    requires heap.Steady() && heap.State().cached != [] && Later(s, heap.State(), collected, bytes)
    modifies heap`cached, heap`cachedCount, heap`chunks, heap`ring, heap`owner, heap`chunksCount, heap`peakChunks
    ensures b != 0 && Sound(heap.State()) && Balanced(heap.State(), heap.Books()) && SameUse(s, heap.State())
    ensures OccupiedBut(heap.State(), b) && Fresh(heap.State(), b) && Grown(s, heap.State(), b)
    ensures heap.peakChunks == Max(old(heap.peakChunks), heap.chunksCount)
  {
    ghost var v := heap.State();
    b := JoinCached(heap);
    GrownIs(s, v, heap.State(), b, collected, bytes);
  }

  /** A fresh chunk joins the ring, the limit having been checked. */
  method GetFresh(heap: Heap, ghost s: State, ghost collected: bool, ghost bytes: nat) returns (b: int)
    requires heap.Steady() && Later(s, heap.State(), collected, bytes)
    modifies heap`ring, heap`cached, heap`chunks, heap`owner, heap`mapped, heap`lost, heap`freeSlot, heap`mem, heap`free
    modifies heap`chunksCount, heap`cachedCount, heap`realSize, heap`deleteBoundary, heap`deleteCount
    modifies heap`realPeak, heap`peakChunks, heap`refusals
    ensures heap.lost ==> b == 0 && MainUnused(s)
    ensures !heap.lost ==> Sound(heap.State()) && Balanced(heap.State(), heap.Books()) && SameUse(s, heap.State())
    ensures !heap.lost ==> OccupiedBut(heap.State(), b)
    ensures b != 0 ==> Fresh(heap.State(), b) && Grown(s, heap.State(), b)
    ensures if b == 0 then heap.refusals > old(heap.refusals) else heap.refusals >= old(heap.refusals)
    ensures heap.realSize <= old(heap.realSize) + CHUNK_SIZE && heap.realPeak == Max(old(heap.realPeak), heap.realSize)
    ensures old(heap.chunksCount) <= old(heap.peakChunks) ==> heap.peakChunks == Max(old(heap.peakChunks), heap.chunksCount)
  {
    BooksStart(heap.State(), heap.Books());
    ghost var l, again, more;
    b, l, again, more := MapChunk(heap, s, collected, bytes);
    if b != 0 {
      ghost var v := heap.State();
      JoinFresh(heap, b, l);
      GrownIs(s, v, heap.State(), b, again, more);
    }
  }

  lemma BooksStart(s: State, l: Ledger)
    requires Balanced(s, l)
    ensures l.realSize <= l.realPeak && (l.due == 0 ==> 0 <= l.realSize)
  {
    BalancedIs(s, l);
  }

  /** One attempt at get_chunk: the next cached chunk, or a new one from the operating system when the memory limit
      allows; else a collection. `again`: the collection has released something. */
  method TryChunk(heap: Heap, ghost s: State, ghost collected: bool, ghost bytes: nat) returns (b: int, again: bool, ghost n: nat)
    requires heap.Steady() && Later(s, heap.State(), collected, bytes)
    modifies heap`ring, heap`cached, heap`chunks, heap`owner, heap`mapped, heap`lost, heap`freeSlot, heap`mem, heap`free
    modifies heap`chunksCount, heap`cachedCount, heap`realSize, heap`deleteBoundary, heap`deleteCount
    modifies heap`realPeak, heap`peakChunks, heap`refusals
    ensures again ==> b == 0 && heap.Steady() && !collected && Later(s, heap.State(), true, n)
    ensures again ==> heap.realSize <= old(heap.realSize) && heap.realPeak == old(heap.realPeak) && heap.refusals == old(heap.refusals)
    ensures again ==> heap.chunksCount <= old(heap.chunksCount) && heap.peakChunks == old(heap.peakChunks)
    ensures heap.lost ==> b == 0 && MainUnused(s)
    ensures !heap.lost ==> Sound(heap.State()) && Balanced(heap.State(), heap.Books()) && SameUse(s, heap.State())
    ensures !heap.lost ==> OccupiedBut(heap.State(), b)
    ensures b != 0 ==> Fresh(heap.State(), b) && Grown(s, heap.State(), b)
    ensures old(heap.State()).cached != [] ==> b != 0
    ensures heap.realPeak == Max(old(heap.realPeak), heap.realSize)
    ensures heap.realSize <= old(heap.realSize) ||
            (heap.realSize <= old(heap.realSize) + CHUNK_SIZE && CHUNK_SIZE <= (heap.limit - old(heap.realSize)) % WORD_VALUES)
    ensures old(heap.chunksCount) <= old(heap.peakChunks) ==> heap.peakChunks == Max(old(heap.peakChunks), heap.chunksCount)
    ensures b == 0 && !again && !heap.lost ==> heap.refusals > old(heap.refusals) || heap.Full()
    ensures heap.refusals >= old(heap.refusals)
  {
    ghost var v := heap.State();
    BooksStart(v, heap.Books());
    LaterUse(s, v, collected, bytes);
    b, again, n := 0, false, 0;
    if heap.cached != [] {
      b := GetCached(heap, s, collected, bytes);
    } else if CHUNK_SIZE > Minus(heap.limit, heap.realSize) {
      var more := Collect(heap);
      if !heap.lost {
        LaterAgain(s, v, collected, bytes, heap.State(), more);
        again, n := more > 0, more;
      }
    } else {
      b := GetFresh(heap, s, collected, bytes);
    }
  }

  /** get_chunk. It is tried again after a collection that has released something, and not a third time, for then
      nothing is left to collect. Address 0: no chunk, and the allocation fails; then either the operating system has refused, or the
      limit leaves no room after the collection. `checked` is what was mapped when the limit was last checked. */
  method GetChunk(heap: Heap) returns (b: int, ghost checked: int)
    requires heap.Steady()
    modifies heap`ring, heap`cached, heap`chunks, heap`owner, heap`mapped, heap`lost, heap`freeSlot, heap`mem, heap`free
    modifies heap`chunksCount, heap`cachedCount, heap`realSize, heap`deleteBoundary, heap`deleteCount
    modifies heap`realPeak, heap`peakChunks, heap`refusals
    ensures heap.lost ==> b == 0 && MainUnused(old(heap.State()))
    ensures !heap.lost ==> Sound(heap.State()) && Balanced(heap.State(), heap.Books()) && SameUse(old(heap.State()), heap.State())
    ensures !heap.lost ==> OccupiedBut(heap.State(), b)
    ensures b != 0 ==> Fresh(heap.State(), b) && Grown(old(heap.State()), heap.State(), b)
    ensures old(heap.State()).cached != [] ==> b != 0
    ensures heap.Accounts() && checked <= old(heap.realSize)
    ensures heap.realSize <= checked || (heap.realSize <= checked + CHUNK_SIZE && CHUNK_SIZE <= (heap.limit - checked) % WORD_VALUES)
    ensures b == 0 && !heap.lost ==> heap.refusals > old(heap.refusals) || heap.Full()
  {
    ghost var s := heap.State();
    BooksStart(s, heap.Books());
    checked := heap.realSize;
    var again;
    ghost var n;
    b, again, n := TryChunk(heap, s, false, 0);
    if again {
      BooksStart(heap.State(), heap.Books());
      checked := heap.realSize;
      b, again, n := TryChunk(heap, s, true, n);
    }
  }

  // ---------- zend_mm_alloc_pages ----------

  method MoveToFront(heap: Heap, b: int)
    requires heap.State().ring != []
    modifies heap`ring
    ensures heap.State() == old(heap.State()).(ring := ToFront(old(heap.State()).ring, b))
    ensures heap.Books() == old(heap.Books())
  {
    heap.ring := ToFront(heap.ring, b);
  }

  method TakePages(heap: Heap, b: int, page: nat, n: nat)
    requires var s := heap.State(); b in s.chunks && b in s.owner && WellSized(s.chunks[b]) && |s.owner[b]| == PAGES
    requires page < PAGES && page + n <= PAGES
    modifies heap`chunks, heap`owner, heap`pending
    ensures heap.State() == TakeStep(old(heap.State()), b, page, n) && heap.Books() == old(heap.Books())
  {
    heap.chunks := heap.chunks[b := Take(heap.chunks[b], page, n)];
    heap.owner := heap.owner[b := Own(heap.owner[b], page, n)];
    heap.pending := b + page * PAGE_SIZE;
  }

  /** From the label `found` on. */
  method TakeFound(heap: Heap, steps: nat, b: int, page: nat, n: nat) returns (p: int)
    requires Sound(heap.State()) && Balanced(heap.State(), heap.Books()) && heap.State().pending == 0 && !heap.lost
    requires heap.State().ring != [] && CanTake(heap.State(), b, page, n) && OccupiedBut(heap.State(), b)
    modifies heap`ring, heap`chunks, heap`owner, heap`pending
    ensures heap.State() == FoundStep(old(heap.State()), steps, b, page, n) && heap.Books() == old(heap.Books())
    ensures p == heap.State().pending != 0
    ensures Sound(heap.State()) && Balanced(heap.State(), heap.Books()) && Occupied(heap.State()) && p !in heap.State().live
    ensures LargeAt(heap.State().chunks, heap.State().owner, p, n)
    ensures heap.State().live == old(heap.State()).live && heap.State().mem == old(heap.State()).mem
  {
    SoundFound(heap.State(), heap.Books(), steps, b, page, n);
    OccupiedFound(heap.State(), heap.Books(), steps, b, page, n);
    FrontedIs(heap.State(), heap.Books(), steps, b, n);
    if steps > 2 && n < 8 {
      MoveToFront(heap, b);
    }
    TakePages(heap, b, page, n);
    p := b + page * PAGE_SIZE;
  }

  /** A chunk at b has joined the heap. */
  ghost predicate NewChunkAt(s: State, b: int) {
    exists u: State :: Grown(s, u, b)
  }

  /** The n pages at p are taken in u and not handed out yet; otherwise blocks are as in s. */
  ghost predicate Allotted(s: State, u: State, p: int, n: nat) {
    && u.live == s.live && Untouched(s.live, s.mem, u.mem) && u.pending == p && FewerFree(s, u)
    && (p != 0 ==> LargeAt(u.chunks, u.owner, p, n) && p !in u.live)
  }

  /** All chunks have been searched, and p is the first page past the header of a new one. */
  ghost predicate InNewChunk(s: State, p: int, n: nat) {
    NewChunkAt(Scanned(s, |s.ring|, n), p - FIRST_PAGE * PAGE_SIZE)
  }

  lemma FoundReady(s: State, t: State, l: Ledger, i: nat, n: nat)
    requires Sound(s) && s.pending == 0 && 1 <= n && FirstFit(s, n, i) && Balanced(s, l) && t == Scanned(s, i + 1, n)
    requires Occupied(s)
    ensures OccupiedBut(t, s.ring[i])
    ensures Sound(t) && Balanced(t, l) && t.pending == 0 && t.ring == s.ring && t.ring != [] && i < |t.ring|
    ensures CanTake(t, t.ring[i], FoundIn(s, s.ring[i], n), n)
    ensures t.live == s.live && t.mem == s.mem && t.free == s.free
    ensures PlaceStep(s, n, i) == FoundStep(t, i, t.ring[i], FoundIn(s, s.ring[i], n), n)
  {
    ScannedIs(s, i + 1, n);
    BalancedQuiet(s, t, l);
    FoundFree(s, i, n);
    ScannedOccupied(s, i + 1, n);
    NoZeroChunk(t);
    OccupiedMore(t, s.ring[i]);
  }

  /** Moving to the front keeps the order of the others. */
  lemma FrontedRing(s: State, i: nat)
    requires Sound(s) && i < |s.ring|
    ensures s.ring != [] && (i > 0 ==> ToFront(s.ring, s.ring[i]) == [s.ring[0], s.ring[i]] + s.ring[1..i] + s.ring[i + 1..])
  {
    SoundRing(s);
    if i > 0 {
      var rest := s.ring[1..];
      assert s.ring == [s.ring[0]] + rest && rest[i - 1] == s.ring[i];
      WithoutAt(rest, i - 1);
      assert rest[..i - 1] == s.ring[1..i] && rest[i..] == s.ring[i + 1..];
    }
  }

  /** The chunk at position i has room. */
  method AllocFound(heap: Heap, i: nat, page: nat, n: nat, ghost s: State) returns (p: int)
    requires Sound(s) && s.pending == 0 && 1 <= n && FirstFit(s, n, i) && page == FoundIn(s, s.ring[i], n)
    requires heap.State() == Scanned(s, i + 1, n) && Balanced(s, heap.Books()) && Occupied(s) && !heap.lost
    modifies heap`ring, heap`chunks, heap`owner, heap`pending
    ensures Sound(heap.State()) && Balanced(heap.State(), heap.Books()) && Allotted(s, heap.State(), p, n)
    ensures Occupied(heap.State())
    ensures p != 0 && heap.Books() == old(heap.Books()) && heap.State() == PlaceStep(s, n, i)
    ensures p == s.ring[i] + page * PAGE_SIZE && heap.Accounts()
    ensures heap.ring == if i > 2 && n < 8 then [s.ring[0], s.ring[i]] + s.ring[1..i] + s.ring[i + 1..] else s.ring
  {
    BooksStart(s, heap.Books());
    FrontedRing(s, i);
    FoundReady(s, heap.State(), heap.Books(), i, n);
    p := TakeFound(heap, i, heap.ring[i], page, n);
  }

  lemma NewRunAt(t: State, u: State, b: int)
    requires Grown(t, u, b)
    ensures NewChunkAt(t, b) && u.ring != [] && u.ring[|u.ring| - 1] == b && b != u.ring[0]
  {
  }

  lemma AllottedLater(t: State, u: State, v: State, p: int, n: nat)
    requires SameUse(t, u) && Allotted(u, v, p, n)
    ensures Allotted(t, v, p, n)
  {
  }

  lemma AllottedNone(t: State, u: State, n: nat)
    requires SameUse(t, u) && t.pending == 0
    ensures Allotted(t, u, 0, n)
  {
  }

  /** The first pages of the chunk that has just joined. */
  method TakeNew(heap: Heap, steps: nat, b: int, n: nat) returns (p: int)
    requires Sound(heap.State()) && Balanced(heap.State(), heap.Books()) && heap.State().pending == 0 && !heap.lost
    requires 1 <= n < PAGES && Fresh(heap.State(), b) && OccupiedBut(heap.State(), b)
    requires heap.ring != [] && heap.ring[|heap.ring| - 1] == b && b != heap.ring[0]
    modifies heap`ring, heap`chunks, heap`owner, heap`pending
    ensures Sound(heap.State()) && Balanced(heap.State(), heap.Books()) && Occupied(heap.State())
    ensures Allotted(old(heap.State()), heap.State(), p, n) && p == b + FIRST_PAGE * PAGE_SIZE != 0
    ensures |heap.ring| > 1 && heap.Books() == old(heap.Books())
    ensures if steps > 2 && n < 8 then heap.ring[1] == b else heap.ring == old(heap.ring)
  {
    p := TakeFound(heap, steps, b, FIRST_PAGE, n);
  }

  /** The chunk b has joined the heap t, and its first pages are taken. */
  method TakeGrown(heap: Heap, steps: nat, b: int, n: nat, ghost t: State) returns (p: int)
    requires Sound(heap.State()) && Balanced(heap.State(), heap.Books()) && t.pending == 0 && SameUse(t, heap.State()) && !heap.lost
    requires 1 <= n < PAGES && Fresh(heap.State(), b) && Grown(t, heap.State(), b) && OccupiedBut(heap.State(), b)
    modifies heap`ring, heap`chunks, heap`owner, heap`pending
    ensures Sound(heap.State()) && Balanced(heap.State(), heap.Books()) && Occupied(heap.State())
    ensures Allotted(t, heap.State(), p, n) && NewChunkAt(t, b) && p == b + FIRST_PAGE * PAGE_SIZE != 0
    ensures |heap.ring| > 1 && heap.ring[if steps > 2 && n < 8 then 1 else |heap.ring| - 1] == b
    ensures heap.Books() == old(heap.Books())
  {
    ghost var u := heap.State();
    NewRunAt(t, u, b);
    p := TakeNew(heap, steps, b, n);
    AllottedLater(t, u, heap.State(), p, n);
  }

  /** A run from a new chunk. */
  method AllocFromNew(heap: Heap, steps: nat, n: nat) returns (p: int)
    requires heap.Steady() && 1 <= n < PAGES
    modifies heap`ring, heap`cached, heap`chunks, heap`owner, heap`mapped, heap`lost, heap`freeSlot, heap`mem, heap`free
    modifies heap`chunksCount, heap`cachedCount, heap`realSize, heap`deleteBoundary, heap`deleteCount
    modifies heap`realPeak, heap`peakChunks, heap`pending, heap`refusals
    ensures heap.lost ==> p == 0 && MainUnused(old(heap.State()))
    ensures !heap.lost ==> Sound(heap.State()) && Balanced(heap.State(), heap.Books()) && Occupied(heap.State())
    ensures !heap.lost ==> Allotted(old(heap.State()), heap.State(), p, n)
    ensures p != 0 ==> NewChunkAt(old(heap.State()), p - FIRST_PAGE * PAGE_SIZE)
    ensures p != 0 ==> |heap.ring| > 1 && heap.ring[if steps > 2 && n < 8 then 1 else |heap.ring| - 1] == p - FIRST_PAGE * PAGE_SIZE
    ensures old(heap.State()).cached != [] ==> p != 0
    ensures heap.Accounts()
    ensures p == 0 && !heap.lost ==> heap.refusals > old(heap.refusals) || heap.Full()
  {
    ghost var t := heap.State();
    p := 0;
    var b;
    ghost var checked;
    b, checked := GetChunk(heap);
    if b != 0 {
      p := TakeGrown(heap, steps, b, n, t);
    } else if !heap.lost {
      AllottedNone(t, heap.State(), n);
    }
  }

  lemma SearchedReady(s: State, t: State, l: Ledger, n: nat)
    requires Sound(s) && Occupied(s) && Balanced(s, l) && 1 <= n && t == Scanned(s, |s.ring|, n)
    ensures Sound(t) && Occupied(t) && Balanced(t, l) && t == s.(chunks := t.chunks)
  {
    ScannedIs(s, |s.ring|, n);
    BalancedQuiet(s, t, l);
    ScannedOccupied(s, |s.ring|, n);
  }

  /** No chunk has room: the run is taken from a new chunk. */
  method AllocInNew(heap: Heap, i: nat, n: nat, ghost s: State) returns (p: int)
    requires Sound(s) && s.pending == 0 && 1 <= n < PAGES && NoRoom(s, n) && i + 1 == |s.ring|
    requires heap.State() == Scanned(s, i + 1, n) && Balanced(s, heap.Books()) && Occupied(s) && !heap.lost
    modifies heap`ring, heap`cached, heap`chunks, heap`owner, heap`mapped, heap`lost, heap`freeSlot, heap`mem, heap`free
    modifies heap`chunksCount, heap`cachedCount, heap`realSize, heap`deleteBoundary, heap`deleteCount
    modifies heap`realPeak, heap`peakChunks, heap`pending, heap`refusals
    ensures heap.lost ==> p == 0 && MainUnused(s)
    ensures !heap.lost ==> Sound(heap.State()) && Balanced(heap.State(), heap.Books()) && Occupied(heap.State())
    ensures !heap.lost ==> Allotted(s, heap.State(), p, n)
    ensures p != 0 ==> InNewChunk(s, p, n)
    ensures p != 0 ==> |heap.ring| > 1 && heap.ring[if i > 2 && n < 8 then 1 else |heap.ring| - 1] == p - FIRST_PAGE * PAGE_SIZE
    ensures s.cached != [] ==> p != 0
    ensures heap.Accounts()
    ensures p == 0 && !heap.lost ==> heap.refusals > old(heap.refusals) || heap.Full()
  {
    SearchedReady(s, heap.State(), heap.Books(), n);
    p := AllocFromNew(heap, i, n);
  }

  /** Take a run of n pages: the tightest one of the first chunk with room (at position `at` of the ring), or
      the first pages of a new chunk. The run is then pending; address 0 reports failure. */
  method AllocPages(heap: Heap, n: nat) returns (p: int, ghost at: nat)
    requires heap.Steady() && 1 <= n < PAGES
    modifies heap`ring, heap`cached, heap`chunks, heap`owner, heap`mapped, heap`lost, heap`freeSlot, heap`mem, heap`free
    modifies heap`chunksCount, heap`cachedCount, heap`realSize, heap`deleteBoundary, heap`deleteCount
    modifies heap`realPeak, heap`peakChunks, heap`pending, heap`refusals
    ensures heap.lost ==> p == 0 && MainUnused(old(heap.State()))
    ensures !heap.lost ==> Sound(heap.State()) && Balanced(heap.State(), heap.Books()) && Occupied(heap.State())
    ensures !heap.lost ==> Allotted(old(heap.State()), heap.State(), p, n)
    ensures FirstFit(old(heap.State()), n, at) || NoRoom(old(heap.State()), n)
    ensures FirstFit(old(heap.State()), n, at) ==>
              p != 0 && heap.Books() == old(heap.Books()) && heap.State() == PlaceStep(old(heap.State()), n, at)
    ensures var r := old(heap.ring);
            FirstFit(old(heap.State()), n, at) ==>
              && p == r[at] + FoundIn(old(heap.State()), r[at], n) * PAGE_SIZE
              && heap.ring == if at > 2 && n < 8 then [r[0], r[at]] + r[1..at] + r[at + 1..] else r
    ensures p != 0 && NoRoom(old(heap.State()), n) ==>
              && InNewChunk(old(heap.State()), p, n) && |heap.ring| > 1
              && heap.ring[if at > 2 && n < 8 then 1 else |heap.ring| - 1] == p - FIRST_PAGE * PAGE_SIZE
    ensures HasRun(old(heap.State()), n) ==> p != 0
    ensures heap.Accounts()
    ensures p == 0 && !heap.lost ==> heap.refusals > old(heap.refusals) || heap.Full()
  {
    ghost var s := heap.State();
    var i, page := FindRun(heap, n);
    at := i;
    if page != 0 {
      p := AllocFound(heap, i, page, n, s);
    } else {
      p := AllocInNew(heap, i, n, s);
    }
  }
}
