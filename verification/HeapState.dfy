/** The heap as one value, the invariant `Sound` on it, and the elementary steps that keep it. */
module HeapState {
  import opened Bitset
  import opened BestFit
  import opened Bins
  import opened Chunks
  import opened Blocks
  import opened BlockChanges
  import opened HeapInv
  import opened HeapMem
  import opened HeapSteps

  /** chunks: every mapped chunk by base address. ring: the chunks in use, main chunk first. cached: the
      cache list. heads and mem: free-list heads and memory. free, live, owner and pending describe what
      these mean: the free slots of each class in list order, the blocks handed out, the run owning each
      page, and a run taken but not handed out yet (0: none). */
  datatype State = State(
    chunks: ChunkMap,
    ring: seq<int>,
    cached: seq<int>,
    heads: seq<int>,
    mem: Memory,
    owner: Owners,
    free: Lists,
    live: Live,
    pending: int)

  /** A chunk that may be reused: nothing allocated past the header page, no run header left. */
  ghost predicate Released(c: Chunk) {
    && WellSized(c)
    && AllClear(c.bits, FIRST_PAGE, PAGES)
    && forall k :: 1 <= k < PAGES ==> !Header(c.info[k])
  }

  ghost predicate RingOk(s: State) {
    && s.ring != [] && NoDup(s.ring) && NoDup(s.cached)
    && (forall b :: b in s.ring <==> b in s.owner)
    && (forall b :: b in s.chunks <==> b in s.ring || b in s.cached)
    && (forall b :: b in s.cached ==> b !in s.ring && b in s.chunks && 0 < b && b % CHUNK_SIZE == 0 && Released(s.chunks[b]))
  }

  /** Between collections every free counter is zero. */
  ghost predicate CountersZero(chunks: ChunkMap) {
    forall b :: b in chunks ==> NoCounts(chunks[b])
  }

  ghost predicate NoCounts(c: Chunk) {
    forall p :: 0 <= p < |c.info| && c.info[p].Srun? ==> c.info[p].counter == 0
  }

  ghost predicate SoundNow(s: State) {
    && Mapped(s.chunks, s.owner)
    && RingOk(s)
    && CountersZero(s.chunks)
    && BlocksOk(s.chunks, s.owner, s.free, s.live, s.pending)
    && Links(s.mem, s.heads, s.free)
    && Regions(s.chunks, s.live)
  }

  /** SoundNow behind k trivial steps, so that the heap's methods carry it as one fact. */
  ghost predicate SoundBehind(s: State, k: nat)
    decreases k
  {
    if k == 0 then SoundNow(s) else SoundBehind(s, k - 1)
  }

  ghost predicate Sound(s: State) {
    SoundBehind(s, |s.ring| + 3)
  }

  lemma {:induction false} Behind(s: State, k: nat)
    ensures SoundBehind(s, k) == SoundNow(s)
    decreases k
  {
    if k > 0 {
      Behind(s, k - 1);
    }
  }

  lemma SoundIs(s: State)
    ensures Sound(s) == SoundNow(s)
  {
    Behind(s, |s.ring| + 3);
  }

  /** The invariant, part by part. */
  lemma SoundFrom(r: State)
    requires Mapped(r.chunks, r.owner)
    requires RingOk(r)
    requires CountersZero(r.chunks)
    requires BlocksOk(r.chunks, r.owner, r.free, r.live, r.pending)
    requires Links(r.mem, r.heads, r.free)
    requires Regions(r.chunks, r.live)
    ensures Sound(r)
  {
    SoundIs(r);
  }

  // ---------- small blocks ----------

  function PopStep(s: State, bin: nat): State
    requires bin < |s.heads| && bin < |s.free| && s.free[bin] != []
  {
    s.(heads := s.heads[bin := Load(s.mem, s.heads[bin])],
       free := s.free[bin := s.free[bin][1..]],
       live := s.live[s.heads[bin] := Small(bin)])
  }

  lemma SoundPop(s: State, bin: nat)
    requires Sound(s) && s.pending == 0 && bin < BINS
    ensures |s.heads| == |s.free| == BINS && (s.heads[bin] == 0 <==> s.free[bin] == [])
    ensures s.heads[bin] != 0 ==>
              && Sound(PopStep(s, bin)) && 0 < s.heads[bin] == s.free[bin][0] && s.heads[bin] !in s.live
              && SlotAt(s.chunks, s.owner, s.heads[bin], bin)
  {
    SoundIs(s);
    assert Chained(s.mem, s.heads[bin], s.free[bin]);
    if s.free[bin] != [] {
      var a := s.free[bin][0];
      assert a in s.free[bin];
      PopLinks(s.mem, s.heads, s.free, bin);
      Pop(s.chunks, s.owner, s.free, s.live, bin);
      SlotNotZero(s.chunks, s.owner, a, Small(bin));
      SoundFrom(PopStep(s, bin));
    }
  }

  function PushStep(s: State, a: int, bin: nat): State
    requires bin < |s.heads| && bin < |s.free|
  {
    s.(heads := s.heads[bin := a],
       mem := StorePtr(s.mem, a, s.heads[bin]),
       free := s.free[bin := [a] + s.free[bin]],
       live := s.live - {a})
  }

  lemma SoundPush(s: State, a: int)
    requires Sound(s) && s.pending == 0 && a in s.live && s.live[a].Small?
    ensures var bin := s.live[a].bin;
            && |s.heads| == |s.free| == BINS && bin < BINS
            && Sound(PushStep(s, a, bin))
            && Untouched(s.live - {a}, s.mem, PushStep(s, a, bin).mem)
  {
    SoundIs(s);
    var bin := s.live[a].bin;
    assert BlockAt(s.chunks, s.owner, a, s.live[a]);
    SlotNotZero(s.chunks, s.owner, a, s.live[a]);
    Push(s.chunks, s.owner, s.free, s.live, a);
    SlotAway(s.chunks, s.owner, s.free, s.live, a, bin);
    PushLinks(s.mem, s.heads, s.free, bin, a);
    LinkWriteUntouched(s.chunks, s.owner, s.live - {a}, a, bin, s.mem, s.heads[bin]);
    SoundFrom(PushStep(s, a, bin));
  }

  // ---------- runs of pages ----------

  /** The chunk at base b is c now, and its pages are owned as o says. */
  function SetChunk(s: State, b: int, c: Chunk, o: seq<int>): State {
    s.(chunks := s.chunks[b := c], owner := s.owner[b := o])
  }

  lemma SoundChunk(s: State, b: int)
    requires Sound(s) && b in s.ring
    ensures b in s.chunks && b in s.owner && Tiled(s.chunks[b], s.owner[b]) && 0 < b && b % CHUNK_SIZE == 0
  {
    SoundIs(s);
  }

  lemma SoundRing(s: State)
    requires Sound(s)
    ensures s.ring != [] && NoDup(s.ring) && NoDup(s.cached) && |s.heads| == |s.free| == BINS
    ensures forall b :: b in s.ring || b in s.cached <==> b in s.chunks
    ensures forall b :: b in s.cached ==> b !in s.ring && WellSized(s.chunks[b])
  {
    SoundIs(s);
  }

  /** A chunk operation that keeps the blocks keeps the heap. */
  lemma SoundSame(s: State, b: int, c: Chunk, o: seq<int>)
    requires Sound(s) && b in s.ring && Tiled(c, o)
    requires b in s.chunks && b in s.owner && WellSized(s.chunks[b]) && |s.owner[b]| == PAGES
    requires SameSlots(s.chunks[b], s.owner[b], c, o) && SameLarge(s.chunks[b], s.owner[b], c, o)
    requires NoCounts(c)
    ensures Sound(SetChunk(s, b, c, o))
  {
    SoundIs(s);
    LiftSame(s.chunks, s.owner, b, c, o);
    var r := SetChunk(s, b, c, o);
    SameBlocksOk(s.chunks, s.owner, r.chunks, r.owner, s.free, s.live, s.pending);
    SoundFrom(r);
  }

  /** Searching a chunk only brings its free_tail up to date. */
  lemma SoundScan(s: State, b: int, n: nat)
    requires Sound(s) && b in s.ring && 1 <= n
    ensures b in s.chunks && b in s.owner && WellSized(s.chunks[b]) && 0 <= s.chunks[b].freeTail
    ensures Sound(SetChunk(s, b, s.chunks[b].(freeTail := FindIn(s.chunks[b], n).tail), s.owner[b]))
  {
    SoundChunk(s, b);
    var c, o := s.chunks[b], s.owner[b];
    FindKeeps(c, o, n);
    ChunkCounters(s, b);
    SoundSame(s, b, c.(freeTail := FindIn(c, n).tail), o);
  }

  lemma ChunkCounters(s: State, b: int)
    requires Sound(s) && b in s.ring
    ensures b in s.chunks && WellSized(s.chunks[b])
    ensures NoCounts(s.chunks[b])
  {
    SoundIs(s);
  }

  function TakeStep(s: State, b: int, page: nat, n: nat): State
    requires b in s.chunks && b in s.owner && WellSized(s.chunks[b]) && |s.owner[b]| == PAGES
    requires page < PAGES && page + n <= PAGES
  {
    SetChunk(s, b, Take(s.chunks[b], page, n), Own(s.owner[b], page, n)).(pending := b + page * PAGE_SIZE)
  }

  /** Replacing one chunk in use leaves the ring, the cache and the huge blocks alone. */
  lemma FrameStays(s: State, b: int, c: Chunk, o: seq<int>)
    requires RingOk(s) && CountersZero(s.chunks) && Regions(s.chunks, s.live) && b in s.ring && NoCounts(c)
    ensures RingOk(SetChunk(s, b, c, o)) && CountersZero(s.chunks[b := c]) && Regions(s.chunks[b := c], s.live)
  {
  }

  /** A page-map entry that is not a small run adds no counter. */
  lemma InfoStays(c: Chunk, page: nat, r: Chunk)
    requires NoCounts(c) && WellSized(c) && page < PAGES && WellSized(r)
    requires !r.info[page].Srun? && r.info == c.info[page := r.info[page]]
    ensures NoCounts(r)
  {
    forall p | 0 <= p < |r.info| && r.info[p].Srun?
      ensures r.info[p].counter == 0
    {
      assert r.info[p] == c.info[p];
    }
  }

  lemma TakePages(chunks: ChunkMap, owner: Owners, b: int, page: nat, n: nat)
    requires Mapped(chunks, owner) && b in owner && 1 <= page && 1 <= n && page + n <= PAGES
    requires AllClear(chunks[b].bits, page, page + n) && page <= chunks[b].freeTail
    ensures var p := b + page * PAGE_SIZE;
            var chunks', owner' := chunks[b := Take(chunks[b], page, n)], owner[b := Own(owner[b], page, n)];
            && Mapped(chunks', owner') && SameSlotsAt(chunks, owner, chunks', owner')
            && LargeNow(chunks, owner, chunks', owner', p, n)
            && 0 < p && Offset(p) != 0
            && (forall m: nat :: !LargeAt(chunks, owner, p, m)) && (forall bin: nat :: !SlotAt(chunks, owner, p, bin))
  {
    TakeTiled(chunks[b], owner[b], page, n);
    LiftLarge(chunks, owner, b, Take(chunks[b], page, n), page, 0, n);
    SplitAddress(b, page * PAGE_SIZE);
  }

  /** Taking a free run, as far as pages and blocks are concerned. */
  lemma TakeBlocks(chunks: ChunkMap, owner: Owners, free: Lists, live: Live, b: int, page: nat, n: nat)
    requires Mapped(chunks, owner) && BlocksOk(chunks, owner, free, live, 0) && b in owner
    requires 1 <= page && 1 <= n && page + n <= PAGES
    requires AllClear(chunks[b].bits, page, page + n) && page <= chunks[b].freeTail
    ensures var p := b + page * PAGE_SIZE;
            var chunks', owner' := chunks[b := Take(chunks[b], page, n)], owner[b := Own(owner[b], page, n)];
            && Mapped(chunks', owner') && BlocksOk(chunks', owner', free, live, p)
            && LargeAt(chunks', owner', p, n) && 0 < p
  {
    var p := b + page * PAGE_SIZE;
    TakePages(chunks, owner, b, page, n);
    TakeRun(chunks, owner, chunks[b := Take(chunks[b], page, n)], owner[b := Own(owner[b], page, n)], free, live, p, n);
  }

  /** A free run can be taken; it is then pending. */
  lemma SoundTake(s: State, b: int, page: nat, n: nat)
    requires Sound(s) && s.pending == 0 && b in s.ring && b in s.chunks && b in s.owner && WellSized(s.chunks[b])
    requires |s.owner[b]| == PAGES && 1 <= page && 1 <= n && page + n <= PAGES
    requires AllClear(s.chunks[b].bits, page, page + n) && page <= s.chunks[b].freeTail
    ensures var r := TakeStep(s, b, page, n);
            && Sound(r) && r.pending !in r.live && 0 < r.pending
            && LargeAt(r.chunks, r.owner, r.pending, n)
  {
    SoundIs(s);
    TakeBlocks(s.chunks, s.owner, s.free, s.live, b, page, n);
    InfoStays(s.chunks[b], page, Take(s.chunks[b], page, n));
    FrameStays(s, b, Take(s.chunks[b], page, n), Own(s.owner[b], page, n));
    SoundFrom(TakeStep(s, b, page, n));
  }

  function HandOutStep(s: State, n: nat): State {
    s.(live := s.live[s.pending := Large(n)], pending := 0)
  }

  /** The pending run becomes a large block. */
  lemma SoundHandOut(s: State, n: nat)
    requires Sound(s) && 0 < s.pending && LargeAt(s.chunks, s.owner, s.pending, n)
    ensures Sound(HandOutStep(s, n))
  {
    SoundIs(s);
    HandOut(s.chunks, s.owner, s.free, s.live, s.pending, n);
    SoundFrom(HandOutStep(s, n));
  }

  // ---------- runs of small blocks ----------

  function NewRunStep(s: State, bin: nat, mem: Memory): State
    requires Base(s.pending) in s.chunks && WellSized(s.chunks[Base(s.pending)])
    requires bin < |s.heads| && bin < |s.free|
  {
    var b := Base(s.pending);
    s.(chunks := s.chunks[b := MakeSmall(s.chunks[b], Page(s.pending), bin)],
       heads := s.heads[bin := Head(SlotList(s.pending, bin, 1))],
       mem := mem,
       free := s.free[bin := SlotList(s.pending, bin, 1)],
       live := s.live[s.pending := Small(bin)],
       pending := 0)
  }

  lemma PendingPage(s: State, n: nat)
    requires Mapped(s.chunks, s.owner) && LargeAt(s.chunks, s.owner, s.pending, n)
    ensures var b, page := Base(s.pending), Page(s.pending);
            && b in s.owner && b in s.chunks && WellSized(s.chunks[b]) && |s.owner[b]| == PAGES
            && 1 <= page && s.chunks[b].info[page] == Lrun(n)
            && s.pending == b + page * PAGE_SIZE
  {
    JoinAddress(s.pending);
  }

  /** The pending run becomes a run of small blocks. `mem` is memory after the links of its free slots have
      been written: their list is chained, and nothing outside the new run has changed. */
  lemma SoundNewRun(s: State, bin: nat, mem: Memory)
    requires Sound(s) && 0 < s.pending && bin < BINS && LargeAt(s.chunks, s.owner, s.pending, BinPages(bin))
    requires |s.heads| == |s.free| == BINS && s.free[bin] == []
    requires Chained(mem, Head(SlotList(s.pending, bin, 1)), SlotList(s.pending, bin, 1))
    requires forall x :: !(s.pending <= x < s.pending + BinPages(bin) * PAGE_SIZE) ==> Load(mem, x) == Load(s.mem, x)
    requires Base(s.pending) in s.chunks && WellSized(s.chunks[Base(s.pending)])
    ensures Sound(NewRunStep(s, bin, mem)) && Untouched(s.live, s.mem, mem) && s.pending !in s.live
  {
    SoundIs(s);
    PendingPage(s, BinPages(bin));
    var b, page := Base(s.pending), Page(s.pending);
    var r := NewRunStep(s, bin, mem);
    LiftMakeSmall(s.chunks, s.owner, b, page, bin);
    NewSmallRun(s.chunks, r.chunks, s.owner, s.free, s.live, s.pending, bin);
    RunOutside(s, BinPages(bin), mem, bin);
    MadeSmallCounts(s.chunks[b], page, bin);
    FrameStays(s, b, MakeSmall(s.chunks[b], page, bin), s.owner[b]);
    assert s.owner[b := s.owner[b]] == s.owner;
    SmallRegions(r.chunks, s.live, s.pending, Small(bin));
    SoundFrom(r);
  }

  lemma MadeSmallCounts(c: Chunk, page: nat, bin: nat)
    requires NoCounts(c) && WellSized(c) && page < PAGES
    ensures NoCounts(MakeSmall(c, page, bin))
  {
  }

  lemma SmallRegions(chunks: ChunkMap, live: Live, a: int, k: Kind)
    requires Regions(chunks, live) && !k.Huge?
    ensures Regions(chunks, live[a := k])
  {
  }

  /** Writes inside the pending run touch no live block and no link. */
  lemma RunOutside(s: State, n: nat, mem: Memory, bin: nat)
    requires SoundNow(s) && 0 < s.pending && LargeAt(s.chunks, s.owner, s.pending, n)
    requires forall x :: !(s.pending <= x < s.pending + n * PAGE_SIZE) ==> Load(mem, x) == Load(s.mem, x)
    ensures Untouched(s.live, s.mem, mem)
    ensures forall c :: 0 <= c < BINS ==> Chained(mem, s.heads[c], s.free[c])
  {
    var run := Large(n);
    forall a, x | a in s.live && a <= x < a + Usable(s.live[a])
      ensures Load(mem, x) == Load(s.mem, x)
    {
      assert BlockAt(s.chunks, s.owner, a, s.live[a]);
      if s.pending <= x < s.pending + n * PAGE_SIZE {
        BlockInChunk(s.chunks, s.owner, s.pending, run, x);
        if !s.live[a].Huge? {
          BlocksApart(s.chunks, s.owner, s.pending, run, a, s.live[a], x);
        }
      }
    }
    forall c | 0 <= c < BINS
      ensures Chained(mem, s.heads[c], s.free[c])
    {
      assert Chained(s.mem, s.heads[c], s.free[c]);
      forall i | 0 <= i < |s.free[c]|
        ensures Load(mem, s.free[c][i]) == Load(s.mem, s.free[c][i])
      {
        var f := s.free[c][i];
        assert f in s.free[c] && SlotAt(s.chunks, s.owner, f, c);
        BinFacts(c);
        if s.pending <= f < s.pending + n * PAGE_SIZE {
          BlocksApart(s.chunks, s.owner, s.pending, run, f, Small(c), f);
        }
      }
    }
  }

  // ---------- freeing and resizing large blocks ----------

  function ResizeStep(s: State, a: int, c: Chunk, to: nat): State
    requires Base(a) in s.owner && |s.owner[Base(a)]| == PAGES && Page(a) + to <= PAGES
  {
    var b := Base(a);
    SetChunk(s, b, c, Own(s.owner[b], Page(a), to)).(live := if to == 0 then s.live - {a} else s.live[a := Large(to)])
  }

  /** Where a large block is. */
  lemma LargePlace(s: State, a: int)
    requires Sound(s) && a in s.live && s.live[a].Large?
    ensures var b, page := Base(a), Page(a);
            && b in s.ring && b in s.chunks && b in s.owner && Tiled(s.chunks[b], s.owner[b])
            && 1 <= page && s.owner[b][page] == page && s.chunks[b].info[page] == Lrun(s.live[a].pages)
            && 1 <= s.live[a].pages && page + s.live[a].pages <= PAGES
            && a == b + page * PAGE_SIZE && Offset(a) % PAGE_SIZE == 0 && 0 < Offset(a)
            && LargeAt(s.chunks, s.owner, a, s.live[a].pages) && 0 < a
  {
    SoundIs(s);
    assert BlockAt(s.chunks, s.owner, a, s.live[a]);
    JoinAddress(a);
    assert RunPages(s.chunks[Base(a)].info[Page(a)]) == s.live[a].pages;
  }

  lemma SoundResize(s: State, a: int, c: Chunk, to: nat)
    requires Sound(s) && s.pending == 0 && a in s.live && s.live[a].Large?
    requires Base(a) in s.owner && Base(a) in s.chunks && Page(a) + to <= PAGES
    requires Resized(s.chunks[Base(a)], s.owner[Base(a)], c, Page(a), s.live[a].pages, to)
    requires Tiled(c, Own(s.owner[Base(a)], Page(a), to))
    ensures Sound(ResizeStep(s, a, c, to))
  {
    SoundIs(s);
    LargePlace(s, a);
    var b, page, n := Base(a), Page(a), s.live[a].pages;
    var r := ResizeStep(s, a, c, to);
    LiftLarge(s.chunks, s.owner, b, c, page, n, to);
    ResizeRun(s.chunks, s.owner, r.chunks, r.owner, s.free, s.live, a, n, to);
    InfoStays(s.chunks[b], page, c);
    FrameStays(s, b, c, Own(s.owner[b], page, to));
    LessRegions(r.chunks, s.live, r.live);
    assert Mapped(r.chunks, r.owner);
    assert BlocksOk(r.chunks, r.owner, r.free, r.live, r.pending);
    assert RingOk(r);
    SoundFrom(r);
  }

  lemma LessRegions(chunks: ChunkMap, live: Live, less: Live)
    requires Regions(chunks, live)
    requires forall a :: a in less && less[a].Huge? ==> a in live && live[a] == less[a]
    ensures Regions(chunks, less)
  {
  }
}
