/** Chunks joining, leaving and moving in the ring and the cache list. */
module HeapChunks {
  import opened Bitset
  import opened Bins
  import opened Chunks
  import opened Blocks
  import opened HeapInv
  import opened HeapMem
  import opened HeapSteps
  import opened HeapState

  /** s without its element b. */
  function Without(s: seq<int>, b: int): (r: seq<int>)
    ensures |r| <= |s|
  {
    if s == [] then [] else if s[0] == b then s[1..] else [s[0]] + Without(s[1..], b)
  }

  lemma ConsNoDup(x: int, s: seq<int>)
    requires NoDup(s) && x !in s
    ensures NoDup([x] + s)
    ensures forall y :: y in [x] + s <==> y == x || y in s
  {
  }

  lemma {:induction false} WithoutIs(s: seq<int>, b: int)
    requires NoDup(s) && b in s
    ensures NoDup(Without(s, b)) && |Without(s, b)| == |s| - 1
    ensures forall x :: x in Without(s, b) <==> x in s && x != b
    ensures s[0] != b ==> Without(s, b) != [] && Without(s, b)[0] == s[0]
  {
    assert s == [s[0]] + s[1..];
    if s[0] != b {
      WithoutIs(s[1..], b);
      ConsNoDup(s[0], Without(s[1..], b));
    }
  }

  lemma AppendNoDup(s: seq<int>, b: int)
    requires NoDup(s) && b !in s
    ensures NoDup(s + [b])
    ensures forall x :: x in s + [b] <==> x in s || x == b
  {
  }

  /** zend_mm_alloc_pages moves a chunk right behind the main chunk. */
  function ToFront(ring: seq<int>, b: int): seq<int>
    requires ring != []
  {
    if ring[0] == b then ring else [ring[0], b] + Without(ring[1..], b)
  }

  lemma ToFrontIs(ring: seq<int>, b: int)
    requires NoDup(ring) && b in ring
    ensures NoDup(ToFront(ring, b)) && |ToFront(ring, b)| == |ring| && ToFront(ring, b)[0] == ring[0]
    ensures forall x :: x in ToFront(ring, b) <==> x in ring
  {
    assert ring == [ring[0]] + ring[1..];
    if ring[0] != b {
      WithoutIs(ring[1..], b);
      var rest := Without(ring[1..], b);
      ConsNoDup(b, rest);
      ConsNoDup(ring[0], [b] + rest);
      assert ToFront(ring, b) == [ring[0]] + ([b] + rest);
    }
  }

  lemma SoundToFront(s: State, b: int)
    requires Sound(s) && b in s.ring
    ensures s.ring != [] && Sound(s.(ring := ToFront(s.ring, b)))
  {
    SoundIs(s);
    ToFrontIs(s.ring, b);
    SoundFrom(s.(ring := ToFront(s.ring, b)));
  }

  // ---------- chunks in use hold something ----------

  /** Every chunk of the ring but the main one, and for the moment perhaps `but`, has pages besides its header. */
  ghost predicate OccupiedNow(s: State, but: int) {
    forall b :: b in s.ring ==> b == s.ring[0] || b == but || (b in s.chunks && s.chunks[b].freePages < PAGES - FIRST_PAGE)
  }

  ghost predicate OccupiedBehind(s: State, but: int, k: nat)
    decreases k
  {
    if k == 0 then OccupiedNow(s, but) else OccupiedBehind(s, but, k - 1)
  }

  /** OccupiedNow behind a number of trivial steps. */
  ghost predicate OccupiedBut(s: State, but: int) {
    OccupiedBehind(s, but, |s.ring| + 3)
  }

  ghost predicate Occupied(s: State) {
    OccupiedBut(s, 0)
  }

  lemma {:induction false} OccupiedBehindIs(s: State, but: int, k: nat)
    ensures OccupiedBehind(s, but, k) == OccupiedNow(s, but)
    decreases k
  {
    if k > 0 {
      OccupiedBehindIs(s, but, k - 1);
    }
  }

  lemma OccupiedIs(s: State, but: int)
    ensures OccupiedBut(s, but) == OccupiedNow(s, but)
  {
    OccupiedBehindIs(s, but, |s.ring| + 3);
  }

  /** The same chunks with the same numbers of free pages. */
  lemma OccupiedStays(s: State, u: State, but: int)
    requires OccupiedBut(s, but) && u.ring == s.ring
    requires forall b :: b in s.ring && b in s.chunks ==> b in u.chunks && u.chunks[b].freePages <= s.chunks[b].freePages
    ensures OccupiedBut(u, but)
  {
    OccupiedIs(s, but);
    OccupiedIs(u, but);
  }

  /** Another order of the ring behind the main chunk, or fewer chunks. */
  lemma OccupiedRing(s: State, ring: seq<int>, but: int)
    requires OccupiedBut(s, but) && s.ring != [] && ring != [] && ring[0] == s.ring[0] && forall b :: b in ring ==> b in s.ring
    ensures OccupiedBut(s.(ring := ring), but)
  {
    OccupiedIs(s, but);
    OccupiedIs(s.(ring := ring), but);
  }

  lemma NoZeroChunk(s: State)
    requires Sound(s)
    ensures 0 !in s.ring
  {
    if 0 in s.ring {
      SoundChunk(s, 0);
    }
  }

  lemma CachedOutside(s: State)
    requires Sound(s) && s.cached != []
    ensures s.cached[0] !in s.ring && s.cached[0] in s.chunks && WellSized(s.chunks[s.cached[0]]) && 0 !in s.ring
  {
    NoZeroChunk(s);
    SoundIs(s);
    var d := s.cached[0];
    assert d in s.cached;
    assert RingOk(s);
    assert Released(s.chunks[d]);
  }

  /** At most the header page of a chunk is missing from its free pages. */
  lemma FreeAtMost(c: Chunk, o: seq<int>)
    requires Tiled(c, o)
    ensures c.freePages <= PAGES - FIRST_PAGE
  {
    assert o[0] == 0;
    FreeCountAdds(c.bits, 0, 1);
    FreeCountAdds(c.bits, 1, PAGES);
  }

  // ---------- a chunk joins ----------

  /** The first cached chunk, or fresh memory, becomes the last chunk of the ring. */
  function JoinStep(s: State, b: int, c: Chunk, num: int, cached: seq<int>): State
    requires WellSized(c)
  {
    s.(chunks := s.chunks[b := Init(c, num)],
       owner := s.owner[b := HeaderOnly()],
       ring := s.ring + [b],
       cached := cached)
  }

  /** The chunk that has just joined is the only one that may be empty. */
  lemma OccupiedJoin(s: State, b: int, c: Chunk, num: int, cached: seq<int>)
    requires Occupied(s) && s.ring != [] && b !in s.ring && 0 !in s.ring && WellSized(c)
    ensures OccupiedBut(JoinStep(s, b, c, num, cached), b)
  {
    var t := JoinStep(s, b, c, num, cached);
    OccupiedIs(s, 0);
    OccupiedIs(t, b);
    assert t.ring[0] == s.ring[0] && forall x :: x in t.ring ==> x in s.ring || x == b;
  }

  /** [b, b + CHUNK_SIZE) is aligned and outside everything that is mapped. */
  ghost predicate Unmapped(s: State, b: int, bytes: nat) {
    && 0 < b && b % CHUNK_SIZE == 0
    && (forall c :: c in s.chunks ==> b + bytes <= c || c + CHUNK_SIZE <= b)
    && (forall a :: a in s.live && s.live[a].Huge? ==> b + bytes <= a || a + s.live[a].bytes <= b)
  }

  lemma JoinBlocks(s: State, b: int, c: Chunk, num: int, cached: seq<int>)
    requires SoundNow(s) && 0 < b && b % CHUNK_SIZE == 0 && b !in s.ring && Released(c)
    ensures var r := JoinStep(s, b, c, num, cached);
            && Mapped(r.chunks, r.owner) && BlocksOk(r.chunks, r.owner, r.free, r.live, r.pending)
  {
    var r := JoinStep(s, b, c, num, cached);
    InitTiled(c, num);
    JoinChunk(s.chunks, s.owner, b, Init(c, num));
    SameBlocksOk(s.chunks, s.owner, r.chunks, r.owner, s.free, s.live, s.pending);
  }

  lemma InitCounts(c: Chunk, num: int)
    requires Released(c)
    ensures NoCounts(Init(c, num))
  {
    assert forall p :: 1 <= p < PAGES ==> !Header(Init(c, num).info[p]);
  }

  lemma JoinRing(s: State, b: int, c: Chunk, num: int, cached: seq<int>)
    requires RingOk(s) && b !in s.ring && WellSized(c) && 0 < b && b % CHUNK_SIZE == 0
    requires NoDup(cached) && b !in cached && forall d :: d in s.cached <==> d in cached || (d == b && b in s.chunks)
    ensures RingOk(JoinStep(s, b, c, num, cached))
  {
    AppendNoDup(s.ring, b);
  }

  lemma SoundJoinCached(s: State, num: int)
    requires Sound(s) && s.cached != []
    ensures var b := s.cached[0];
            && b in s.chunks && WellSized(s.chunks[b]) && Released(s.chunks[b]) && b !in s.ring
            && Sound(JoinStep(s, b, s.chunks[b], num, s.cached[1..]))
  {
    SoundIs(s);
    var b := s.cached[0];
    assert b in s.cached;
    var r := JoinStep(s, b, s.chunks[b], num, s.cached[1..]);
    JoinBlocks(s, b, s.chunks[b], num, s.cached[1..]);
    InitCounts(s.chunks[b], num);
    assert s.cached == [b] + s.cached[1..];
    JoinRing(s, b, s.chunks[b], num, s.cached[1..]);
    SoundFrom(r);
  }

  lemma ZeroReleased()
    ensures Released(ZeroChunk())
  {
  }

  lemma SoundJoinFresh(s: State, b: int, num: int)
    requires Sound(s) && Unmapped(s, b, CHUNK_SIZE)
    ensures b !in s.chunks && b !in s.ring
    ensures Sound(JoinStep(s, b, ZeroChunk(), num, s.cached))
  {
    SoundIs(s);
    ZeroReleased();
    var r := JoinStep(s, b, ZeroChunk(), num, s.cached);
    JoinBlocks(s, b, ZeroChunk(), num, s.cached);
    InitCounts(ZeroChunk(), num);
    JoinRing(s, b, ZeroChunk(), num, s.cached);
    SoundFrom(r);
  }

  // ---------- a chunk leaves ----------

  /** The chunk b, empty but for its header, leaves the ring; `cached` is the new cache list and `gone` the
      chunks whose memory goes back to the operating system. */
  function LeaveStep(s: State, b: int, cached: seq<int>, gone: set<int>): State {
    s.(ring := Without(s.ring, b), owner := s.owner - {b}, cached := cached, chunks := s.chunks - gone)
  }

  /** A chunk that leaves takes the exception with it. */
  lemma OccupiedLeave(s: State, b: int, cached: seq<int>, gone: set<int>)
    requires OccupiedBut(s, b) && NoDup(s.ring) && b in s.ring && b != s.ring[0]
    requires forall d :: d in gone && d in s.ring ==> d == b
    ensures Occupied(LeaveStep(s, b, cached, gone))
  {
    WithoutIs(s.ring, b);
    OccupiedIs(s, b);
    OccupiedIs(LeaveStep(s, b, cached, gone), 0);
  }

  /** The three ways zend_mm_delete_chunk disposes of b: into the cache, back to the system, or into the
      cache in exchange for the first cached chunk. */
  ghost predicate Disposal(s: State, b: int, cached: seq<int>, gone: set<int>) {
    || (cached == [b] + s.cached && gone == {})
    || (cached == s.cached && gone == {b})
    || (s.cached != [] && cached == [b] + s.cached[1..] && gone == {s.cached[0]})
  }

  lemma LeaveBlocks(s: State, b: int, gone: set<int>)
    requires SoundNow(s) && b in s.ring && b in s.chunks && s.chunks[b].freePages == PAGES - FIRST_PAGE
    requires forall d :: d in gone ==> d == b || d in s.cached
    ensures Mapped(s.chunks - gone, s.owner - {b})
    ensures BlocksOk(s.chunks - gone, s.owner - {b}, s.free, s.live, s.pending)
    ensures Released(s.chunks[b])
  {
    LeaveChunk(s.chunks, s.owner, b);
    assert SameBlocks(s.chunks, s.owner - {b}, s.chunks - gone, s.owner - {b});
    SameBlocksOk(s.chunks, s.owner, s.chunks, s.owner - {b}, s.free, s.live, s.pending);
    SameBlocksOk(s.chunks, s.owner - {b}, s.chunks - gone, s.owner - {b}, s.free, s.live, s.pending);
  }

  lemma LeaveRing(s: State, b: int, cached: seq<int>, gone: set<int>)
    requires RingOk(s) && b in s.ring && b != s.ring[0] && b in s.chunks && Released(s.chunks[b])
    requires 0 < b && b % CHUNK_SIZE == 0
    requires Disposal(s, b, cached, gone)
    ensures RingOk(LeaveStep(s, b, cached, gone)) && LeaveStep(s, b, cached, gone).ring[0] == s.ring[0]
  {
    WithoutIs(s.ring, b);
    if s.cached != [] {
      assert s.cached == [s.cached[0]] + s.cached[1..];
    }
  }

  lemma SoundLeave(s: State, b: int, cached: seq<int>, gone: set<int>)
    requires Sound(s) && b in s.ring && b != s.ring[0] && b in s.chunks && s.chunks[b].freePages == PAGES - FIRST_PAGE
    requires Disposal(s, b, cached, gone)
    ensures Sound(LeaveStep(s, b, cached, gone))
    ensures Without(s.ring, b) != [] && Without(s.ring, b)[0] == s.ring[0]
  {
    SoundIs(s);
    assert gone <= {b} + (set d | d in s.cached);
    LeaveBlocks(s, b, gone);
    LeaveRing(s, b, cached, gone);
    SoundFrom(LeaveStep(s, b, cached, gone));
  }

  /** Dropping the first cached chunk. */
  function TrimStep(s: State): State
    requires s.cached != []
  {
    s.(cached := s.cached[1..], chunks := s.chunks - {s.cached[0]})
  }

  lemma TrimRing(s: State)
    requires RingOk(s) && s.cached != []
    ensures RingOk(TrimStep(s))
  {
    assert s.cached == [s.cached[0]] + s.cached[1..];
  }

  lemma SoundTrim(s: State)
    requires Sound(s) && s.cached != []
    ensures Sound(TrimStep(s))
  {
    SoundIs(s);
    var r := TrimStep(s);
    TrimRing(s);
    assert s.cached[0] in s.cached && s.cached == [s.cached[0]] + s.cached[1..];
    assert SameBlocks(s.chunks, s.owner, r.chunks, r.owner);
    SameBlocksOk(s.chunks, s.owner, r.chunks, r.owner, s.free, s.live, s.pending);
    SoundFrom(r);
  }

  // ---------- huge blocks ----------

  lemma AddHugeBlocks(s: State, a: int, bytes: nat)
    requires SoundNow(s) && s.pending == 0 && 0 < a && Offset(a) == 0 && a !in s.live
    requires forall bin :: 0 <= bin < BINS ==> a !in s.free[bin]
    ensures BlocksOk(s.chunks, s.owner, s.free, s.live[a := Huge(bytes)], 0)
  {
    var live := s.live[a := Huge(bytes)];
    forall d | d in live
      ensures BlockAt(s.chunks, s.owner, d, live[d])
    {
      assert d != a ==> BlockAt(s.chunks, s.owner, d, s.live[d]);
    }
  }

  lemma AddHugeRegions(s: State, a: int, bytes: nat)
    requires Regions(s.chunks, s.live) && Unmapped(s, a, bytes) && 0 < bytes && a !in s.live
    ensures Regions(s.chunks, s.live[a := Huge(bytes)])
  {
  }

  lemma SoundAddHuge(s: State, a: int, bytes: nat)
    requires Sound(s) && s.pending == 0 && Unmapped(s, a, bytes) && 0 < bytes
    ensures a !in s.live && Sound(s.(live := s.live[a := Huge(bytes)]))
  {
    SoundIs(s);
    HugeIsNew(s, a, bytes);
    AddHugeBlocks(s, a, bytes);
    AddHugeRegions(s, a, bytes);
    SoundFrom(s.(live := s.live[a := Huge(bytes)]));
  }

  /** A chunk-aligned address is no small or large block. */
  lemma HugeIsNew(s: State, a: int, bytes: nat)
    requires SoundNow(s) && Unmapped(s, a, bytes) && 0 < bytes
    ensures Offset(a) == 0 && a !in s.live && forall bin :: 0 <= bin < BINS ==> a !in s.free[bin]
  {
    assert a in s.live ==> BlockAt(s.chunks, s.owner, a, s.live[a]);
    assert forall c: nat :: c < BINS && a in s.free[c] ==> SlotAt(s.chunks, s.owner, a, c);
    HugeNoBlock(s.chunks, s.owner, a);
  }

  lemma SoundDropHuge(s: State, a: int)
    requires Sound(s) && s.pending == 0 && a in s.live && s.live[a].Huge?
    ensures Sound(s.(live := s.live - {a}))
  {
    SoundIs(s);
    assert BlockAt(s.chunks, s.owner, a, s.live[a]);
    HugeNoBlock(s.chunks, s.owner, a);
    SoundFrom(s.(live := s.live - {a}));
  }

  /** A huge block shrinks, or grows into a region outside everything that is mapped. */
  lemma SoundResizeHuge(s: State, a: int, to: nat)
    requires Sound(s) && s.pending == 0 && a in s.live && s.live[a].Huge? && 0 < to
    requires forall c :: c in s.chunks ==> a + to <= c || c + CHUNK_SIZE <= a
    requires forall d :: d in s.live && d != a && s.live[d].Huge? ==> a + to <= d || d + s.live[d].bytes <= a
    ensures Sound(s.(live := s.live[a := Huge(to)]))
  {
    SoundIs(s);
    var live := s.live[a := Huge(to)];
    forall d | d in live
      ensures BlockAt(s.chunks, s.owner, d, live[d])
    {
      assert BlockAt(s.chunks, s.owner, d, s.live[d]);
    }
    ResizedRegions(s.chunks, s.live, a, to);
    SoundFrom(s.(live := live));
  }

  lemma ResizedRegions(chunks: ChunkMap, live: Live, a: int, to: nat)
    requires Regions(chunks, live) && a in live && live[a].Huge? && 0 < to
    requires forall c :: c in chunks ==> a + to <= c || c + CHUNK_SIZE <= a
    requires forall d :: d in live && d != a && live[d].Huge? ==> a + to <= d || d + live[d].bytes <= a
    ensures Regions(chunks, live[a := Huge(to)])
  {
    var more := live[a := Huge(to)];
    forall d, e | d in more && e in more && d != e && more[d].Huge? && more[e].Huge?
      ensures d + more[d].bytes <= e || e + more[e].bytes <= d
    {
      assert d in live && e in live && live[d].Huge? && live[e].Huge?;
      assert d + live[d].bytes <= e || e + live[e].bytes <= d;
    }
  }

  lemma HugeNoBlock(chunks: ChunkMap, owner: Owners, a: int)
    requires Mapped(chunks, owner) && Offset(a) == 0
    ensures forall bin: nat :: !SlotAt(chunks, owner, a, bin)
    ensures forall n: nat :: !LargeAt(chunks, owner, a, n)
  {
  }
}
