/** The heap's books: what is mapped from the operating system, and the counters that account for it. */
module HeapBooks {
  import opened Bins
  import opened Chunks
  import opened Blocks
  import opened HeapInv
  import opened HeapMem
  import opened HeapState
  import opened HeapChunks

  // ---------- sums over the blocks handed out ----------

  /** What a block adds to the sum over all blocks, or to the sum over the huge ones. */
  function Weight(k: Kind, all: bool): nat {
    if all || k.Huge? then Usable(k) else 0
  }

  ghost function Pick(live: Live): (a: int)
    ensures a in live || live.Keys == {}
  {
    if a :| a in live then a else 0
  }

  /** Sum of the usable sizes of all blocks, or of the huge blocks. */
  ghost function Total(live: Live, all: bool): nat
    decreases live.Keys
  {
    if live.Keys == {} then 0 else Weight(live[Pick(live)], all) + Total(live - {Pick(live)}, all)
  }

  lemma {:induction false} TotalWithout(live: Live, a: int, all: bool)
    requires a in live
    ensures Total(live, all) == Weight(live[a], all) + Total(live - {a}, all)
    decreases live.Keys
  {
    var b := Pick(live);
    if a != b {
      TotalWithout(live - {b}, a, all);
      TotalWithout(live - {a}, b, all);
      assert live - {b} - {a} == live - {a} - {b};
    }
  }

  lemma TotalPut(live: Live, a: int, k: Kind, all: bool)
    ensures Total(live[a := k], all) == Weight(k, all) + Total(live - {a}, all)
    ensures Total(live[a := k], all) == Weight(k, all) + Total(live, all) - (if a in live then Weight(live[a], all) else 0)
  {
    TotalWithout(live[a := k], a, all);
    assert live[a := k] - {a} == live - {a};
    if a in live {
      TotalWithout(live, a, all);
    } else {
      assert live - {a} == live;
    }
  }

  // ---------- the books ----------

  /** mapped: the regions the operating system has mapped for the heap. due: bytes of a huge block that is
      mapped but not yet counted in real_size. */
  datatype Ledger = Ledger(
    chunksCount: int,
    cachedCount: int,
    realSize: int,
    realPeak: int,
    mapped: map<int, int>,
    due: int)

  /** The mapped regions are the chunks and the huge blocks: nothing is lost, nothing is used unmapped. */
  ghost predicate OsOk(mapped: map<int, int>, chunks: ChunkMap, live: Live) {
    && (forall b :: b in chunks ==> b in mapped && mapped[b] == CHUNK_SIZE)
    && (forall a :: a in live && live[a].Huge? ==> a in mapped && mapped[a] == live[a].bytes)
    && (forall a :: a in mapped ==> a in chunks || (a in live && live[a].Huge?))
  }

  ghost predicate BalancedNow(s: State, l: Ledger) {
    && l.chunksCount == |s.ring|
    && l.cachedCount == |s.cached|
    && l.realSize + l.due == CHUNK_SIZE * (|s.ring| + |s.cached|) + Total(s.live, false)
    && l.realSize <= l.realPeak
    && OsOk(l.mapped, s.chunks, s.live)
  }

  ghost predicate BalancedBehind(s: State, l: Ledger, k: nat)
    decreases k
  {
    if k == 0 then BalancedNow(s, l) else BalancedBehind(s, l, k - 1)
  }

  ghost predicate Balanced(s: State, l: Ledger) {
    BalancedBehind(s, l, |s.ring| + 3)
  }

  lemma {:induction false} BalancedBehindIs(s: State, l: Ledger, k: nat)
    ensures BalancedBehind(s, l, k) == BalancedNow(s, l)
    decreases k
  {
    if k > 0 {
      BalancedBehindIs(s, l, k - 1);
    }
  }

  lemma BalancedIs(s: State, l: Ledger)
    ensures Balanced(s, l) == BalancedNow(s, l)
  {
    BalancedBehindIs(s, l, |s.ring| + 3);
  }

  // ---------- steps that map or unmap nothing ----------

  ghost predicate SameHuge(live: Live, more: Live) {
    && Total(more, false) == Total(live, false)
    && forall a :: (a in live && live[a].Huge?) || (a in more && more[a].Huge?) ==> a in live && a in more && live[a] == more[a]
  }

  lemma SameHugePut(live: Live, a: int, k: Kind)
    requires !k.Huge? && (a in live ==> !live[a].Huge?)
    ensures SameHuge(live, live[a := k])
  {
    TotalPut(live, a, k, false);
  }

  lemma SameHugeDrop(live: Live, a: int)
    requires a in live && !live[a].Huge?
    ensures SameHuge(live, live - {a})
  {
    TotalWithout(live, a, false);
  }

  lemma BalancedQuiet(s: State, t: State, l: Ledger)
    requires Balanced(s, l)
    requires |t.ring| == |s.ring| && |t.cached| == |s.cached| && t.chunks.Keys == s.chunks.Keys
    requires t.live == s.live || SameHuge(s.live, t.live)
    ensures Balanced(t, l)
  {
    BalancedIs(s, l);
    BalancedIs(t, l);
  }

  // ---------- chunks ----------

  /** [b, b + bytes) is aligned and free, as far as the operating system knows. */
  predicate Vacant(mapped: map<int, int>, b: int, bytes: int) {
    0 < b && b % CHUNK_SIZE == 0 && b !in mapped && forall a :: a in mapped ==> b + bytes <= a || a + mapped[a] <= b
  }

  lemma VacantUnmapped(s: State, l: Ledger, b: int, bytes: nat)
    requires Balanced(s, l) && Vacant(l.mapped, b, bytes)
    ensures Unmapped(s, b, bytes)
  {
    BalancedIs(s, l);
  }

  lemma BalancedJoinCached(s: State, l: Ledger, num: int)
    requires Balanced(s, l) && s.cached != [] && s.cached[0] in s.chunks && WellSized(s.chunks[s.cached[0]])
    ensures var b := s.cached[0];
            Balanced(JoinStep(s, b, s.chunks[b], num, s.cached[1..]),
                     l.(chunksCount := l.chunksCount + 1, cachedCount := l.cachedCount - 1))
  {
    var b := s.cached[0];
    var t := JoinStep(s, b, s.chunks[b], num, s.cached[1..]);
    var m := l.(chunksCount := l.chunksCount + 1, cachedCount := l.cachedCount - 1);
    BalancedIs(s, l);
    BalancedIs(t, m);
  }

  /** The ledger after a chunk has been mapped at b. */
  function Mapping(l: Ledger, b: int): Ledger {
    var size := l.realSize + CHUNK_SIZE;
    l.(mapped := l.mapped[b := CHUNK_SIZE], chunksCount := l.chunksCount + 1, realSize := size,
       realPeak := if l.realPeak < size then size else l.realPeak)
  }

  lemma BalancedJoinFresh(s: State, l: Ledger, b: int, num: int)
    requires Balanced(s, l) && Vacant(l.mapped, b, CHUNK_SIZE)
    ensures Balanced(JoinStep(s, b, ZeroChunk(), num, s.cached), Mapping(l, b))
  {
    var t := JoinStep(s, b, ZeroChunk(), num, s.cached);
    BalancedIs(s, l);
    BalancedIs(t, Mapping(l, b));
  }

  /** The ledger after chunk b has left the ring; `gone` has been unmapped. */
  function Leaving(l: Ledger, cached: seq<int>, gone: set<int>): Ledger {
    l.(mapped := l.mapped - gone, chunksCount := l.chunksCount - 1, cachedCount := |cached|,
       realSize := l.realSize - (if gone == {} then 0 else CHUNK_SIZE))
  }

  lemma BalancedLeave(s: State, l: Ledger, b: int, cached: seq<int>, gone: set<int>)
    requires Balanced(s, l) && Disposal(s, b, cached, gone) && NoDup(s.ring) && b in s.ring
    requires forall d :: d in gone && d in s.live ==> !s.live[d].Huge?
    ensures Balanced(LeaveStep(s, b, cached, gone), Leaving(l, cached, gone))
  {
    var t, m := LeaveStep(s, b, cached, gone), Leaving(l, cached, gone);
    WithoutIs(s.ring, b);
    BalancedIs(s, l);
    assert gone == {} || b in gone || s.cached[0] in gone;
    assert m.realSize + m.due == CHUNK_SIZE * (|t.ring| + |t.cached|) + Total(t.live, false);
    BalancedIs(t, m);
  }

  lemma BalancedTrim(s: State, l: Ledger)
    requires Balanced(s, l) && s.cached != []
    requires s.cached[0] in s.live ==> !s.live[s.cached[0]].Huge?
    ensures Balanced(TrimStep(s), l.(mapped := l.mapped - {s.cached[0]}, cachedCount := l.cachedCount - 1,
                                     realSize := l.realSize - CHUNK_SIZE))
  {
    BalancedIs(s, l);
    BalancedIs(TrimStep(s), l.(mapped := l.mapped - {s.cached[0]}, cachedCount := l.cachedCount - 1,
                               realSize := l.realSize - CHUNK_SIZE));
  }

  // ---------- huge blocks ----------

  /** A huge block has been mapped at a; it is due to be counted. */
  lemma BalancedMapHuge(s: State, l: Ledger, a: int, bytes: nat)
    requires Balanced(s, l) && Vacant(l.mapped, a, bytes) && a !in s.live
    ensures Balanced(s.(live := s.live[a := Huge(bytes)]), l.(mapped := l.mapped[a := bytes], due := l.due + bytes))
  {
    BalancedIs(s, l);
    TotalPut(s.live, a, Huge(bytes), false);
    var t, m := s.(live := s.live[a := Huge(bytes)]), l.(mapped := l.mapped[a := bytes], due := l.due + bytes);
    BalancedIs(t, m);
  }

  /** Counting what is due. */
  lemma BalancedPaid(s: State, l: Ledger, size: int, peak: int)
    requires Balanced(s, l) && size == l.realSize + l.due && size <= peak
    ensures Balanced(s, l.(realSize := size, realPeak := peak, due := 0))
  {
    BalancedIs(s, l);
    BalancedIs(s, l.(realSize := size, realPeak := peak, due := 0));
  }

  lemma BalancedUnmapHuge(s: State, l: Ledger, a: int)
    requires Balanced(s, l) && a in s.live && s.live[a].Huge? && a !in s.chunks
    ensures Balanced(s.(live := s.live - {a}), l.(mapped := l.mapped - {a}, realSize := l.realSize - s.live[a].bytes))
  {
    BalancedIs(s, l);
    TotalWithout(s.live, a, false);
    var t, m := s.(live := s.live - {a}), l.(mapped := l.mapped - {a}, realSize := l.realSize - s.live[a].bytes);
    assert Weight(s.live[a], false) == s.live[a].bytes;
    BalancedIs(t, m);
  }

  lemma BalancedResizeHuge(s: State, l: Ledger, a: int, to: nat, peak: int)
    requires Balanced(s, l) && a in s.live && s.live[a].Huge? && a !in s.chunks
    requires l.realSize + to - s.live[a].bytes <= peak
    ensures Balanced(s.(live := s.live[a := Huge(to)]),
                     l.(mapped := l.mapped[a := to], realSize := l.realSize + to - s.live[a].bytes, realPeak := peak))
  {
    BalancedIs(s, l);
    TotalPut(s.live, a, Huge(to), false);
    BalancedIs(s.(live := s.live[a := Huge(to)]),
               l.(mapped := l.mapped[a := to], realSize := l.realSize + to - s.live[a].bytes, realPeak := peak));
  }
}
