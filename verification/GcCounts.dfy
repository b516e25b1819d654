/** The counting phase of zend_mm_gc: how many slots of each run are on the free list of its class. */
module GcCounts {
  import opened Bitset
  import opened Bins
  import opened Chunks
  import opened Blocks
  import opened BlockChanges
  import opened HeapInv
  import opened HeapSteps

  /** Address a lies on a page of the run that starts at page p of chunk b. */
  ghost predicate InRun(owner: Owners, a: int, b: int, p: int) {
    b in owner && |owner[b]| == PAGES && Base(a) == b && owner[b][Page(a)] == p
  }

  /** How many of the first k elements of the list lie in the run at page p of chunk b. */
  ghost function Count(list: seq<int>, k: nat, owner: Owners, b: int, p: int): nat
    requires k <= |list|
    decreases k
  {
    if k == 0 then 0 else Count(list, k - 1, owner, b, p) + (if InRun(owner, list[k - 1], b, p) then 1 else 0)
  }

  /** Address a is a slot of the run of class bin at address r. */
  predicate SlotOf(a: int, r: int, bin: nat) {
    a - r in Slots(bin)
  }

  function RunAddress(b: int, p: int): int {
    b + p * PAGE_SIZE
  }

  /** All slots of the run are on the list. */
  ghost predicate AllFree(list: seq<int>, b: int, p: int, bin: nat) {
    forall a :: SlotOf(a, RunAddress(b, p), bin) ==> a in list
  }

  /** The members of the list in the run, as offsets from the start of the run. */
  ghost function Members(list: seq<int>, k: nat, owner: Owners, b: int, p: int): set<int>
    requires k <= |list|
    decreases k
  {
    if k == 0 then {}
    else if InRun(owner, list[k - 1], b, p) then
      Members(list, k - 1, owner, b, p) + {list[k - 1] - (b + p * PAGE_SIZE)}
    else
      Members(list, k - 1, owner, b, p)
  }

  lemma {:induction false} MemberIndex(list: seq<int>, k: nat, owner: Owners, b: int, p: int, d: int) returns (i: nat)
    requires k <= |list| && d in Members(list, k, owner, b, p)
    ensures i < k && InRun(owner, list[i], b, p) && list[i] == b + p * PAGE_SIZE + d
    decreases k
  {
    if InRun(owner, list[k - 1], b, p) && list[k - 1] - (b + p * PAGE_SIZE) == d {
      i := k - 1;
    } else {
      i := MemberIndex(list, k - 1, owner, b, p, d);
    }
  }

  lemma {:induction false} MemberAt(list: seq<int>, k: nat, owner: Owners, b: int, p: int, i: nat)
    requires i < k <= |list| && InRun(owner, list[i], b, p)
    ensures list[i] - (b + p * PAGE_SIZE) in Members(list, k, owner, b, p)
    decreases k
  {
    if i < k - 1 {
      MemberAt(list, k - 1, owner, b, p, i);
    }
  }

  lemma NotMember(list: seq<int>, k: nat, owner: Owners, b: int, p: int)
    requires k < |list| && NoDup(list)
    ensures list[k] - (b + p * PAGE_SIZE) !in Members(list, k, owner, b, p)
  {
    var d := list[k] - (b + p * PAGE_SIZE);
    if d in Members(list, k, owner, b, p) {
      var i := MemberIndex(list, k, owner, b, p, d);
    }
  }

  lemma AddToSet(m: set<int>, d: int)
    requires d !in m
    ensures |m + {d}| == |m| + 1
  {
  }

  lemma {:induction false} CountIsSize(list: seq<int>, k: nat, owner: Owners, b: int, p: int)
    requires k <= |list| && NoDup(list)
    ensures Count(list, k, owner, b, p) == |Members(list, k, owner, b, p)|
    decreases k
  {
    if k > 0 {
      CountIsSize(list, k - 1, owner, b, p);
      NotMember(list, k - 1, owner, b, p);
      AddToSet(Members(list, k - 1, owner, b, p), list[k - 1] - (b + p * PAGE_SIZE));
    }
  }

  lemma EqualSize(s: set<int>, t: set<int>, m: nat, n: nat, all: bool)
    requires s <= t && |s| == m && |t| == n && (all <==> t <= s)
    ensures m <= n && (m == n <==> all)
  {
    assert t == s + (t - s);
    assert |t| == |s| + |t - s|;
    assert t - s == {} <==> t <= s;
  }

  /** Members of a list of slots are slots of the run. */
  lemma MembersAreSlots(chunks: ChunkMap, owner: Owners, list: seq<int>, b: int, p: int, bin: nat)
    requires Mapped(chunks, owner) && b in owner
    requires forall a :: a in list ==> SlotAt(chunks, owner, a, bin)
    ensures Members(list, |list|, owner, b, p) <= Slots(bin)
  {
    forall d | d in Members(list, |list|, owner, b, p)
      ensures d in Slots(bin)
    {
      var i := MemberIndex(list, |list|, owner, b, p, d);
      assert SlotAt(chunks, owner, list[i], bin);
      JoinAddress(list[i]);
      assert d == Offset(list[i]) - p * PAGE_SIZE;
    }
  }

  lemma AllFreeAreMembers(chunks: ChunkMap, owner: Owners, list: seq<int>, b: int, p: int, bin: nat, d: int)
    requires Mapped(chunks, owner) && b in owner && 0 < p < PAGES
    requires chunks[b].info[p].Srun? && chunks[b].info[p].bin == bin && d in Slots(bin)
    ensures b + p * PAGE_SIZE + d in list <==> d in Members(list, |list|, owner, b, p)
  {
    var r := b + p * PAGE_SIZE;
    if r + d in list {
      SlotInRun(chunks, owner, b, p, d);
      var i :| 0 <= i < |list| && list[i] == r + d;
      MemberAt(list, |list|, owner, b, p, i);
    }
    if d in Members(list, |list|, owner, b, p) {
      var i := MemberIndex(list, |list|, owner, b, p, d);
    }
  }

  lemma MembersIfAllFree(chunks: ChunkMap, owner: Owners, list: seq<int>, b: int, p: int, bin: nat)
    requires Mapped(chunks, owner) && b in owner && 0 < p < PAGES
    requires chunks[b].info[p].Srun? && chunks[b].info[p].bin == bin
    ensures AllFree(list, b, p, bin) <==> Slots(bin) <= Members(list, |list|, owner, b, p)
  {
    var r := RunAddress(b, p);
    forall d | d in Slots(bin)
      ensures r + d in list <==> d in Members(list, |list|, owner, b, p)
    {
      AllFreeAreMembers(chunks, owner, list, b, p, bin, d);
    }
    if AllFree(list, b, p, bin) {
      forall d | d in Slots(bin)
        ensures r + d in list
      {
        assert SlotOf(r + d, r, bin);
      }
    }
    if Slots(bin) <= Members(list, |list|, owner, b, p) {
      forall a | SlotOf(a, r, bin)
        ensures a in list
      {
        assert r + (a - r) in list;
      }
    }
  }

  /** A list of slots counts to the number of elements of the run exactly when all its slots are listed. */
  lemma CountMeansAll(chunks: ChunkMap, owner: Owners, list: seq<int>, b: int, p: int, bin: nat)
    requires Mapped(chunks, owner) && bin < BINS && b in owner && 0 < p < PAGES
    requires NoDup(list) && forall a :: a in list ==> SlotAt(chunks, owner, a, bin)
    requires chunks[b].info[p].Srun? && chunks[b].info[p].bin == bin
    ensures Count(list, |list|, owner, b, p) <= BinElements(bin)
    ensures Count(list, |list|, owner, b, p) == BinElements(bin) <==> AllFree(list, b, p, bin)
  {
    CountIsSize(list, |list|, owner, b, p);
    SlotsCount(bin, BinElements(bin));
    MembersAreSlots(chunks, owner, list, b, p, bin);
    MembersIfAllFree(chunks, owner, list, b, p, bin);
    EqualSize(Members(list, |list|, owner, b, p), Slots(bin), Count(list, |list|, owner, b, p), BinElements(bin),
              AllFree(list, b, p, bin));
  }

  /** A slot of a run, by address. */
  lemma SlotInRun(chunks: ChunkMap, owner: Owners, b: int, p: int, d: int)
    requires Mapped(chunks, owner) && b in owner && 0 < p < PAGES && chunks[b].info[p].Srun?
    requires d in Slots(chunks[b].info[p].bin)
    ensures InRun(owner, b + p * PAGE_SIZE + d, b, p)
    ensures SlotAt(chunks, owner, b + p * PAGE_SIZE + d, chunks[b].info[p].bin)
    ensures Base(b + p * PAGE_SIZE + d) == b
  {
    assert Tiled(chunks[b], owner[b]);
    SlotOfRun(chunks[b], owner[b], p, d);
    SplitAddress(b, p * PAGE_SIZE + d);
    assert b + p * PAGE_SIZE + d == b + (p * PAGE_SIZE + d);
  }

  lemma SlotOfRunIs(chunks: ChunkMap, owner: Owners, b: int, p: int, a: int)
    requires Mapped(chunks, owner) && b in owner && 0 < p < PAGES && chunks[b].info[p].Srun?
    requires SlotOf(a, RunAddress(b, p), chunks[b].info[p].bin)
    ensures InRun(owner, a, b, p) && SlotAt(chunks, owner, a, chunks[b].info[p].bin)
  {
    SlotInRun(chunks, owner, b, p, a - RunAddress(b, p));
  }

  // ---------- the counting loop ----------

  /** c1 is c0 with every run of class bin counting its members among the first k of the list. */
  ghost predicate Counted(c0: ChunkMap, c1: ChunkMap, owner: Owners, bin: nat, list: seq<int>, k: nat)
    requires k <= |list|
  {
    && c1.Keys == c0.Keys
    && (forall b :: b in c0 && b !in owner ==> c1[b] == c0[b])
    && (forall b :: b in c0 && b in owner ==> CountedChunk(c0[b], c1[b], owner, b, bin, list, k))
  }

  ghost predicate CountedChunk(c0: Chunk, c1: Chunk, owner: Owners, b: int, bin: nat, list: seq<int>, k: nat)
    requires k <= |list|
  {
    && WellSized(c0) && WellSized(c1) && c1 == c0.(info := c1.info)
    && forall p :: 0 <= p < PAGES ==>
         c1.info[p] == if c0.info[p].Srun? && c0.info[p].bin == bin
                       then SrunEx(bin, Count(list, k, owner, b, p)) else c0.info[p]
  }

  lemma CountStart(chunks: ChunkMap, owner: Owners, bin: nat, list: seq<int>)
    requires Mapped(chunks, owner)
    requires forall b, p :: b in owner && 0 <= p < PAGES && chunks[b].info[p].Srun? && chunks[b].info[p].bin == bin
               ==> chunks[b].info[p].counter == 0
    ensures Counted(chunks, chunks, owner, bin, list, 0)
  {
  }

  /** The run of a slot, found through the page map as the code finds it. */
  lemma RunOfSlot(chunks: ChunkMap, owner: Owners, a: int, bin: nat)
    requires Mapped(chunks, owner) && SlotAt(chunks, owner, a, bin)
    ensures var b, page := Base(a), Page(a);
            && b in owner && b in chunks && WellSized(chunks[b]) && |owner[b]| == PAGES
            && var s := owner[b][page];
               && 0 < s < PAGES && InRun(owner, a, b, s) && chunks[b].info[s].Srun? && chunks[b].info[s].bin == bin
               && (if chunks[b].info[page].Nrun? then chunks[b].info[page].offset == page - s
                   else chunks[b].info[page].Srun? && page == s)
  {
    PageInfoOfSlot(chunks[Base(a)], owner[Base(a)], Offset(a), bin);
  }

  lemma CountStepChunk(c0: Chunk, c1: Chunk, owner: Owners, d: int, bin: nat, list: seq<int>, k: nat, b: int, s: int)
    requires k < |list| && CountedChunk(c0, c1, owner, d, bin, list, k) && 0 <= s < PAGES
    requires InRun(owner, list[k], b, s) && c0.info[s].Srun? && c0.info[s].bin == bin
    ensures c1.info[s].Srun?
    ensures CountedChunk(c0, if d == b then SetInfo(c1, s, SrunEx(bin, c1.info[s].counter + 1)) else c1, owner, d, bin, list, k + 1)
  {
    forall p | 0 <= p < PAGES
      ensures Count(list, k + 1, owner, d, p) == Count(list, k, owner, d, p) + (if d == b && p == s then 1 else 0)
    {
      assert InRun(owner, list[k], d, p) <==> d == b && p == s;
    }
  }

  /** One iteration: the slot at position k is counted in its run. */
  lemma CountStep(c0: ChunkMap, c1: ChunkMap, owner: Owners, bin: nat, list: seq<int>, k: nat)
    requires Mapped(c0, owner) && k < |list| && Counted(c0, c1, owner, bin, list, k)
    requires SlotAt(c0, owner, list[k], bin)
    ensures var b := Base(list[k]);
            && b in c1 && b in owner && |owner[b]| == PAGES && WellSized(c1[b])
            && var s := owner[b][Page(list[k])];
               && 0 < s < PAGES && c1[b].info[s].Srun? && c1[b].info[s].bin == bin
               && Counted(c0, c1[b := SetInfo(c1[b], s, SrunEx(bin, c1[b].info[s].counter + 1))], owner, bin, list, k + 1)
  {
    RunOfSlot(c0, owner, list[k], bin);
    var b := Base(list[k]);
    var s := owner[b][Page(list[k])];
    assert CountedChunk(c0[b], c1[b], owner, b, bin, list, k);
    forall d | d in c0 && d in owner
      ensures CountedChunk(c0[d], if d == b then SetInfo(c1[d], s, SrunEx(bin, c1[b].info[s].counter + 1)) else c1[d], owner, d, bin, list, k + 1)
    {
      assert Tiled(c0[d], owner[d]) || d != b;
      CountStepOther(c0, c1, owner, bin, list, k, b, s, d);
    }
  }

  lemma CountStepOther(c0: ChunkMap, c1: ChunkMap, owner: Owners, bin: nat, list: seq<int>, k: nat, b: int, s: int, d: int)
    requires k < |list| && Counted(c0, c1, owner, bin, list, k) && 0 <= s < PAGES
    requires b in c0 && b in owner && InRun(owner, list[k], b, s) && WellSized(c0[b]) && c0[b].info[s].Srun? && c0[b].info[s].bin == bin
    requires d in c0 && d in owner
    ensures WellSized(c1[d]) && WellSized(c1[b]) && c1[b].info[s].Srun?
    ensures CountedChunk(c0[d], if d == b then SetInfo(c1[d], s, SrunEx(bin, c1[b].info[s].counter + 1)) else c1[d], owner, d, bin, list, k + 1)
  {
    assert CountedChunk(c0[d], c1[d], owner, d, bin, list, k);
    assert CountedChunk(c0[b], c1[b], owner, b, bin, list, k);
    if d == b {
      CountStepChunk(c0[d], c1[d], owner, d, bin, list, k, b, s);
    } else {
      forall p | 0 <= p < PAGES
        ensures Count(list, k + 1, owner, d, p) == Count(list, k, owner, d, p)
      {
        assert !InRun(owner, list[k], d, p);
      }
    }
  }
}
