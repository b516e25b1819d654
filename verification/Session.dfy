// Whole runs: a program sees the heap as a store of separate blocks that keep what is written to them.
module Session {
  import opened Bins
  import opened Chunks
  import opened Blocks
  import opened HeapInv
  import opened HeapMem
  import opened HeapState
  import opened HeapBooks
  import opened HeapObject
  import opened HugeList
  import opened PageSteps
  import opened PageAlloc
  import opened GcTotals
  import opened SmallAlloc
  import opened LargeAlloc
  import opened Pointers
  import opened HugeBlocks
  import opened HeapApi
  import opened HeapWrite
  import opened Realloc
  import opened HeapLimits

  /** The blocks a program holds: address and contents, as many bytes as it asked for. */
  type Store = map<int, seq<int>>

  datatype Op =
    | Alloc(size: nat)
    | Free(ptr: int)
    | Resize(ptr: int, bytes: nat, useCopy: bool, copy: nat)
    | Put(ptr: int, offset: nat, value: int)
    | CollectGarbage
    | SetLimit(limit: nat)
    | EndRequest

  // ---------- the ideal store ----------

  /** What the interface asks of its callers. */
  predicate Legal(op: Op, store: Store) {
    match op
    case Alloc(size) => size < WORD_VALUES
    case Free(p) => p == 0 || p in store
    case Resize(p, size, useCopy, copy) =>
      (p == 0 || p in store) && size < WORD_VALUES && copy <= size && (!useCopy ==> copy == size)
    case Put(p, i, _) => p in store && i < |store[p]|
    case CollectGarbage => true
    case SetLimit(_) => true
    case EndRequest => true
  }

  /** The operation asks for no huge block; limits are 64-bit numbers. */
  predicate Inside(op: Op) {
    match op
    case Alloc(size) => size <= MAX_LARGE_SIZE
    case Resize(_, size, _, _) => size <= MAX_LARGE_SIZE
    case SetLimit(limit) => limit < WORD_VALUES
    case _ => true
  }

  /** What is mapped is within the memory limit. */
  ghost predicate Within(heap: Heap)
    reads heap
  {
    heap.realSize <= heap.limit < WORD_VALUES
  }

  /** The store `after` may be the result of the operation. */
  ghost predicate Follows(op: Op, store: Store, after: Store) {
    match op
    case Alloc(size) => exists p :: NewBlock(store, after, p, size)
    case Free(p) => after == store - {p}
    case Resize(p, size, _, copy) =>
      if p == 0 then exists q :: NewBlock(store, after, q, size)
      else p in store && exists q :: MovedBlock(store, after, p, q, size, copy)
    case Put(p, i, v) => p in store && i < |store[p]| && after == store[p := store[p][i := v]]
    case CollectGarbage => after == store
    case SetLimit(_) => after == store
    case EndRequest => after == map[]
  }

  ghost predicate NewBlock(store: Store, after: Store, p: int, size: nat) {
    p !in store && p in after && |after[p]| == size && after - {p} == store
  }

  ghost predicate MovedBlock(store: Store, after: Store, p: int, q: int, size: nat, copy: nat)
    requires p in store
  {
    && q in after && |after[q]| == size && after - {q} == store - {p}
    && forall i: nat :: i < size && i < |store[p]| && i < copy ==> after[q][i] == store[p][i]
  }

  // ---------- the heap behind it ----------

  /** The heap holds the blocks of the store with their contents, and besides them only its own list nodes. */
  ghost predicate Holds(s: State, list: seq<HugeNode>, store: Store) {
    && (forall p :: p in store ==>
          && p in s.live && !IsNode(list, p) && |store[p]| <= Usable(s.live[p])
          && Has(s.mem, p, store[p]))
    && (forall d :: d in s.live ==> d in store || IsNode(list, d))
  }

  /** The bytes at p are these. */
  ghost predicate Has(mem: Memory, p: int, bytes: seq<int>) {
    forall i :: 0 <= i < |bytes| ==> Byte(mem, p, i) == bytes[i]
  }

  function Contents(mem: Memory, p: int, n: nat): (r: seq<int>)
    ensures |r| == n && forall i :: 0 <= i < n ==> r[i] == Byte(mem, p, i)
  {
    seq(n, i => Byte(mem, p, i))
  }

  /** Blocks of the store do not overlap. */
  lemma StoreApart(s: State, list: seq<HugeNode>, store: Store, p: int, q: int, i: nat, j: nat)
    requires Sound(s) && Holds(s, list, store) && p in store && q in store && p != q
    requires i < |store[p]| && j < |store[q]|
    ensures p + i != q + j
  {
    SoundIs(s);
    if p + i == q + j {
      LiveApart(s.chunks, s.owner, s.free, s.live, s.pending, p, q, p + i);
    }
  }

  lemma HasStays(live: Live, m0: Memory, m1: Memory, p: int, bytes: seq<int>)
    requires Untouched(live, m0, m1) && p in live && |bytes| <= Usable(live[p]) && Has(m0, p, bytes)
    ensures Has(m1, p, bytes)
  {
    UntouchedBytes(live, m0, m1, p);
  }

  // ---------- each operation ----------

  lemma HoldsNew(s: State, u: State, list: seq<HugeNode>, p: int, k: Kind, node: int, size: nat, store: Store)
    requires ListOk(list, s.live) && Holds(s, list, store) && Got(s, u, p, k, node) && size <= Usable(k)
    ensures Holds(u, ListAfter(list, p, k, node), store[p := Contents(u.mem, p, size)])
    ensures NewBlock(store, store[p := Contents(u.mem, p, size)], p, size)
  {
    var now, after := ListAfter(list, p, k, node), store[p := Contents(u.mem, p, size)];
    forall d
      ensures IsNode(now, d) <==> IsNode(list, d) || (k.Huge? && d == node)
    {
      if k.Huge? {
        AddedNode(list, HugeNode(node, p, k.bytes), d);
      }
    }
    forall q | q in store
      ensures Has(u.mem, q, store[q])
    {
      HasStays(s.live, s.mem, u.mem, q, store[q]);
    }
    NodesKnown(s, list, store, p);
    assert after - {p} == store;
  }

  /** A new address is neither in the store nor a node. */
  lemma NodesKnown(s: State, list: seq<HugeNode>, store: Store, p: int)
    requires ListOk(list, s.live) && Holds(s, list, store) && p !in s.live
    ensures p !in store && !IsNode(list, p)
  {
    if IsNode(list, p) {
      NodesLive(list, s.live, p);
    }
  }

  lemma HoldsFreed(s: State, u: State, list: seq<HugeNode>, now: seq<HugeNode>, a: int, node: int, store: Store)
    requires Holds(s, list, store) && a in store && Freed(s, u, a, list, node)
    requires forall d :: d in u.live ==> (IsNode(now, d) <==> IsNode(list, d))
    ensures Holds(u, now, store - {a})
  {
    forall q | q in store - {a}
      ensures q in u.live && Has(u.mem, q, store[q])
    {
      HasStays(u.live, s.mem, u.mem, q, store[q]);
    }
  }

  lemma HoldsMoved(s: State, u: State, list: seq<HugeNode>, now: seq<HugeNode>, a: int, p: int, node: int,
                   size: nat, copy: nat, store: Store)
    requires Holds(s, list, store) && a in store && NodesStay(list, now, u.live, node)
    requires Moved(s, u, a, p, size, Keep(size, Usable(s.live[a]), copy), list, node)
    requires ListOk(list, s.live)
    ensures Holds(u, now, (store - {a})[p := Contents(u.mem, p, size)])
    ensures MovedBlock(store, (store - {a})[p := Contents(u.mem, p, size)], a, p, size, copy)
  {
    var after := (store - {a})[p := Contents(u.mem, p, size)];
    forall q | q in store && q != a
      ensures q != p && q in u.live && Has(u.mem, q, store[q])
    {
      assert SameBytes(s.mem, q, u.mem, q, Usable(s.live[q]));
    }
    if p != a && IsNode(list, p) {
      NodesLive(list, s.live, p);
    }
    assert after - {p} == store - {a};
    forall i | 0 <= i < Keep(size, |store[a]|, copy)
      ensures after[p][i] == store[a][i]
    {
      assert Byte(u.mem, p, i) == Byte(s.mem, a, i);
    }
  }

  /** The heap is valid and holds the store. */
  ghost predicate Serves(heap: Heap, store: Store)
    reads heap
  {
    Valid(heap) && Holds(heap.State(), heap.hugeList, store)
  }

  lemma HoldsSame(s: State, u: State, list: seq<HugeNode>, store: Store)
    requires Holds(s, list, store) && u.live == s.live && Untouched(s.live, s.mem, u.mem)
    ensures Holds(u, list, store)
  {
    forall p | p in store
      ensures Has(u.mem, p, store[p])
    {
      HasStays(s.live, s.mem, u.mem, p, store[p]);
    }
  }

  lemma HoldsWrite(s: State, u: State, list: seq<HugeNode>, p: int, i: nat, v: int, store: Store)
    requires Holds(s, list, store) && p in store && i < |store[p]|
    requires u == s.(mem := s.mem[p + i := v]) && Untouched(s.live - {p}, s.mem, u.mem)
    ensures Holds(u, list, store[p := store[p][i := v]])
  {
    forall q | q in store && q != p
      ensures Has(u.mem, q, store[q])
    {
      HasStays(s.live - {p}, s.mem, u.mem, q, store[q]);
    }
    forall j | 0 <= j < |store[p]|
      ensures Byte(u.mem, p, j) == store[p][i := v][j]
    {
      assert Byte(s.mem, p, j) == store[p][j];
    }
  }

  /** The blocks of the store are still there with their contents, whatever else is. */
  ghost predicate Kept(s: State, store: Store) {
    forall p :: p in store ==> p in s.live && |store[p]| <= Usable(s.live[p]) && Has(s.mem, p, store[p])
  }

  lemma HoldsKept(s: State, u: State, list: seq<HugeNode>, store: Store)
    requires Holds(s, list, store) && Survive(s, u)
    ensures Kept(s, store) && Kept(u, store)
  {
    forall p | p in store
      ensures p in u.live && |store[p]| <= Usable(u.live[p]) && Has(u.mem, p, store[p])
    {
      HasStays(s.live, s.mem, u.mem, p, store[p]);
    }
  }

  lemma WipedKept(s: State, u: State, list: seq<HugeNode>, store: Store, p: int, mapped: map<int, int>)
    requires Holds(s, list, store) && Wiped(s, u, p, mapped)
    ensures Kept(u, store - {p})
  {
  }

  /** How an operation fails: only these can. A failed one leaves all blocks as they were, but for a huge one that
      is resized to a size within a page of 2^64; or a collection has deleted the main chunk, which held none. */
  ghost predicate FailedWith(op: Op, store: Store, s: State, u: State, lost: bool) {
    match op
    case Alloc(_) => if lost then MainUnused(s) else Kept(u, store)
    case Resize(p, size, _, _) =>
      if lost then MainUnused(s)
      else Kept(u, store) || (WORD_VALUES < size + REAL_PAGE_SIZE && p in s.live && s.live[p].Huge? && Kept(u, store - {p}))
    case CollectGarbage => lost && MainUnused(s)
    case _ => false
  }

  method DoAlloc(heap: Heap, store: Store, size: nat) returns (ok: bool, after: Store)
    requires Serves(heap, store) && size < WORD_VALUES
    modifies heap
    ensures ok ==> Serves(heap, after) && Follows(Alloc(size), store, after)
    ensures !ok ==> FailedWith(Alloc(size), store, old(heap.State()), heap.State(), heap.lost)
    ensures CanServe(old(heap.State()), size) ==> ok
    ensures Inside(Alloc(size)) && old(Within(heap)) ==> Within(heap)
  {
    ghost var s, list := heap.State(), heap.hugeList;
    var p;
    ghost var node;
    p, node := AllocHeap(heap, size);
    ok, after := p != 0, store;
    if ok {
      after := store[p := Contents(heap.mem, p, size)];
      HoldsNew(s, heap.State(), list, p, KindFor(size), node, size, store);
    } else if !heap.lost {
      HoldsKept(s, heap.State(), list, store);
    }
  }

  method DoFree(heap: Heap, store: Store, p: int) returns (after: Store)
    requires Serves(heap, store) && (p == 0 || p in store)
    modifies heap
    ensures Serves(heap, after) && Follows(Free(p), store, after)
    ensures old(Within(heap)) ==> Within(heap)
  {
    ghost var s, list := heap.State(), heap.hugeList;
    NoZero(s);
    ghost var node := FreeHeap(heap, p);
    after := store - {p};
    if p != 0 {
      HoldsFreed(s, heap.State(), list, heap.hugeList, p, node, store);
    } else {
      assert after == store;
      HoldsZero(s, heap.State(), list, heap.hugeList, store);
    }
  }

  /** Freeing NULL does nothing. */
  lemma HoldsZero(s: State, u: State, list: seq<HugeNode>, now: seq<HugeNode>, store: Store)
    requires Holds(s, list, store) && u == s && forall d :: d in u.live ==> (IsNode(now, d) <==> IsNode(list, d))
    ensures Holds(u, now, store)
  {
  }

  lemma NotServed(s: State, size: nat)
    requires size < WORD_VALUES < size + REAL_PAGE_SIZE
    ensures !CanServe(s, size)
  {
  }

  method DoResize(heap: Heap, store: Store, p: int, size: nat, useCopy: bool, copy: nat) returns (ok: bool, after: Store)
    requires Serves(heap, store) && Legal(Resize(p, size, useCopy, copy), store)
    modifies heap
    ensures ok ==> Serves(heap, after) && Follows(Resize(p, size, useCopy, copy), store, after)
    ensures !ok ==> FailedWith(Resize(p, size, useCopy, copy), store, old(heap.State()), heap.State(), heap.lost)
    ensures CanServe(old(heap.State()), size) ==> ok
    ensures Inside(Resize(p, size, useCopy, copy)) && old(Within(heap)) ==> Within(heap)
  {
    ghost var s, list := heap.State(), heap.hugeList;
    NoZero(s);
    var q;
    ghost var node;
    var wiped;
    q, node, wiped := ReallocHeap(heap, p, size, useCopy, copy);
    ok, after := q != 0 && !wiped, store;
    if wiped {
      WipedKept(s, heap.State(), list, store, p, heap.Books().mapped);
      NotServed(s, size);
    } else if !ok {
      if !heap.lost {
        HoldsKept(s, heap.State(), list, store);
      }
    } else {
      after := (store - {p})[q := Contents(heap.mem, q, size)];
      if p == 0 {
        assert store - {p} == store;
        NoZero(heap.State());
        HoldsNewList(s, heap.State(), list, heap.hugeList, q, KindFor(size), node, size, store);
      } else {
        HoldsMoved(s, heap.State(), list, heap.hugeList, p, q, node, size, copy, store);
      }
    }
  }

  /** As HoldsNew, knowing only which blocks are nodes afterwards. */
  lemma HoldsNewList(s: State, u: State, list: seq<HugeNode>, now: seq<HugeNode>, p: int, k: Kind, node: int, size: nat, store: Store)
    requires ListOk(list, s.live) && Holds(s, list, store) && Got(s, u, p, k, node) && size <= Usable(k)
    requires NodesStay(list, now, u.live, node) && (!k.Huge? ==> node !in u.live)
    ensures Holds(u, now, store[p := Contents(u.mem, p, size)])
    ensures NewBlock(store, store[p := Contents(u.mem, p, size)], p, size)
  {
    HoldsNew(s, u, list, p, k, node, size, store);
    forall d | d in u.live
      ensures IsNode(now, d) <==> IsNode(ListAfter(list, p, k, node), d)
    {
      if k.Huge? {
        AddedNode(list, HugeNode(node, p, k.bytes), d);
      }
    }
  }

  method DoWrite(heap: Heap, store: Store, p: int, i: nat, v: int) returns (after: Store)
    requires Serves(heap, store) && p in store && i < |store[p]|
    modifies heap
    ensures Serves(heap, after) && Follows(Put(p, i, v), store, after)
    ensures old(Within(heap)) ==> Within(heap)
  {
    ghost var s := heap.State();
    Write(heap, p, i, v);
    after := store[p := store[p][i := v]];
    HoldsWrite(s, heap.State(), heap.hugeList, p, i, v, store);
  }

  method DoCollect(heap: Heap, store: Store) returns (ok: bool)
    requires Serves(heap, store)
    modifies heap
    ensures ok ==> Serves(heap, store)
    ensures !ok ==> FailedWith(CollectGarbage, store, old(heap.State()), heap.State(), heap.lost)
    ensures old(Within(heap)) ==> Within(heap)
  {
    ghost var s := heap.State();
    var n := Collect(heap);
    ok := !heap.lost;
    if ok {
      HoldsSame(s, heap.State(), heap.hugeList, store);
    }
  }

  method DoLimit(heap: Heap, store: Store, limit: nat)
    requires Serves(heap, store)
    modifies heap
    ensures Serves(heap, store)
    ensures Inside(SetLimit(limit)) && old(Within(heap)) ==> Within(heap)
  {
    ghost var s := heap.State();
    var done := SetMemoryLimit(heap, limit);
    HoldsSame(s, heap.State(), heap.hugeList, store);
  }

  method DoEnd(heap: Heap)
    requires Valid(heap)
    modifies heap
    ensures Serves(heap, map[])
    ensures old(Within(heap)) ==> Within(heap)
  {
    Shutdown(heap);
  }

  /** One operation. Not `ok`: it failed, which is where the run of a program ends. */
  method Do(heap: Heap, store: Store, op: Op) returns (ok: bool, after: Store)
    requires Serves(heap, store) && Legal(op, store)
    modifies heap
    ensures ok ==> Serves(heap, after) && Follows(op, store, after)
    ensures !ok ==> FailedWith(op, store, old(heap.State()), heap.State(), heap.lost)
    ensures op.Alloc? && CanServe(old(heap.State()), op.size) ==> ok
    ensures op.Resize? && CanServe(old(heap.State()), op.bytes) ==> ok
    ensures Inside(op) && old(Within(heap)) ==> Within(heap)
  {
    ok, after := true, store;
    match op
    case Alloc(size) => ok, after := DoAlloc(heap, store, size);
    case Free(p) => after := DoFree(heap, store, p);
    case Resize(p, size, useCopy, copy) => ok, after := DoResize(heap, store, p, size, useCopy, copy);
    case Put(p, i, v) => after := DoWrite(heap, store, p, i, v);
    case CollectGarbage => ok := DoCollect(heap, store);
    case SetLimit(limit) => DoLimit(heap, store, limit);
    case EndRequest =>
      DoEnd(heap);
      after := map[];
  }

  /** The stores of a run, one after each operation. */
  ghost predicate Behaves(ops: seq<Op>, trace: seq<Store>) {
    && 1 <= |trace| <= |ops| + 1 && trace[0] == map[]
    && forall i :: 0 <= i < |trace| - 1 ==> Legal(ops[i], trace[i]) && Follows(ops[i], trace[i], trace[i + 1])
  }

  lemma BehavesMore(ops: seq<Op>, trace: seq<Store>, after: Store)
    requires Behaves(ops, trace) && |trace| <= |ops|
    requires var i := |trace| - 1; Legal(ops[i], trace[i]) && Follows(ops[i], trace[i], after)
    ensures Behaves(ops, trace + [after])
  {
    var more := trace + [after];
    forall i | 0 <= i < |more| - 1
      ensures Legal(ops[i], more[i]) && Follows(ops[i], more[i], more[i + 1])
    {
      assert more[i] == trace[i];
    }
  }

  /** Any sequence of operations on a new heap behaves like one on the ideal store, up to its end, an illegal
      operation or a failed one; the blocks of its last store are apart and all the heap holds. `before` is the heap
      value before the operation that failed. */
  method Run(main: int, ops: seq<Op>) returns (heap: Heap, failed: bool, trace: seq<Store>, ghost before: State)
    requires 0 < main && main % CHUNK_SIZE == 0
    ensures fresh(heap) && Behaves(ops, trace)
    ensures !failed ==> Serves(heap, trace[|trace| - 1])
    ensures !failed ==> |trace| == |ops| + 1 || !Legal(ops[|trace| - 1], trace[|trace| - 1])
    ensures failed ==> |trace| <= |ops| && Sound(before) && Kept(before, trace[|trace| - 1])
    ensures failed ==> FailedWith(ops[|trace| - 1], trace[|trace| - 1], before, heap.State(), heap.lost)
    ensures (forall i :: 0 <= i < |ops| ==> Inside(ops[i])) ==> heap.realSize <= heap.limit < WORD_VALUES
  {
    heap := InitHeap(main);
    trace, failed := [map[]], false;
    before := heap.State();
    var store: Store := map[];
    while |trace| <= |ops| && Legal(ops[|trace| - 1], store)
      invariant Serves(heap, store) && fresh(heap) && !failed
      invariant (forall i :: 0 <= i < |ops| ==> Inside(ops[i])) ==> Within(heap)
      invariant Behaves(ops, trace) && store == trace[|trace| - 1]
      decreases |ops| + 1 - |trace|
    {
      before := heap.State();
      var ok, after := Do(heap, store, ops[|trace| - 1]);
      if !ok {
        failed := true;
        return;
      }
      BehavesMore(ops, trace, after);
      store := after;
      trace := trace + [after];
    }
  }
}
