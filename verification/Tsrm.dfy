// The operations of the thread-safe resource manager, each one step under its mutex.
module Tsrm {
  // A run is any sequence of them, with threads starting, ending without cleaning up, and thread ids being used
  // again.

  import opened TsrmTable
  import opened TsrmEntries

  class Manager {
    var chains: Chains
    var entries: Entries
    var types: Types
    var idCount: nat
    var reservedPos: nat
    var reservedSize: nat
    /** The pointer each thread keeps; a thread without one has no key here. */
    var tls: map<Thread, nat>
    /** Entries are numbered in the order in which they are made. */
    var nextEntry: nat
    ghost var log: seq<Event>

    ghost function State(): State
      reads this
    {
      TsrmTable.State.State(chains, entries, types, reservedPos, reservedSize, tls, nextEntry, log)
    }

    /** Between operations every entry has all resources. */
    ghost predicate Valid()
      reads this
    {
      Table(State()) && idCount == |State().types| && AllComplete(State().entries, idCount)
    }

    /** tsrm_startup. */
    constructor (expectedThreads: nat)
      requires expectedThreads > 0
      ensures Valid() && entries == map[] && types == [] && log == [] && tls == map[] && reservedSize == 0
      ensures chains == seq(expectedThreads, _ => [])
    {
      chains := seq(expectedThreads, _ => []);
      entries, types, idCount, reservedPos, reservedSize, tls, nextEntry, log := map[], [], 0, 0, 0, map[], 0, [];
      new;
      LogIs([], map[], 0);
      TableIs(State());
    }

    method Malloc() returns (p: int)
      ensures 0 < p
    {
      p := *;
      if p <= 0 {
        p := 1;
      }
    }

    // ---------- constructing instances ----------

    method StoreNext(e: nat, p: int)
      requires e in State().entries
      modifies this`entries, this`log
      ensures State() == NextStep(old(State()), e, p)
    {
      var r := entries[e];
      if p != 0 {
        log := log + [Made(e, |r.storage|)];
      }
      entries := entries[e := r.(storage := r.storage + [p])];
    }

    /** The next resource of an entry is constructed, in memory of its own or in its place in the entry. */
    method Construct(e: nat)
      requires Table(State()) && e in State().entries && |State().entries[e].storage| < |State().types|
      requires !State().types[|State().entries[e].storage|].done
      modifies this`entries, this`log
      ensures Table(State()) && Grown(old(State()), State(), e)
      ensures |State().entries[e].storage| == |old(State()).entries[e].storage| + 1
    {
      ghost var s := State();
      TableEntry(s, e);
      var t := types[|entries[e].storage|];
      var p := 0;
      if t.fastOffset != 0 {
        p := entries[e].base + t.fastOffset;
      } else {
        p := Malloc();
      }
      TableNext(s, e, p);
      StoreNext(e, p);
    }

    /** The same in a new entry, where a freed resource is NULL. */
    method MakeNext(e: nat)
      requires Table(State()) && e in State().entries && |State().entries[e].storage| < |State().types|
      modifies this`entries, this`log
      ensures Table(State()) && Grown(old(State()), State(), e)
      ensures |State().entries[e].storage| == |old(State()).entries[e].storage| + 1
    {
      if types[|entries[e].storage|].done {
        TableNext(State(), e, 0);
        StoreNext(e, 0);
      } else {
        Construct(e);
      }
    }

    /** All resources of a new entry. */
    method Complete(e: nat)
      requires Table(State()) && e in State().entries
      modifies this`entries, this`log
      ensures Table(State()) && Grown(old(State()), State(), e) && |State().entries[e].storage| == |State().types|
    {
      ghost var s := State();
      TableEntry(s, e);
      assert s.entries == s.entries[e := s.entries[e].(storage := s.entries[e].storage)];
      while |entries[e].storage| < |types|
        invariant Table(State()) && Grown(s, State(), e) && |State().entries[e].storage| <= |State().types|
        decreases |State().types| - |State().entries[e].storage|
      {
        ghost var u := State();
        MakeNext(e);
        GrownTwice(s, u, State(), e);
      }
    }

    /** The resources an entry lacks, from the n-th on. None of them has been freed, and none is tested for that. */
    method Extend(e: nat, ghost n: nat)
      requires Table(State()) && e in State().entries && FromOn(State(), n)
      modifies this`entries, this`log
      ensures Table(State()) && Grown(old(State()), State(), e) && |State().entries[e].storage| == |State().types|
    {
      ghost var s := State();
      TableEntry(s, e);
      assert s.entries == s.entries[e := s.entries[e].(storage := s.entries[e].storage)];
      while |entries[e].storage| < |types|
        invariant Table(State()) && Grown(s, State(), e) && |State().entries[e].storage| <= |State().types|
        decreases |State().types| - |State().entries[e].storage|
      {
        ghost var u := State();
        Construct(e);
        GrownTwice(s, u, State(), e);
      }
    }

    method CompleteAt(b: nat, j: nat, ghost n: nat)
      requires Table(State()) && ChainComplete(State(), b, j) && j < |State().chains[b]| && FromOn(State(), n)
      modifies this`entries, this`log
      ensures Table(State()) && AllGrown(old(State()), State()) && CompleteStay(old(State()), State())
      ensures ChainComplete(State(), b, j + 1)
    {
      ghost var s := State();
      TableChains(s);
      AllGrownSelf(s);
      var e := chains[b][j];
      TableEntry(s, e);
      if |entries[e].storage| < |types| {
        Extend(e, n);
        GrownMore(s, s, State(), e);
      }
    }

    /** The entries of one chain get their missing resources. */
    method CompleteChain(b: nat, ghost n: nat)
      requires Table(State()) && b < |State().chains| && FromOn(State(), n)
      modifies this`entries, this`log
      ensures Table(State()) && AllGrown(old(State()), State()) && CompleteStay(old(State()), State())
      ensures ChainComplete(State(), b, |State().chains[b]|)
    {
      ghost var s := State();
      AllGrownSelf(s);
      var j := 0;
      while j < |chains[b]|
        invariant Table(State()) && AllGrown(s, State()) && CompleteStay(s, State()) && ChainComplete(State(), b, j)
        decreases |s.chains[b]| - j
      {
        ghost var u := State();
        FromOnStays(s, u, n);
        CompleteAt(b, j, n);
        AllGrownTwice(s, u, State());
        j := j + 1;
      }
    }

    /** tsrm_update_active_threads: every entry has the first n resources and gets the others. */
    method UpdateActiveThreads(ghost n: nat)
      requires Table(State()) && FromOn(State(), n)
      modifies this`entries, this`log
      ensures Table(State()) && AllGrown(old(State()), State()) && AllComplete(State().entries, |State().types|)
    {
      ghost var s := State();
      AllGrownSelf(s);
      var b := 0;
      while b < |chains|
        invariant Table(State()) && AllGrown(s, State()) && 0 <= b <= |s.chains|
        invariant forall c :: 0 <= c < b ==> ChainComplete(State(), c, |s.chains[c]|)
      {
        ghost var u := State();
        FromOnStays(s, u, n);
        CompleteChain(b, n);
        AllGrownTwice(s, u, State());
        forall c | 0 <= c < b
          ensures ChainComplete(State(), c, |s.chains[c]|)
        {
          ChainStays(u, State(), c);
        }
        b := b + 1;
      }
      ChainsComplete(State(), |State().types|);
    }

    // ---------- registering resources ----------

    method Register(t: ResourceType)
      modifies this`types, this`reservedPos
      ensures State() == TypeStep(old(State()), t)
    {
      types := types + [t];
      if t.fastOffset != 0 {
        reservedPos := reservedPos + t.size;
      }
    }

    /** ts_allocate_id: the resource gets an id, and every thread an instance. */
    method AllocateId(size: nat, hasCtor: bool, hasDtor: bool) returns (id: nat)
      requires Valid()
      modifies this`types, this`reservedPos, this`idCount, this`entries, this`log
      ensures Valid() && id == old(idCount) + 1 == idCount
      ensures types == old(types) + [ResourceType(size, hasCtor, hasDtor, 0, false)] && reservedPos == old(reservedPos)
      ensures AllGrown(TypeStep(old(State()), ResourceType(size, hasCtor, hasDtor, 0, false)), State())
    {
      idCount := idCount + 1;
      id := idCount;
      var t := ResourceType(size, hasCtor, hasDtor, 0, false);
      TableType(State(), t);
      Register(t);
      UpdateActiveThreads(|old(State()).types|);
    }

    /** tsrm_reserve, at any time: when the table stays in order. */
    method Reserve(size: nat)
      requires Valid()
      modifies this`reservedPos, this`reservedSize
      ensures State() == ReserveStep(old(State()), size)
      ensures Valid() <==> ReserveSafe(old(State()), size)
    {
      ReserveIff(State(), size);
      reservedPos := 0;
      reservedSize := Aligned(size);
    }

    /** ts_allocate_fast_id. When the reserved space is used up the call fails, having counted the id already:
        the count of ids is then ahead of the table of types. */
    method AllocateFastId(size: nat, hasCtor: bool, hasDtor: bool) returns (id: nat, offset: nat)
      requires Valid()
      modifies this`types, this`reservedPos, this`idCount, this`entries, this`log
      ensures id != 0 <==> Aligned(size) <= old(reservedSize - reservedPos)
      ensures id != 0 ==> Valid() && id == old(idCount) + 1 && offset == HEADER + old(reservedPos)
      ensures id != 0 ==>
                AllGrown(TypeStep(old(State()), ResourceType(Aligned(size), hasCtor, hasDtor, offset, false)), State())
      ensures id != 0 ==> reservedPos == old(reservedPos) + Aligned(size)
                          && types == old(types) + [ResourceType(Aligned(size), hasCtor, hasDtor, offset, false)]
      ensures id == 0 ==> State() == old(State()) && idCount == old(idCount) + 1 == |State().types| + 1
    {
      ReservedFits(State());
      idCount := idCount + 1;
      var bytes := Aligned(size);
      if reservedSize - reservedPos < bytes {
        return 0, 0;
      }
      id, offset := idCount, HEADER + reservedPos;
      var t := ResourceType(bytes, hasCtor, hasDtor, offset, false);
      TableType(State(), t);
      Register(t);
      UpdateActiveThreads(|old(State()).types|);
    }

    // ---------- threads ----------

    /** ts_free_resources: the dtors run in decreasing order of ids; what is not freed already is destroyed. */
    ghost method FreeResources(e: nat)
      requires e in State().entries && |State().entries[e].storage| <= |State().types|
      modifies this`log
      ensures State() == old(State()).(log := old(State()).log + Teardown(e, types, |entries[e].storage|))
    {
      var i := |entries[e].storage|;
      while i > 0
        invariant 0 <= i <= |entries[e].storage|
        invariant log + Teardown(e, types, i) == old(log) + Teardown(e, types, |entries[e].storage|)
      {
        i := i - 1;
        if !types[i].done {
          assert log + Teardown(e, types, i + 1) == log + [Unmade(e, i)] + Teardown(e, types, i);
          log := log + [Unmade(e, i)];
        }
      }
    }

    /** The entry at position j of chain b is torn down and leaves the table; its thread has no pointer. */
    method Remove(b: nat, j: nat)
      requires Table(State()) && b < |State().chains| && j < |State().chains[b]|
      modifies this`chains, this`entries, this`tls, this`log
      ensures old(State()).chains[b][j] in old(State()).entries
      ensures |old(State()).entries[old(State()).chains[b][j]].storage| <= |old(State()).types|
      ensures Table(State()) && State() == RemoveStep(old(State()), b, j)
    {
      ghost var s := State();
      TableRemove(s, b, j);
      var e := chains[b][j];
      FreeResources(e);
      chains := chains[b := Cut(chains[b], j)];
      tls := tls - {entries[e].thread};
      entries := entries - {e};
    }

    /** Where the entry of a thread is in its chain; the length of the chain when it has none. */
    method Search(thread: Thread) returns (j: nat)
      requires Table(State()) && |State().chains| > 0
      ensures var s := State();
              var chain := s.chains[thread % |s.chains|];
              && j <= |chain|
              && (j < |chain| ==> chain[j] in s.entries && s.entries[chain[j]].thread == thread)
              && (j == |chain| ==> NoEntry(s, thread))
    {
      TableChains(State());
      var b := thread % |chains|;
      j := 0;
      while j < |chains[b]| && entries[chains[b][j]].thread != thread
        invariant j <= |chains[b]|
        invariant forall k :: 0 <= k < j ==> entries[chains[b][k]].thread != thread
      {
        j := j + 1;
      }
      if j == |chains[b]| {
        ChainSearched(State(), thread);
      }
    }

    /** A thread ends without calling ts_free_thread: its entry stays behind. */
    method ThreadEnds(t: Thread)
      requires Valid()
      modifies this`tls
      ensures Valid() && State() == old(State()).(tls := old(State()).tls - {t})
    {
      TableForget(State(), t);
      tls := tls - {t};
    }

    /** ts_free_thread, called by thread `current`. */
    method FreeThread(current: Thread)
      requires Valid()
      modifies this`chains, this`entries, this`tls, this`log
      ensures Valid() && NoEntry(State(), current) && OthersStay(old(State()), State(), current)
      ensures NoEntry(old(State()), current) ==> State() == old(State())
      ensures !NoEntry(old(State()), current) ==> exists b, j: nat ::
                var s := old(State());
                && 0 <= b < |s.chains| && j < |s.chains[b]| && s.chains[b][j] in s.entries
                && |s.entries[s.chains[b][j]].storage| <= |s.types| && s.entries[s.chains[b][j]].thread == current
                && State() == RemoveStep(s, b, j)
    {
      ghost var s := State();
      TableChains(s);
      var j := Search(current);
      var b := current % |chains|;
      if j < |chains[b]| {
        RemovedNone(s, b, j);
        Remove(b, j);
      }
    }

    /** allocate_new_resource: an entry for `thread` at position j of its chain, made by thread `current`. */
    method AllocateNewResource(j: nat, thread: Thread, current: Thread)
      requires Valid() && NoEntry(State(), thread) && current == thread
      requires |State().chains| > 0 && j <= |State().chains[thread % |State().chains|]|
      modifies this`chains, this`entries, this`tls, this`nextEntry, this`log
      ensures Valid() && current in State().tls && State().tls[current] == old(nextEntry)
      ensures exists base :: AllGrown(InsertStep(old(State()), j, base, thread, current), State())
      ensures OthersStay(old(State()), State(), thread)
    {
      ghost var s := State();
      FreshEntry(s);
      var base := Malloc();
      var e := nextEntry;
      TableInsert(s, j, base, thread, current);
      var b := thread % |chains|;
      chains := chains[b := Insert(chains[b], j, e)];
      entries := entries[e := Entry(base, HEADER + reservedSize, [], thread)];
      tls := tls[current := e];
      nextEntry := nextEntry + 1;
      ghost var t := State();
      assert t == InsertStep(s, j, base, thread, current);
      Complete(e);
      InsertedOthers(s, t, State(), j, base, thread);
    }

    /** A thread finds an entry of an earlier thread with its id: it is torn down and a new one takes its place. */
    method Renew(b: nat, j: nat, current: Thread)
      requires Valid() && b < |State().chains| && j < |State().chains[b]| && b == current % |State().chains|
      requires State().chains[b][j] in State().entries && State().entries[State().chains[b][j]].thread == current
      modifies this`chains, this`entries, this`tls, this`nextEntry, this`log
      ensures Valid() && current in State().tls && Renewed(old(State()), State(), current)
      ensures State().tls[current] == old(nextEntry)
      ensures OthersStay(old(State()), State(), current)
      ensures var chain: seq<nat> := old(State()).chains[b][j := old(State()).nextEntry];
              State().chains == old(State()).chains[b := chain]
    {
      ghost var s := State();
      RemovedNone(s, b, j);
      Replaced(s.chains[b], j, s.nextEntry);
      Remove(b, j);
      ghost var t := State();
      AllocateNewResource(j, current, current);
      RenewedOthers(s, t, State(), b, j, current);
    }

    /** The slow path of ts_resource_ex up to the entry; `again` when the thread had none and one was made. */
    method FindEntry(current: Thread) returns (e: nat, again: bool)
      requires Valid()
      modifies this`chains, this`entries, this`tls, this`nextEntry, this`log
      ensures Valid() && current in State().tls && e == State().tls[current] && e in State().entries
      ensures old(current in State().tls) ==> State() == old(State())
      ensures old(current !in State().tls) ==> State().tls[current] == old(nextEntry)
      ensures OthersStay(old(State()), State(), current)
      ensures again <==> NoEntry(old(State()), current)
      ensures again ==> exists base ::
                        var s := old(State());
                        0 < |s.chains| &&
                        AllGrown(InsertStep(s, |s.chains[current % |s.chains|]|, base, current, current), State())
      ensures old(current !in State().tls) && !again ==> Renewed(old(State()), State(), current)
    {
      ghost var s := State();
      TableChains(s);
      var b := current % |chains|;
      var j := Search(current);
      again := j == |chains[b]|;
      if again {
        NoPointer(s, current);
        AllocateNewResource(j, current, current);
        e := tls[current];
      } else {
        e := chains[b][j];
        if current !in tls {
          Renew(b, j, current);
          e := tls[current];
        }
      }
      PointerIsEntry(State(), current);
    }

    /** ts_resource_ex, called by a thread for a resource of its own; `byId` when it passes its id. Fast and
        slow path return the same. */
    method Fetch(id: nat, current: Thread, byId: bool) returns (r: Fetched)
      requires Valid() && id <= idCount
      modifies this`chains, this`entries, this`tls, this`nextEntry, this`log
      ensures Valid() && current in State().tls && State().tls[current] in State().entries
      ensures State().entries[State().tls[current]].thread == current
      ensures id <= |State().entries[State().tls[current]].storage| == |State().types|
      ensures id == 0 ==> r == WholeArray(State().tls[current])
      ensures id > 0 ==> r == Slot(State().entries[State().tls[current]].storage[id - 1])
      ensures id > 0 ==> (r == Slot(0) <==> State().types[id - 1].done)
      ensures id > 0 && !State().types[id - 1].done && State().types[id - 1].fastOffset != 0 ==>
                r == Slot(State().entries[State().tls[current]].base + State().types[id - 1].fastOffset)
      ensures id > 0 && !State().types[id - 1].done ==>
                Made(State().tls[current], id - 1) in State().log && Unmade(State().tls[current], id - 1) !in State().log
      ensures old(current in State().tls) ==> State() == old(State())
      ensures old(current !in State().tls) ==> State().tls[current] == old(nextEntry)
      ensures OthersStay(old(State()), State(), current)
      decreases if NoEntry(State(), current) then 1 else 0
    {
      if !byId && current in tls {
        r := SafeReturn(current, id);
        return;
      }
      var e, again := FindEntry(current);
      if again {
        PointerIsEntry(State(), current);
        r := Fetch(id, current, true);
      } else {
        r := SafeReturn(current, id);
      }
    }

    /** TSRM_SAFE_RETURN_RSRC on the entry of a thread that has a pointer. */
    method SafeReturn(current: Thread, id: nat) returns (r: Fetched)
      requires Valid() && id <= idCount && current in State().tls
      ensures var s, e := State(), State().tls[current];
              && e in s.entries && s.entries[e].thread == current && |s.entries[e].storage| == |s.types|
              && (id == 0 ==> r == WholeArray(e))
              && (id > 0 ==>
                    var t := s.types[id - 1];
                    && r == Slot(s.entries[e].storage[id - 1]) && (r == Slot(0) <==> t.done)
                    && (!t.done && t.fastOffset != 0 ==> r == Slot(s.entries[e].base + t.fastOffset))
                    && (!t.done ==> Made(e, id - 1) in s.log && Unmade(e, id - 1) !in s.log))
    {
      PointerIsEntry(State(), current);
      var e := tls[current];
      if id == 0 {
        return WholeArray(e);
      }
      PointerOf(State(), e, id - 1);
      return Slot(entries[e].storage[id - 1]);
    }

    // ---------- freeing a resource, and everything ----------

    /** The instance of resource i in entry e, if there is one, is destroyed. */
    method FreeIn(e: nat, i: nat)
      requires Freeing(State(), i) && e in State().entries
      modifies this`entries, this`log
      ensures Freeing(State(), i) && Without(State(), e, i)
      ensures forall s :: SomeLost(s, old(State()), i) ==> SomeLost(s, State(), i)
      ensures forall f :: Without(old(State()), f, i) ==> Without(State(), f, i)
      ensures State().chains == old(State()).chains
    {
      ghost var u := State();
      var r := entries[e];
      if |r.storage| > i && r.storage[i] != 0 {
        FreeingStep(u, e, i);
        forall s | SomeLost(s, u, i)
          ensures SomeLost(s, UnmakeStep(u, e, i), i)
        {
          LostOne(s, u, e, i);
        }
        LostSelf(u, i);
        LostOne(u, u, e, i);
        log := log + [Unmade(e, i)];
        entries := entries[e := r.(storage := r.storage[i := 0])];
        assert State() == UnmakeStep(u, e, i);
      }
    }

    method FreeInChain(b: nat, i: nat)
      requires Freeing(State(), i) && b < |State().chains|
      modifies this`entries, this`log
      ensures Freeing(State(), i) && ChainWithout(State(), b, |State().chains[b]|, i)
      ensures SomeLost(old(State()), State(), i)
      ensures forall f :: Without(old(State()), f, i) ==> Without(State(), f, i)
    {
      ghost var s := State();
      LostSelf(s, i);
      var j := 0;
      while j < |chains[b]|
        invariant Freeing(State(), i) && ChainWithout(State(), b, j, i) && SomeLost(s, State(), i)
        invariant forall f :: Without(s, f, i) ==> Without(State(), f, i)
        invariant chains == s.chains && j <= |s.chains[b]|
        decreases |s.chains[b]| - j
      {
        FreeingChains(State(), i);
        FreeIn(chains[b][j], i);
        j := j + 1;
      }
    }

    /** ts_free_id: the instances of the resource are destroyed in all threads, and no thread gets one again. */
    method FreeId(id: nat)
      requires Valid() && 1 <= id <= idCount
      modifies this`entries, this`log, this`types
      ensures Valid() && State().types == old(State()).types[id - 1 := old(State()).types[id - 1].(done := true)]
      ensures forall e :: e in State().entries ==> Without(State(), e, id - 1)
      ensures SomeLost(old(State()), State().(types := old(State()).types), id - 1)
    {
      ghost var s := State();
      var i := id - 1;
      FreeingStarts(s, i);
      LostSelf(s, i);
      var b := 0;
      while b < |chains|
        invariant Freeing(State(), i) && 0 <= b <= |s.chains| && SomeLost(s, State(), i)
        invariant forall c :: 0 <= c < b ==> ChainWithout(State(), c, |s.chains[c]|, i)
      {
        ghost var u := State();
        FreeInChain(b, i);
        LostTwice(s, u, State(), i);
        b := b + 1;
      }
      NoneLeft(State(), i);
      FreeingEnds(State(), i);
      types := types[i := types[i].(done := true)];
    }

    /** tsrm_shutdown: all entries are torn down; every instance ever constructed has then been destroyed. */
    method Shutdown()
      requires Valid()
      modifies this`chains, this`entries, this`tls, this`log
      ensures Table(State()) && State().entries == map[] && old(State()).log <= State().log
      ensures forall e, i :: Made(e, i) in State().log <==> Unmade(e, i) in State().log
    {
      var b := 0;
      TableChains(State());
      while b < |chains|
        invariant Table(State()) && 0 <= b <= |chains| == |old(chains)| && old(log) <= State().log
        invariant forall c :: 0 <= c < b ==> chains[c] == []
        decreases |chains| - b
      {
        while chains[b] != []
          invariant Table(State()) && b < |chains| == |old(chains)| && old(log) <= State().log
          invariant forall c :: 0 <= c < b ==> chains[c] == []
          decreases |chains[b]|
        {
          Remove(b, 0);
        }
        b := b + 1;
      }
      EmptyChains(State());
      AllDestroyed(State());
    }
  }
}
