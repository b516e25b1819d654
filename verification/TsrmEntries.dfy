/** Entries joining and leaving the table of the thread-safe resource manager. */
module TsrmEntries {
  import opened TsrmTable

  // ---------- tearing down ----------

  function Nulls(n: nat): (r: seq<int>)
    ensures |r| == n && forall i :: 0 <= i < n ==> r[i] == 0
  {
    seq(n, _ => 0)
  }

  /** The entries with all pointers of e gone. */
  function Torn(entries: Entries, e: nat): Entries
    requires e in entries
  {
    entries[e := entries[e].(storage := Nulls(|entries[e].storage|))]
  }

  lemma TornAnyway(entries: Entries, e: nat, s: seq<int>)
    requires e in entries && |s| == |entries[e].storage|
    ensures Torn(entries[e := entries[e].(storage := s)], e) == Torn(entries, e)
    ensures (forall i :: 0 <= i < |s| ==> s[i] == 0) ==> Torn(entries, e) == entries[e := entries[e].(storage := s)]
  {
    if forall i :: 0 <= i < |s| ==> s[i] == 0 {
      assert s == Nulls(|s|);
    }
  }

  /** Destroying the first n resources of e, the others being gone already. */
  lemma {:induction false} LogTorn(log: seq<Event>, entries: Entries, next: nat, e: nat, types: Types, n: nat)
    requires LogOk(log, entries, next) && e in entries && n <= |entries[e].storage| <= |types|
    requires forall j :: 0 <= j < n ==> (entries[e].storage[j] == 0 <==> types[j].done)
    requires forall j :: n <= j < |entries[e].storage| ==> entries[e].storage[j] == 0
    ensures LogOk(log + Teardown(e, types, n), Torn(entries, e), next)
    decreases n
  {
    var s := entries[e].storage;
    if n == 0 {
      TornAnyway(entries, e, s);
      assert log + [] == log && entries[e := entries[e].(storage := s)] == entries;
    } else if types[n - 1].done {
      LogTorn(log, entries, next, e, types, n - 1);
    } else {
      LogUnmakes(log, entries, next, e, n - 1);
      TornAnyway(entries, e, s[n - 1 := 0]);
      var less := entries[e := entries[e].(storage := s[n - 1 := 0])];
      LogTorn(log + [Unmade(e, n - 1)], less, next, e, types, n - 1);
      assert log + [Unmade(e, n - 1)] + Teardown(e, types, n - 1) == log + Teardown(e, types, n);
    }
  }

  lemma LogRemoved(log: seq<Event>, entries: Entries, next: nat, e: nat, types: Types)
    requires LogOk(log, entries, next) && e in entries && EntryOk(entries[e], types)
    ensures LogOk(log + Teardown(e, types, |entries[e].storage|), entries - {e}, next)
  {
    var more := log + Teardown(e, types, |entries[e].storage|);
    LogTorn(log, entries, next, e, types, |entries[e].storage|);
    LogGone(more, Torn(entries, e), next, e);
    assert Torn(entries, e) - {e} == entries - {e};
  }

  // ---------- chains ----------

  function Cut(s: seq<nat>, j: nat): (r: seq<nat>)
    requires j < |s|
    ensures |r| == |s| - 1 && forall k :: 0 <= k < |r| ==> r[k] == s[if k < j then k else k + 1]
  {
    s[..j] + s[j + 1..]
  }

  function Insert(s: seq<nat>, j: nat, e: nat): (r: seq<nat>)
    requires j <= |s|
    ensures |r| == |s| + 1 && r[j] == e
    ensures forall k :: 0 <= k < |r| && k != j ==> r[k] == s[if k < j then k else k - 1]
  {
    s[..j] + [e] + s[j..]
  }

  lemma CutMembers(s: seq<nat>, j: nat)
    requires j < |s| && NoTwice(s)
    ensures NoTwice(Cut(s, j)) && forall e :: e in Cut(s, j) <==> e in s && e != s[j]
  {
    var r := Cut(s, j);
    forall e | e in s && e != s[j]
      ensures e in r
    {
      var k :| 0 <= k < |s| && s[k] == e;
      assert r[if k < j then k else k - 1] == e;
    }
    forall e | e in r
      ensures e in s && e != s[j]
    {
      var k :| 0 <= k < |r| && r[k] == e;
      assert s[if k < j then k else k + 1] == e;
    }
  }

  lemma InsertMembers(s: seq<nat>, j: nat, e: nat)
    requires j <= |s| && NoTwice(s) && e !in s
    ensures NoTwice(Insert(s, j, e)) && forall f :: f in Insert(s, j, e) <==> f in s || f == e
  {
    var r := Insert(s, j, e);
    forall f | f in s
      ensures f in r
    {
      var k :| 0 <= k < |s| && s[k] == f;
      assert r[if k < j then k else k + 1] == f;
    }
  }

  /** Removing an entry and putting another in its place leaves its neighbours in the chain. */
  lemma Replaced(s: seq<nat>, j: nat, e: nat)
    requires j < |s|
    ensures Insert(Cut(s, j), j, e) == s[j := e]
  {
  }

  // ---------- an entry leaves ----------

  function RemoveStep(s: State, b: nat, j: nat): State
    requires b < |s.chains| && j < |s.chains[b]| && s.chains[b][j] in s.entries
    requires |s.entries[s.chains[b][j]].storage| <= |s.types|
  {
    var e := s.chains[b][j];
    s.(chains := s.chains[b := Cut(s.chains[b], j)],
       entries := s.entries - {e},
       tls := s.tls - {s.entries[e].thread},
       log := s.log + Teardown(e, s.types, |s.entries[e].storage|))
  }

  lemma ShapeRemoved(s: State, b: nat, j: nat)
    requires Shape(s.chains, s.entries, s.nextEntry) && b < |s.chains| && j < |s.chains[b]|
    ensures Shape(s.chains[b := Cut(s.chains[b], j)], s.entries - {s.chains[b][j]}, s.nextEntry)
  {
    var e, chains := s.chains[b][j], s.chains[b := Cut(s.chains[b], j)];
    CutMembers(s.chains[b], j);
    forall c, k | 0 <= c < |chains| && 0 <= k < |chains[c]|
      ensures chains[c][k] in s.entries - {e} && s.entries[chains[c][k]].thread % |chains| == c
    {
      if c == b {
        assert chains[c][k] in chains[c];
      } else {
        assert s.entries[e].thread % |chains| == b;
      }
    }
  }

  lemma TableRemove(s: State, b: nat, j: nat)
    requires Table(s) && b < |s.chains| && j < |s.chains[b]|
    ensures s.chains[b][j] in s.entries && |s.entries[s.chains[b][j]].storage| <= |s.types|
    ensures Table(RemoveStep(s, b, j))
  {
    TableIs(s);
    ShapeRemoved(s, b, j);
    LogRemoved(s.log, s.entries, s.nextEntry, s.chains[b][j], s.types);
    TableIs(RemoveStep(s, b, j));
  }

  // ---------- an entry joins ----------

  /** A new entry for `thread` at position j of its chain; thread `current` keeps the pointer to it. */
  function InsertStep(s: State, j: nat, base: int, thread: Thread, current: Thread): State
    requires |s.chains| > 0 && j <= |s.chains[thread % |s.chains|]|
  {
    var b := thread % |s.chains|;
    s.(chains := s.chains[b := Insert(s.chains[b], j, s.nextEntry)],
       entries := s.entries[s.nextEntry := Entry(base, HEADER + s.reservedSize, [], thread)],
       tls := s.tls[current := s.nextEntry],
       nextEntry := s.nextEntry + 1)
  }

  ghost predicate NoEntry(s: State, thread: Thread) {
    forall e :: e in s.entries ==> s.entries[e].thread != thread
  }

  lemma ShapeInserted(s: State, j: nat, r: Entry)
    requires Shape(s.chains, s.entries, s.nextEntry) && NoEntry(s, r.thread)
    requires j <= |s.chains[r.thread % |s.chains|]|
    ensures var b := r.thread % |s.chains|;
            Shape(s.chains[b := Insert(s.chains[b], j, s.nextEntry)], s.entries[s.nextEntry := r], s.nextEntry + 1)
  {
    var b := r.thread % |s.chains|;
    var chains, entries := s.chains[b := Insert(s.chains[b], j, s.nextEntry)], s.entries[s.nextEntry := r];
    assert forall k :: 0 <= k < |s.chains[b]| ==> s.chains[b][k] in s.entries;
    InsertMembers(s.chains[b], j, s.nextEntry);
    forall c, k | 0 <= c < |chains| && 0 <= k < |chains[c]|
      ensures chains[c][k] in entries && entries[chains[c][k]].thread % |chains| == c
    {
      if c == b && k != j {
        assert chains[c][k] == s.chains[b][if k < j then k else k - 1];
      }
    }
  }

  /** A thread's pointer agrees with the table afterwards exactly when the entry is made for the thread that
      asks. A thread asking for another one's resources gets a pointer to an entry that is not its own. */
  lemma TlsInserted(tls: map<Thread, nat>, entries: Entries, e: nat, r: Entry, current: Thread)
    requires TlsAgrees(tls, entries) && e !in entries
    ensures TlsAgrees(tls[current := e], entries[e := r]) <==> current == r.thread
  {
    assert tls[current := e][current] == e;
  }

  lemma EntriesInserted(entries: Entries, types: Types, bytes: nat, e: nat, r: Entry)
    requires EntriesOk(entries, types, bytes) && r.storage == [] && 0 < r.base && r.bytes == bytes
    ensures EntriesOk(entries[e := r], types, bytes)
  {
  }

  lemma TableInsert(s: State, j: nat, base: int, thread: Thread, current: Thread)
    requires Table(s) && NoEntry(s, thread) && 0 < base
    requires |s.chains| > 0 && j <= |s.chains[thread % |s.chains|]|
    ensures var t := InsertStep(s, j, base, thread, current);
            && (TlsAgrees(t.tls, t.entries) <==> current == thread)
            && (current == thread ==> Table(t))
  {
    TableIs(s);
    var r := Entry(base, HEADER + s.reservedSize, [], thread);
    var t := InsertStep(s, j, base, thread, current);
    TlsInserted(s.tls, s.entries, s.nextEntry, r, current);
    if current == thread {
      InsertedOwn(s, j, base, thread);
    }
  }

  lemma FreshEntry(s: State)
    requires Table(s)
    ensures s.nextEntry !in s.entries
  {
    TableIs(s);
  }

  lemma InsertedShape(s: State, j: nat, r: Entry)
    requires Table(s) && NoEntry(s, r.thread) && |s.chains| > 0 && j <= |s.chains[r.thread % |s.chains|]|
    ensures var b := r.thread % |s.chains|;
            Shape(s.chains[b := Insert(s.chains[b], j, s.nextEntry)], s.entries[s.nextEntry := r], s.nextEntry + 1)
  {
    TableIs(s);
    ShapeInserted(s, j, r);
  }

  lemma InsertedRest(s: State, r: Entry)
    requires Table(s) && r.storage == [] && 0 < r.base && r.bytes == HEADER + s.reservedSize
    ensures LogOk(s.log, s.entries[s.nextEntry := r], s.nextEntry + 1)
    ensures TlsAgrees(s.tls[r.thread := s.nextEntry], s.entries[s.nextEntry := r])
    ensures EntriesOk(s.entries[s.nextEntry := r], s.types, HEADER + s.reservedSize)
    ensures FastOk(s.types, s.reservedPos, s.reservedSize)
  {
    FreshEntry(s);
    TableIs(s);
    LogNew(s.log, s.entries, s.nextEntry, r);
    TlsInserted(s.tls, s.entries, s.nextEntry, r, r.thread);
    EntriesInserted(s.entries, s.types, HEADER + s.reservedSize, s.nextEntry, r);
  }

  lemma InsertedOwn(s: State, j: nat, base: int, thread: Thread)
    requires Table(s) && NoEntry(s, thread) && 0 < base
    requires |s.chains| > 0 && j <= |s.chains[thread % |s.chains|]|
    ensures Table(InsertStep(s, j, base, thread, thread))
  {
    var r := Entry(base, HEADER + s.reservedSize, [], thread);
    InsertedShape(s, j, r);
    InsertedRest(s, r);
    TableIs(InsertStep(s, j, base, thread, thread));
  }

  // ---------- a resource type is registered ----------

  function TypeStep(s: State, t: ResourceType): State {
    s.(types := s.types + [t], reservedPos := if t.fastOffset == 0 then s.reservedPos else s.reservedPos + t.size)
  }

  lemma TypesMore(r: Entry, types: Types, t: ResourceType)
    requires EntryOk(r, types)
    ensures EntryOk(r, types + [t])
  {
    assert forall i :: 0 <= i < |types| ==> (types + [t])[i] == types[i];
  }

  lemma TableType(s: State, t: ResourceType)
    requires Table(s)
    requires t.fastOffset == 0 || (t.size % 16 == 0 && t.fastOffset == HEADER + s.reservedPos && s.reservedPos + t.size <= s.reservedSize)
    ensures Table(TypeStep(s, t))
  {
    TableIs(s);
    FastMore(s.types, s.reservedPos, s.reservedSize, t);
    forall e | e in s.entries
      ensures EntryOk(s.entries[e], s.types + [t])
    {
      TypesMore(s.entries[e], s.types, t);
    }
    TableIs(TypeStep(s, t));
  }

  // ---------- space is reserved ----------

  /** tsrm_reserve. */
  function ReserveStep(s: State, size: nat): State {
    s.(reservedPos := 0, reservedSize := Aligned(size))
  }

  /** No entry is of another length, and no fast resource has bytes in the space. */
  ghost predicate ReserveSafe(s: State, size: nat) {
    && (forall e :: e in s.entries ==> s.entries[e].bytes == HEADER + Aligned(size))
    && (forall i :: 0 <= i < |s.types| ==> !Occupies(s.types[i]))
  }

  lemma PlacedIff(t: ResourceType, pos: nat)
    requires Placed(t, pos)
    ensures Placed(t, 0) <==> !Occupies(t)
  {
  }

  /** Reserving keeps the table in order exactly then: at the start, and later only where it changes nothing that
      is in use. */
  lemma ReserveIff(s: State, size: nat)
    requires Table(s)
    ensures Table(ReserveStep(s, size)) <==> ReserveSafe(s, size)
  {
    TableIs(s);
    TableIs(ReserveStep(s, size));
    forall i | 0 <= i < |s.types|
      ensures Placed(s.types[i], 0) <==> !Occupies(s.types[i])
    {
      PlacedIff(s.types[i], s.reservedPos);
    }
  }

  /** Whether every fast resource that a new reservation lets in fits into the entries there are: exactly when the
      reservation is not longer than the one before. */
  lemma ReservedLongerIff(s: State, size: nat, e: nat)
    requires Table(s) && e in s.entries
    ensures (forall bytes: nat :: Aligned(bytes) <= Aligned(size) ==> HEADER + Aligned(bytes) <= s.entries[e].bytes)
       <==> Aligned(size) <= s.reservedSize
  {
    TableIs(s);
    assert s.entries[e].bytes == HEADER + s.reservedSize;
    if forall bytes: nat :: Aligned(bytes) <= Aligned(size) ==> HEADER + Aligned(bytes) <= s.entries[e].bytes {
      assert Aligned(size) <= Aligned(size);
    }
  }

  /** The next fast resource, as ts_allocate_fast_id makes it. */
  function NextFast(s: State, size: nat): ResourceType {
    ResourceType(Aligned(size), true, true, HEADER + s.reservedPos, false)
  }

  /** Reserving and registering twice from a table without entries and resources: after the first time it is in
      order, after the second the two fast resources begin at the same place. */
  lemma ReservedTwice(s: State, first: nat, second: nat)
    requires Table(s) && s.entries == map[] && s.types == [] && 0 < first && 0 < second
    ensures var u := ReserveStep(s, first);
            var v := TypeStep(u, NextFast(u, first));
            var w := ReserveStep(v, second);
            var x := TypeStep(w, NextFast(w, second));
            && Table(u) && Table(v) && !Table(w) && !Table(x)
            && x.types[0].fastOffset == x.types[1].fastOffset && 0 < x.types[0].size && 0 < x.types[1].size
  {
    var u := ReserveStep(s, first);
    ReserveIff(s, first);
    TableType(u, NextFast(u, first));
    var v := TypeStep(u, NextFast(u, first));
    ReserveIff(v, second);
    assert Occupies(v.types[0]);
    var w := ReserveStep(v, second);
    var x := TypeStep(w, NextFast(w, second));
    TableIs(v);
    NextFastIff(v.types, v.reservedPos, v.reservedSize, NextFast(w, second), w.reservedSize);
    TableIs(x);
  }

  lemma ReservedFits(s: State)
    requires Table(s)
    ensures s.reservedPos <= s.reservedSize
  {
    TableIs(s);
  }

  /** A thread loses its pointer. */
  lemma TableForget(s: State, t: Thread)
    requires Table(s)
    ensures Table(s.(tls := s.tls - {t}))
  {
    TableIs(s);
    TableIs(s.(tls := s.tls - {t}));
  }

  // ---------- looking up ----------

  lemma InChain(s: State, e: nat) returns (k: nat)
    requires Table(s) && e in s.entries
    ensures |s.chains| > 0
    ensures k < |s.chains[s.entries[e].thread % |s.chains|]| && s.chains[s.entries[e].thread % |s.chains|][k] == e
  {
    TableIs(s);
    k :| 0 <= k < |s.chains[s.entries[e].thread % |s.chains|]| && s.chains[s.entries[e].thread % |s.chains|][k] == e;
  }

  /** The entry of a thread, if it has one, is in the chain of its hash value. */
  lemma ChainSearched(s: State, thread: Thread)
    requires Table(s) && |s.chains| > 0
    requires forall k :: 0 <= k < |s.chains[thread % |s.chains|]| ==>
               s.chains[thread % |s.chains|][k] in s.entries ==> s.entries[s.chains[thread % |s.chains|][k]].thread != thread
    ensures NoEntry(s, thread)
  {
    forall e | e in s.entries
      ensures s.entries[e].thread != thread
    {
      var k := InChain(s, e);
    }
  }

  /** A thread with a pointer has an entry, and that is it. */
  lemma PointerIsEntry(s: State, t: Thread)
    requires Table(s) && t in s.tls
    ensures s.tls[t] in s.entries && s.entries[s.tls[t]].thread == t
    ensures forall e :: e in s.entries && s.entries[e].thread == t ==> e == s.tls[t]
  {
    TableIs(s);
  }

  // ---------- completing entries ----------

  /** Only the storage of entry e, which has got longer, and the record have changed. */
  ghost predicate Grown(s: State, u: State, e: nat) {
    && u == s.(entries := u.entries, log := u.log)
    && e in s.entries && e in u.entries && u.entries == s.entries[e := s.entries[e].(storage := u.entries[e].storage)]
    && s.entries[e].storage <= u.entries[e].storage
  }

  /** Only storages, which have got longer, and the record have changed. */
  ghost predicate AllGrown(s: State, u: State) {
    && u == s.(entries := u.entries, log := u.log) && u.entries.Keys == s.entries.Keys
    && forall e :: e in s.entries ==>
         u.entries[e] == s.entries[e].(storage := u.entries[e].storage) && s.entries[e].storage <= u.entries[e].storage
  }

  lemma GrownMore(s: State, u: State, v: State, e: nat)
    requires AllGrown(s, u) && Grown(u, v, e)
    ensures AllGrown(s, v)
    ensures forall f :: f in u.entries && f != e ==> v.entries[f] == u.entries[f]
  {
  }

  lemma GrownTwice(s: State, u: State, v: State, e: nat)
    requires Grown(s, u, e) && Grown(u, v, e)
    ensures Grown(s, v, e)
  {
  }

  lemma AllGrownSelf(s: State)
    ensures AllGrown(s, s)
  {
  }

  lemma AllGrownTwice(s: State, u: State, v: State)
    requires AllGrown(s, u) && AllGrown(u, v)
    ensures AllGrown(s, v)
  {
  }

  /** Every entry has the first n resources, and the others have not been freed. */
  ghost predicate FromOn(s: State, n: nat) {
    && (forall e :: e in s.entries ==> n <= |s.entries[e].storage|)
    && (forall i :: n <= i < |s.types| ==> !s.types[i].done)
  }

  lemma FromOnStays(s: State, u: State, n: nat)
    requires FromOn(s, n) && AllGrown(s, u)
    ensures FromOn(u, n)
  {
  }

  /** The first j entries of chain b have all resources. */
  ghost predicate ChainComplete(s: State, b: nat, j: nat) {
    b < |s.chains| && j <= |s.chains[b]| &&
    forall k :: 0 <= k < j ==> s.chains[b][k] in s.entries && |s.entries[s.chains[b][k]].storage| == |s.types|
  }

  /** Entries that had all resources are as they were. */
  ghost predicate CompleteStay(s: State, u: State) {
    forall e :: e in s.entries && |s.entries[e].storage| == |s.types| ==> e in u.entries && u.entries[e] == s.entries[e]
  }

  lemma ChainsComplete(s: State, n: nat)
    requires Table(s) && n == |s.types| && forall b :: 0 <= b < |s.chains| ==> ChainComplete(s, b, |s.chains[b]|)
    ensures AllComplete(s.entries, n)
  {
    forall e | e in s.entries
      ensures |s.entries[e].storage| == n
    {
      var k := InChain(s, e);
      assert ChainComplete(s, s.entries[e].thread % |s.chains|, |s.chains[s.entries[e].thread % |s.chains|]|);
    }
  }

  lemma ChainStays(s: State, u: State, b: nat)
    requires b < |s.chains| && ChainComplete(s, b, |s.chains[b]|) && AllGrown(s, u) && CompleteStay(s, u)
    ensures ChainComplete(u, b, |u.chains[b]|)
  {
  }

  // ---------- fetching ----------

  /** What ts_resource_ex returns: the array of all resources for id 0, else the pointer of one resource. */
  datatype Fetched = WholeArray(entry: nat) | Slot(pointer: int)

  /** The pointer of resource i in a complete entry: NULL exactly for a freed one, in place for a fast one, and else
      an instance that has been constructed and not destroyed. */
  lemma PointerOf(s: State, e: nat, i: nat)
    requires Table(s) && e in s.entries && |s.entries[e].storage| == |s.types| && i < |s.types|
    ensures var p, t := s.entries[e].storage[i], s.types[i];
            && (p == 0 <==> t.done)
            && (!t.done ==> Made(e, i) in s.log && Unmade(e, i) !in s.log)
            && (!t.done && t.fastOffset != 0 ==> p == s.entries[e].base + t.fastOffset)
  {
    TableIs(s);
    RecordIs(s);
    assert EntryOk(s.entries[e], s.types);
    assert Live(s.entries, e, i) <==> s.entries[e].storage[i] != 0;
    assert Open(s.log, e, i) <==> Live(s.entries, e, i);
  }

  /** A stale entry has been replaced in its place. */
  ghost predicate Renewed(s: State, u: State, thread: Thread) {
    exists b: nat, j: nat, base: int ::
      && b == thread % (if |s.chains| > 0 then |s.chains| else 1)
      && b < |s.chains| && j < |s.chains[b]| && s.chains[b][j] in s.entries && s.entries[s.chains[b][j]].thread == thread
      && |s.entries[s.chains[b][j]].storage| <= |s.types|
      && AllGrown(InsertStep(RemoveStep(s, b, j), j, base, thread, thread), u)
  }

  /** The entries of the other threads are the same. */
  ghost predicate OthersStay(s: State, u: State, thread: Thread) {
    && (forall e :: e in s.entries && s.entries[e].thread != thread ==> e in u.entries && u.entries[e] == s.entries[e])
    && (forall e :: e in u.entries && u.entries[e].thread != thread ==> e in s.entries && s.entries[e] == u.entries[e])
  }

  /** Once an entry is gone, its thread has none. */
  lemma RemovedNone(s: State, b: nat, j: nat)
    requires Table(s) && b < |s.chains| && j < |s.chains[b]|
    ensures s.chains[b][j] in s.entries && |s.entries[s.chains[b][j]].storage| <= |s.types|
    ensures s.entries[s.chains[b][j]].thread % |s.chains| == b
    ensures NoEntry(RemoveStep(s, b, j), s.entries[s.chains[b][j]].thread)
  {
    TableIs(s);
  }

  /** After the steps of a renewal, the entries of the other threads are as before. */
  lemma RenewedOthers(s: State, t: State, u: State, b: nat, j: nat, thread: Thread)
    requires b < |s.chains| && j < |s.chains[b]| && s.chains[b][j] in s.entries && s.entries[s.chains[b][j]].thread == thread
    requires |s.entries[s.chains[b][j]].storage| <= |s.types| && t == RemoveStep(s, b, j) && OthersStay(t, u, thread)
    ensures OthersStay(s, u, thread)
  {
  }

  lemma InsertedOthers(s: State, t: State, u: State, j: nat, base: int, thread: Thread)
    requires |s.chains| > 0 && j <= |s.chains[thread % |s.chains|]| && s.nextEntry !in s.entries
    requires t == InsertStep(s, j, base, thread, thread) && Grown(t, u, s.nextEntry)
    ensures OthersStay(s, u, thread) && AllGrown(t, u)
  {
  }

  /** A thread without an entry has no pointer. */
  lemma NoPointer(s: State, t: Thread)
    requires Table(s) && NoEntry(s, t)
    ensures t !in s.tls
  {
    TableIs(s);
  }

  // ---------- freeing a resource everywhere ----------

  /** Some entries have lost resource i; nothing else has changed. */
  ghost predicate SomeLost(s: State, u: State, i: nat) {
    && u == s.(entries := u.entries, log := u.log) && u.entries.Keys == s.entries.Keys
    && forall e :: e in s.entries ==>
         u.entries[e] == s.entries[e] ||
         (i < |s.entries[e].storage| && u.entries[e] == s.entries[e].(storage := s.entries[e].storage[i := 0]))
  }

  /** Entry e has no instance of resource i (any more). */
  ghost predicate Without(s: State, e: nat, i: nat) {
    e in s.entries && (i < |s.entries[e].storage| ==> s.entries[e].storage[i] == 0)
  }

  /** The first j entries of chain b have none. */
  ghost predicate ChainWithout(s: State, b: nat, j: nat, i: nat) {
    b < |s.chains| && j <= |s.chains[b]| && forall k :: 0 <= k < j ==> Without(s, s.chains[b][k], i)
  }

  lemma LostSelf(s: State, i: nat)
    ensures SomeLost(s, s, i)
  {
  }

  lemma LostOne(s: State, u: State, e: nat, i: nat)
    requires SomeLost(s, u, i) && e in u.entries && i < |u.entries[e].storage|
    ensures SomeLost(s, UnmakeStep(u, e, i), i) && Without(UnmakeStep(u, e, i), e, i)
    ensures forall f :: Without(u, f, i) ==> Without(UnmakeStep(u, e, i), f, i)
  {
  }

  lemma LostTwice(s: State, u: State, v: State, i: nat)
    requires SomeLost(s, u, i) && SomeLost(u, v, i)
    ensures SomeLost(s, v, i)
  {
  }

  lemma FreeingChains(s: State, i: nat)
    requires Freeing(s, i)
    ensures |s.chains| > 0 && i < |s.types|
    ensures forall b, j :: 0 <= b < |s.chains| && 0 <= j < |s.chains[b]| ==> s.chains[b][j] in s.entries
    ensures forall e :: e in s.entries ==> e in s.chains[s.entries[e].thread % |s.chains|]
  {
    FreeingIs(s, i);
  }

  lemma NoneLeft(s: State, i: nat)
    requires Freeing(s, i) && forall b :: 0 <= b < |s.chains| ==> ChainWithout(s, b, |s.chains[b]|, i)
    ensures forall e :: e in s.entries ==> Without(s, e, i)
  {
    FreeingChains(s, i);
    forall e | e in s.entries
      ensures Without(s, e, i)
    {
      var b := s.entries[e].thread % |s.chains|;
      assert ChainWithout(s, b, |s.chains[b]|, i) && e in s.chains[b];
    }
  }

  // ---------- shutdown ----------

  /** With no entry left every instance ever constructed has been destroyed. */
  lemma AllDestroyed(s: State)
    requires Table(s) && s.entries == map[]
    ensures forall e, i :: Made(e, i) in s.log <==> Unmade(e, i) in s.log
  {
    RecordIs(s);
    forall e, i
      ensures Made(e, i) in s.log <==> Unmade(e, i) in s.log
    {
      assert !Live(s.entries, e, i) && !Open(s.log, e, i);
      if Unmade(e, i) in s.log {
        var j :| 0 <= j < |s.log| && s.log[j] == Unmade(e, i);
        MadeBefore(s.log, j);
      }
    }
  }

  lemma EmptyChains(s: State)
    requires Table(s) && forall b :: 0 <= b < |s.chains| ==> s.chains[b] == []
    ensures s.entries == map[]
  {
    forall e | e in s.entries
      ensures false
    {
      var k := InChain(s, e);
    }
    assert forall e :: e !in s.entries.Keys;
  }
}
