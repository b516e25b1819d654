// The thread-safe resource manager as values.
module TsrmTable {
  // Resource types, thread entries in hash chains, the pointers threads keep to their entries, and the record of
  // constructed and destroyed instances.

  type Thread = nat

  /** A registered resource type. fastOffset is 0 for resources that get memory of their own. */
  datatype ResourceType = ResourceType(size: nat, hasCtor: bool, hasDtor: bool, fastOffset: nat, done: bool)

  /** The entry of a thread: where it lies, how long it is, and one pointer for every resource (0: NULL). */
  datatype Entry = Entry(base: int, bytes: nat, storage: seq<int>, thread: Thread)

  /** An instance is a resource of an entry: given memory and constructed, or destroyed. */
  datatype Event = Made(entry: nat, id: nat) | Unmade(entry: nat, id: nat)

  type Entries = map<nat, Entry>
  type Types = seq<ResourceType>
  type Chains = seq<seq<nat>>

  // ---------- what happens to instances ----------

  /** The event may come after this record: construction once, destruction once and after construction. */
  predicate May(log: seq<Event>, v: Event) {
    v !in log && (v.Unmade? ==> Made(v.entry, v.id) in log)
  }

  /** Every instance is constructed at most once, and destroyed at most once, after it was constructed. */
  predicate Disciplined(log: seq<Event>) {
    log == [] || (Disciplined(log[..|log| - 1]) && May(log[..|log| - 1], log[|log| - 1]))
  }

  /** Constructed and not yet destroyed. */
  predicate Open(log: seq<Event>, e: nat, i: nat) {
    Made(e, i) in log && Unmade(e, i) !in log
  }

  /** The entry has the instance. */
  predicate Live(entries: Entries, e: nat, i: nat) {
    e in entries && i < |entries[e].storage| && entries[e].storage[i] != 0
  }

  /** The record agrees with the entries: what they hold is what has been constructed and not destroyed. */
  ghost predicate LogNow(log: seq<Event>, entries: Entries, next: nat) {
    && Disciplined(log)
    && (forall e: nat, i: nat :: Open(log, e, i) <==> Live(entries, e, i))
    && (forall e: nat, i: nat :: Made(e, i) in log ==> e < next && (e in entries ==> i < |entries[e].storage|))
  }

  /** LogNow behind k trivial steps. */
  ghost predicate LogBehind(log: seq<Event>, entries: Entries, next: nat, k: nat)
    decreases k
  {
    if k == 0 then LogNow(log, entries, next) else LogBehind(log, entries, next, k - 1)
  }

  ghost predicate LogOk(log: seq<Event>, entries: Entries, next: nat) {
    LogBehind(log, entries, next, next + 3)
  }

  lemma {:induction false} LogBehindIs(log: seq<Event>, entries: Entries, next: nat, k: nat)
    ensures LogBehind(log, entries, next, k) == LogNow(log, entries, next)
    decreases k
  {
    if k > 0 {
      LogBehindIs(log, entries, next, k - 1);
    }
  }

  lemma LogIs(log: seq<Event>, entries: Entries, next: nat)
    ensures LogOk(log, entries, next) == LogNow(log, entries, next)
  {
    LogBehindIs(log, entries, next, next + 3);
  }

  lemma Append(log: seq<Event>, v: Event)
    ensures forall w :: w in log + [v] <==> w in log || w == v
    ensures Disciplined(log + [v]) <==> Disciplined(log) && May(log, v)
  {
    assert (log + [v])[..|log|] == log;
  }

  /** What a disciplined record means, over all its positions. */
  lemma {:induction false} OnceEach(log: seq<Event>, j: nat, k: nat)
    requires Disciplined(log) && j < k < |log|
    ensures log[j] != log[k]
    ensures log[j].Unmade? ==> log[k] != Made(log[j].entry, log[j].id)
  {
    var before := log[..|log| - 1];
    if k < |log| - 1 {
      OnceEach(before, j, k);
    } else {
      assert before[j] in before;
      if log[j].Unmade? {
        MadeBefore(before, j);
      }
    }
  }

  lemma {:induction false} MadeBefore(log: seq<Event>, j: nat)
    requires Disciplined(log) && j < |log| && log[j].Unmade?
    ensures Made(log[j].entry, log[j].id) in log[..j]
  {
    var before := log[..|log| - 1];
    if j < |log| - 1 {
      MadeBefore(before, j);
      assert before[..j] == log[..j];
    } else {
      assert log[..j] == before;
    }
  }

  /** Constructing the next instance of an entry. */
  lemma LogMakes(log: seq<Event>, entries: Entries, next: nat, e: nat, p: int)
    requires LogOk(log, entries, next) && e in entries && e < next && p != 0
    ensures var r := entries[e];
            LogOk(log + [Made(e, |r.storage|)], entries[e := r.(storage := r.storage + [p])], next)
  {
    LogIs(log, entries, next);
    var r, i := entries[e], |entries[e].storage|;
    var more := entries[e := r.(storage := r.storage + [p])];
    Append(log, Made(e, i));
    assert Made(e, i) !in log;
    assert Unmade(e, i) !in log by {
      if Unmade(e, i) in log {
        var j :| 0 <= j < |log| && log[j] == Unmade(e, i);
        MadeBefore(log, j);
      }
    }
    forall f, k
      ensures Open(log + [Made(e, i)], f, k) <==> Live(more, f, k)
    {
      assert Open(log, f, k) <==> Live(entries, f, k);
    }
    LogIs(log + [Made(e, i)], more, next);
  }

  /** An entry gets NULL for a resource that has been freed. */
  lemma LogSkips(log: seq<Event>, entries: Entries, next: nat, e: nat)
    requires LogOk(log, entries, next) && e in entries
    ensures var r := entries[e]; LogOk(log, entries[e := r.(storage := r.storage + [0])], next)
  {
    LogIs(log, entries, next);
    var r := entries[e];
    var more := entries[e := r.(storage := r.storage + [0])];
    forall f, k
      ensures Live(more, f, k) <==> Live(entries, f, k)
    {
    }
    LogIs(log, more, next);
  }

  /** Destroying one instance. */
  lemma LogUnmakes(log: seq<Event>, entries: Entries, next: nat, e: nat, i: nat)
    requires LogOk(log, entries, next) && Live(entries, e, i)
    ensures var r := entries[e]; LogOk(log + [Unmade(e, i)], entries[e := r.(storage := r.storage[i := 0])], next)
  {
    LogIs(log, entries, next);
    var r := entries[e];
    var less := entries[e := r.(storage := r.storage[i := 0])];
    assert Open(log, e, i);
    Append(log, Unmade(e, i));
    forall f, k
      ensures Open(log + [Unmade(e, i)], f, k) <==> Live(less, f, k)
    {
      assert Open(log, f, k) <==> Live(entries, f, k);
    }
    LogIs(log + [Unmade(e, i)], less, next);
  }

  /** A new entry holds nothing yet. */
  lemma LogNew(log: seq<Event>, entries: Entries, next: nat, r: Entry)
    requires LogOk(log, entries, next) && r.storage == [] && (forall e :: e in entries ==> e < next)
    ensures LogOk(log, entries[next := r], next + 1)
  {
    LogIs(log, entries, next);
    forall f, k
      ensures Live(entries[next := r], f, k) <==> Live(entries, f, k)
    {
    }
    LogIs(log, entries[next := r], next + 1);
  }

  /** An entry that holds nothing any more can go. */
  lemma LogGone(log: seq<Event>, entries: Entries, next: nat, e: nat)
    requires LogOk(log, entries, next) && e in entries && forall i :: 0 <= i < |entries[e].storage| ==> entries[e].storage[i] == 0
    ensures LogOk(log, entries - {e}, next)
  {
    LogIs(log, entries, next);
    forall f, k
      ensures Live(entries - {e}, f, k) <==> Live(entries, f, k)
    {
    }
    LogIs(log, entries - {e}, next);
  }

  // ---------- the table ----------

  ghost predicate NoTwice(s: seq<nat>) {
    forall i, j :: 0 <= i < j < |s| ==> s[i] != s[j]
  }

  /** Each entry is in the chain of its thread's hash value, once, and no thread has two entries. */
  ghost predicate Shape(chains: Chains, entries: Entries, next: nat) {
    && |chains| > 0
    && (forall b, j :: 0 <= b < |chains| && 0 <= j < |chains[b]| ==>
          chains[b][j] in entries && entries[chains[b][j]].thread % |chains| == b)
    && (forall b :: 0 <= b < |chains| ==> NoTwice(chains[b]))
    && (forall e :: e in entries ==> e < next && e in chains[entries[e].thread % |chains|])
    && (forall e, f :: e in entries && f in entries && entries[e].thread == entries[f].thread ==> e == f)
  }

  /** The pointer a thread keeps is that of its own entry. */
  ghost predicate TlsAgrees(tls: map<Thread, nat>, entries: Entries) {
    forall t :: t in tls ==> tls[t] in entries && entries[tls[t]].thread == t
  }

  /** The first |storage| resources of an entry: NULL exactly for freed ones, and in place for fast ones. */
  ghost predicate EntryOk(r: Entry, types: Types) {
    && |r.storage| <= |types|
    && forall i :: 0 <= i < |r.storage| ==>
         && (r.storage[i] == 0 <==> types[i].done)
         && (types[i].fastOffset != 0 && !types[i].done ==> r.storage[i] == r.base + types[i].fastOffset)
  }

  ghost predicate EntriesOk(entries: Entries, types: Types, bytes: nat) {
    forall e :: e in entries ==> EntryOk(entries[e], types) && 0 < entries[e].base && entries[e].bytes == bytes
  }

  ghost predicate AllComplete(entries: Entries, n: nat) {
    forall e :: e in entries ==> |entries[e].storage| == n
  }

  /** Changing the pointers an entry holds leaves the table as it is. */
  lemma StorageChanges(chains: Chains, entries: Entries, types: Types, tls: map<Thread, nat>, next: nat, bytes: nat, e: nat, s: seq<int>)
    requires Shape(chains, entries, next) && TlsAgrees(tls, entries) && EntriesOk(entries, types, bytes) && e in entries
    requires EntryOk(entries[e].(storage := s), types)
    ensures var more := entries[e := entries[e].(storage := s)];
            Shape(chains, more, next) && TlsAgrees(tls, more) && EntriesOk(more, types, bytes)
  {
  }

  lemma NextOk(r: Entry, types: Types, p: int)
    requires EntryOk(r, types) && |r.storage| < |types| && 0 < r.base
    requires var t := types[|r.storage|];
             if t.done then p == 0 else if t.fastOffset != 0 then p == r.base + t.fastOffset else 0 < p
    ensures EntryOk(r.(storage := r.storage + [p]), types)
  {
  }

  // ---------- fast resources ----------

  /** TSRM_ALIGNED_SIZE. */
  function Aligned(size: nat): (r: nat)
    ensures size <= r < size + 16 && r % 16 == 0
  {
    (size + 15) / 16 * 16
  }

  /** Size of the header of an entry, aligned. */
  const HEADER := 32

  /** A fast resource is aligned and lies behind the header, within `pos` bytes. */
  predicate Placed(t: ResourceType, pos: nat) {
    t.fastOffset == 0 ||
    (t.fastOffset % 16 == 0 && t.size % 16 == 0 && HEADER <= t.fastOffset && t.fastOffset + t.size <= HEADER + pos)
  }

  predicate Ahead(t: ResourceType, u: ResourceType) {
    t.fastOffset == 0 || u.fastOffset == 0 || t.fastOffset + t.size <= u.fastOffset
  }

  /** Fast resources lie one after the other behind the header, in the order of their ids, up to `pos`. */
  ghost predicate FastOk(types: Types, pos: nat, size: nat) {
    && pos <= size && pos % 16 == 0 && size % 16 == 0
    && (forall i :: 0 <= i < |types| ==> Placed(types[i], pos))
    && (forall i, j :: 0 <= i < j < |types| ==> Ahead(types[i], types[j]))
  }

  /** Fast resources of an entry are aligned, inside the entry behind its header, and apart. */
  lemma FastApart(types: Types, pos: nat, size: nat, r: Entry, i: nat, j: nat)
    requires FastOk(types, pos, size) && EntryOk(r, types) && r.bytes == HEADER + size
    requires i < |r.storage| && types[i].fastOffset != 0 && !types[i].done
    ensures (r.storage[i] - r.base) % 16 == 0
    ensures r.base + HEADER <= r.storage[i] && r.storage[i] + types[i].size <= r.base + r.bytes
    ensures i != j && j < |r.storage| && types[j].fastOffset != 0 && !types[j].done ==>
              r.storage[i] + types[i].size <= r.storage[j] || r.storage[j] + types[j].size <= r.storage[i]
  {
    assert Placed(types[i], pos);
    if i < j < |r.storage| {
      assert Ahead(types[i], types[j]);
    } else if j < i {
      assert Ahead(types[j], types[i]);
    }
  }

  lemma PlacedStays(t: ResourceType, pos: nat, more: nat)
    requires Placed(t, pos) && pos <= more
    ensures Placed(t, more)
  {
  }

  lemma PlacedAhead(t: ResourceType, pos: nat, u: ResourceType)
    requires Placed(t, pos) && (u.fastOffset == 0 || u.fastOffset == HEADER + pos)
    ensures Ahead(t, u)
  {
  }

  lemma PlacedNext(t: ResourceType, pos: nat)
    requires pos % 16 == 0 && t.size % 16 == 0 && t.fastOffset == HEADER + pos
    ensures Placed(t, pos + t.size) && (pos + t.size) % 16 == 0
  {
  }

  lemma FastMore(types: Types, pos: nat, size: nat, t: ResourceType)
    requires FastOk(types, pos, size)
    requires t.fastOffset == 0 || (t.size % 16 == 0 && t.fastOffset == HEADER + pos && pos + t.size <= size)
    ensures FastOk(types + [t], if t.fastOffset == 0 then pos else pos + t.size, size)
  {
    var more := types + [t];
    var to := if t.fastOffset == 0 then pos else pos + t.size;
    if t.fastOffset != 0 {
      PlacedNext(t, pos);
    }
    forall i | 0 <= i < |types|
      ensures Placed(more[i], to) && Ahead(more[i], t)
    {
      PlacedStays(types[i], pos, to);
      PlacedAhead(types[i], pos, t);
    }
  }

  /** A fast resource with bytes of its own in the reserved space. */
  predicate Occupies(t: ResourceType) {
    t.fastOffset != 0 && (t.fastOffset != HEADER || t.size != 0)
  }

  /** When reserving starts again behind the header, the next fast resource that is not empty shares no byte with
      the ones before exactly when those have none. */
  lemma NextFastIff(types: Types, pos: nat, size: nat, t: ResourceType, more: nat)
    requires FastOk(types, pos, size) && t.fastOffset == HEADER && t.size % 16 == more % 16 == 0 && 0 < t.size <= more
    ensures FastOk(types + [t], t.size, more) <==> forall i :: 0 <= i < |types| ==> !Occupies(types[i])
  {
    var all := types + [t];
    if forall i :: 0 <= i < |types| ==> !Occupies(types[i]) {
      forall i | 0 <= i < |types|
        ensures Placed(all[i], t.size) && Ahead(all[i], t)
      {
        assert all[i] == types[i] && !Occupies(types[i]);
      }
      forall i, j | 0 <= i < j < |all|
        ensures Ahead(all[i], all[j])
      {
        assert all[i] == types[i];
        if j < |types| {
          assert Ahead(types[i], types[j]);
        }
      }
    } else {
      var i :| 0 <= i < |types| && Occupies(types[i]);
      assert Placed(types[i], pos);
      assert all[i] == types[i] && all[|types|] == t && !Ahead(all[i], all[|types|]);
    }
  }

  // ---------- the manager as one value ----------

  datatype State = State(
    chains: Chains,
    entries: Entries,
    types: Types,
    reservedPos: nat,
    reservedSize: nat,
    tls: map<Thread, nat>,
    nextEntry: nat,
    log: seq<Event>)

  ghost predicate TableNow(s: State) {
    && Shape(s.chains, s.entries, s.nextEntry)
    && TlsAgrees(s.tls, s.entries)
    && EntriesOk(s.entries, s.types, HEADER + s.reservedSize)
    && LogOk(s.log, s.entries, s.nextEntry)
    && FastOk(s.types, s.reservedPos, s.reservedSize)
  }

  /** TableNow behind k trivial steps, so that the operations carry it as one fact. */
  ghost predicate TableBehind(s: State, k: nat)
    decreases k
  {
    if k == 0 then TableNow(s) else TableBehind(s, k - 1)
  }

  ghost predicate Table(s: State) {
    TableBehind(s, |s.types| + 3)
  }

  lemma {:induction false} Behind(s: State, k: nat)
    ensures TableBehind(s, k) == TableNow(s)
    decreases k
  {
    if k > 0 {
      Behind(s, k - 1);
    }
  }

  lemma TableIs(s: State)
    ensures Table(s) == TableNow(s)
  {
    Behind(s, |s.types| + 3);
  }

  // ---------- constructing ----------

  /** The pointer an entry may get for its next resource. */
  ghost predicate GoodPointer(r: Entry, types: Types, p: int)
    requires |r.storage| < |types|
  {
    var t := types[|r.storage|];
    if t.done then p == 0 else if t.fastOffset != 0 then p == r.base + t.fastOffset else 0 < p
  }

  function NextStep(s: State, e: nat, p: int): State
    requires e in s.entries
  {
    var r := s.entries[e];
    s.(entries := s.entries[e := r.(storage := r.storage + [p])],
       log := if p == 0 then s.log else s.log + [Made(e, |r.storage|)])
  }

  lemma TableNext(s: State, e: nat, p: int)
    requires Table(s) && e in s.entries && |s.entries[e].storage| < |s.types| && GoodPointer(s.entries[e], s.types, p)
    ensures Table(NextStep(s, e, p))
  {
    TableIs(s);
    var r := s.entries[e];
    NextOk(r, s.types, p);
    StorageChanges(s.chains, s.entries, s.types, s.tls, s.nextEntry, HEADER + s.reservedSize, e, r.storage + [p]);
    if p == 0 {
      LogSkips(s.log, s.entries, s.nextEntry, e);
    } else {
      LogMakes(s.log, s.entries, s.nextEntry, e, p);
    }
    TableIs(NextStep(s, e, p));
  }

  lemma TableEntry(s: State, e: nat)
    requires Table(s) && e in s.entries
    ensures 0 < s.entries[e].base && |s.entries[e].storage| <= |s.types|
    ensures |s.chains| > 0 && e in s.chains[s.entries[e].thread % |s.chains|] && e < s.nextEntry
  {
    TableIs(s);
  }

  /** What the record says in every state of a run. */
  lemma RecordIs(s: State)
    requires Table(s)
    ensures Disciplined(s.log)
    ensures forall e, i :: Open(s.log, e, i) <==> Live(s.entries, e, i)
  {
    TableIs(s);
    LogIs(s.log, s.entries, s.nextEntry);
  }

  lemma TableChains(s: State)
    requires Table(s)
    ensures |s.chains| > 0
    ensures forall b, j :: 0 <= b < |s.chains| && 0 <= j < |s.chains[b]| ==> s.chains[b][j] in s.entries
    ensures forall e :: e in s.entries ==> e in s.chains[s.entries[e].thread % |s.chains|]
  {
    TableIs(s);
  }

  // ---------- destroying ----------

  function UnmakeStep(s: State, e: nat, i: nat): State
    requires e in s.entries && i < |s.entries[e].storage|
  {
    var r := s.entries[e];
    s.(entries := s.entries[e := r.(storage := r.storage[i := 0])], log := s.log + [Unmade(e, i)])
  }

  /** A table some of whose entries have lost resource i, which is being freed. */
  ghost predicate FreeingNow(s: State, i: nat) {
    && Shape(s.chains, s.entries, s.nextEntry)
    && TlsAgrees(s.tls, s.entries)
    && LogOk(s.log, s.entries, s.nextEntry)
    && FastOk(s.types, s.reservedPos, s.reservedSize)
    && i < |s.types|
    && forall e :: e in s.entries ==> 0 < s.entries[e].base && s.entries[e].bytes == HEADER + s.reservedSize && EntryBut(s.entries[e], s.types, i)
  }

  /** EntryOk, but for resource i. */
  ghost predicate EntryBut(r: Entry, types: Types, i: nat) {
    && |r.storage| <= |types|
    && forall j :: 0 <= j < |r.storage| ==>
         && (j != i ==> (r.storage[j] == 0 <==> types[j].done))
         && (types[j].fastOffset != 0 && r.storage[j] != 0 ==> r.storage[j] == r.base + types[j].fastOffset)
  }

  ghost predicate FreeingBehind(s: State, i: nat, k: nat)
    decreases k
  {
    if k == 0 then FreeingNow(s, i) else FreeingBehind(s, i, k - 1)
  }

  ghost predicate Freeing(s: State, i: nat) {
    FreeingBehind(s, i, i + 3)
  }

  lemma {:induction false} FreeingBehindIs(s: State, i: nat, k: nat)
    ensures FreeingBehind(s, i, k) == FreeingNow(s, i)
    decreases k
  {
    if k > 0 {
      FreeingBehindIs(s, i, k - 1);
    }
  }

  lemma FreeingIs(s: State, i: nat)
    ensures Freeing(s, i) == FreeingNow(s, i)
  {
    FreeingBehindIs(s, i, i + 3);
  }

  lemma FreeingStarts(s: State, i: nat)
    requires Table(s) && i < |s.types|
    ensures Freeing(s, i)
  {
    TableIs(s);
    FreeingIs(s, i);
  }

  lemma UnmadeEntry(r: Entry, types: Types, i: nat)
    requires EntryBut(r, types, i) && i < |r.storage|
    ensures EntryBut(r.(storage := r.storage[i := 0]), types, i)
  {
  }

  lemma StorageShape(chains: Chains, entries: Entries, tls: map<Thread, nat>, next: nat, e: nat, s: seq<int>)
    requires Shape(chains, entries, next) && TlsAgrees(tls, entries) && e in entries
    ensures Shape(chains, entries[e := entries[e].(storage := s)], next)
    ensures TlsAgrees(tls, entries[e := entries[e].(storage := s)])
  {
  }

  lemma FreeingStep(s: State, e: nat, i: nat)
    requires Freeing(s, i) && e in s.entries && i < |s.entries[e].storage| && s.entries[e].storage[i] != 0
    ensures Freeing(UnmakeStep(s, e, i), i)
  {
    FreeingIs(s, i);
    LogUnmakes(s.log, s.entries, s.nextEntry, e, i);
    UnmadeEntry(s.entries[e], s.types, i);
    StorageShape(s.chains, s.entries, s.tls, s.nextEntry, e, s.entries[e].storage[i := 0]);
    FreeingIs(UnmakeStep(s, e, i), i);
  }

  /** All entries have lost resource i: it is marked as freed. */
  lemma FreeingEnds(s: State, i: nat)
    requires Freeing(s, i) && i < |s.types| && forall e :: e in s.entries && i < |s.entries[e].storage| ==> s.entries[e].storage[i] == 0
    ensures Table(s.(types := s.types[i := s.types[i].(done := true)]))
  {
    FreeingIs(s, i);
    TableIs(s.(types := s.types[i := s.types[i].(done := true)]));
  }

  // ---------- tearing an entry down ----------

  /** What tearing down the first n resources of an entry records: higher ids first. */
  function Teardown(e: nat, types: Types, n: nat): seq<Event>
    requires n <= |types|
    decreases n
  {
    if n == 0 then []
    else if types[n - 1].done then Teardown(e, types, n - 1)
    else [Unmade(e, n - 1)] + Teardown(e, types, n - 1)
  }

  /** Resources are destroyed in decreasing order of their ids. */
  lemma {:induction false} TeardownOrder(e: nat, types: Types, n: nat, j: nat, k: nat)
    requires n <= |types| && j < k < |Teardown(e, types, n)|
    ensures Teardown(e, types, n)[j].id > Teardown(e, types, n)[k].id
    ensures Teardown(e, types, n)[j].id < n
    decreases n
  {
    TeardownIds(e, types, n, j);
    TeardownIds(e, types, n, k);
    if types[n - 1].done {
      TeardownOrder(e, types, n - 1, j, k);
    } else if j > 0 {
      TeardownOrder(e, types, n - 1, j - 1, k - 1);
    } else {
      TeardownIds(e, types, n - 1, k - 1);
    }
  }

  lemma {:induction false} TeardownIds(e: nat, types: Types, n: nat, j: nat)
    requires n <= |types| && j < |Teardown(e, types, n)|
    ensures var v := Teardown(e, types, n)[j]; v.Unmade? && v.entry == e && v.id < n && !types[v.id].done
    decreases n
  {
    if n > 0 {
      if types[n - 1].done {
        TeardownIds(e, types, n - 1, j);
      } else if j > 0 {
        TeardownIds(e, types, n - 1, j - 1);
      }
    }
  }

  /** And all of them are. */
  lemma {:induction false} TeardownAll(e: nat, types: Types, n: nat, i: nat)
    requires i < n <= |types| && !types[i].done
    ensures Unmade(e, i) in Teardown(e, types, n)
    decreases n
  {
    if i < n - 1 {
      TeardownAll(e, types, n - 1, i);
    }
  }
}
