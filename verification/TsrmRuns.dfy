/** Whole runs of the thread-safe resource manager, to the final shutdown. */
module TsrmRuns {
  import opened TsrmTable
  import opened TsrmEntries
  import opened Tsrm

  /** The steps of a run. A thread starts when it first fetches; thread ids may be used again after Ends. */
  datatype Step =
    | Allocate(size: nat, hasCtor: bool, hasDtor: bool)
    | AllocateFast(bytes: nat, withCtor: bool, withDtor: bool)
    | FetchOwn(id: nat, thread: Thread, byId: bool)
    | FreeOwn(thread: Thread)
    | Ends(thread: Thread)
    | FreeAll(id: nat)

  predicate Legal(step: Step, idCount: nat) {
    match step
    case FetchOwn(id, _, _) => id <= idCount
    case FreeAll(id) => 1 <= id <= idCount
    case Allocate(_, _, _) => true
    case AllocateFast(_, _, _) => true
    case FreeOwn(_) => true
    case Ends(_) => true
  }

  // ---------- what a run leaves, told from its steps ----------

  /** How many resources have been registered. */
  function Registered(run: seq<Step>): nat {
    if run == [] then 0
    else Registered(run[..|run| - 1]) + var last := run[|run| - 1]; if last.Allocate? || last.AllocateFast? then 1 else 0
  }

  /** The thread id has fetched, and not been freed since. */
  predicate Served(run: seq<Step>, t: Thread) {
    run != [] &&
    var last := run[|run| - 1];
    if last.FetchOwn? && last.thread == t then true
    else if last.FreeOwn? && last.thread == t then false
    else Served(run[..|run| - 1], t)
  }

  /** The table has an entry for exactly the threads that are served, and marks exactly the resources freed. */
  ghost predicate Agrees(s: State, run: seq<Step>) {
    && |s.types| == Registered(run)
    && (forall t: Thread :: Served(run, t) <==> !NoEntry(s, t))
    && (forall i: nat :: i < |s.types| ==> (s.types[i].done <==> FreeAll(i + 1) in run))
    && (forall id: nat :: FreeAll(id) in run ==> 1 <= id <= |s.types|)
  }

  lemma OneMore(run: seq<Step>, step: Step)
    ensures (run + [step])[..|run|] == run && (run + [step])[|run|] == step
    ensures forall x :: x in run + [step] <==> x in run || x == step
  {
  }

  /** As many entries for every thread, whatever is in them. */
  ghost predicate SameThreads(s: State, u: State) {
    u.entries.Keys == s.entries.Keys && forall e :: e in s.entries ==> u.entries[e].thread == s.entries[e].thread
  }

  lemma SameNone(s: State, u: State, t: Thread)
    requires SameThreads(s, u)
    ensures NoEntry(s, t) <==> NoEntry(u, t)
  {
    if !NoEntry(s, t) {
      var e :| e in s.entries && s.entries[e].thread == t;
      assert e in u.entries.Keys;
    }
    if !NoEntry(u, t) {
      var e :| e in u.entries && u.entries[e].thread == t;
      assert e in s.entries.Keys;
    }
  }

  lemma SameServed(s: State, u: State, run: seq<Step>, step: Step)
    requires SameThreads(s, u) && !step.FetchOwn? && !step.FreeOwn?
    requires forall t: Thread :: Served(run, t) <==> !NoEntry(s, t)
    ensures forall t: Thread :: Served(run + [step], t) <==> !NoEntry(u, t)
  {
    OneMore(run, step);
    forall t: Thread
      ensures Served(run + [step], t) <==> !NoEntry(u, t)
    {
      SameNone(s, u, t);
      assert Served(run + [step], t) <==> Served(run, t);
    }
  }

  lemma AgreesAllocated(s: State, u: State, run: seq<Step>, step: Step, t: ResourceType)
    requires Agrees(s, run) && (step.Allocate? || step.AllocateFast?) && !t.done && AllGrown(TypeStep(s, t), u)
    ensures Agrees(u, run + [step])
  {
    OneMore(run, step);
    SameServed(s, u, run, step);
  }

  lemma AgreesSame(s: State, u: State, run: seq<Step>, step: Step)
    requires Agrees(s, run) && step.Ends? && u == s.(tls := u.tls)
    ensures Agrees(u, run + [step])
  {
    OneMore(run, step);
    SameServed(s, u, run, step);
  }

  lemma AgreesFreed(s: State, u: State, run: seq<Step>, id: nat)
    requires Agrees(s, run) && 1 <= id <= |s.types| && u.types == s.types[id - 1 := s.types[id - 1].(done := true)]
    requires SomeLost(s, u.(types := s.types), id - 1)
    ensures Agrees(u, run + [FreeAll(id)])
  {
    OneMore(run, FreeAll(id));
    SameServed(s, u, run, FreeAll(id));
  }

  lemma OthersNone(s: State, u: State, thread: Thread, t: Thread)
    requires OthersStay(s, u, thread) && t != thread
    ensures NoEntry(s, t) <==> NoEntry(u, t)
  {
    if !NoEntry(s, t) {
      var e :| e in s.entries && s.entries[e].thread == t;
      assert e in u.entries;
    }
    if !NoEntry(u, t) {
      var e :| e in u.entries && u.entries[e].thread == t;
      assert e in s.entries;
    }
  }

  lemma AgreesThread(s: State, u: State, run: seq<Step>, step: Step)
    requires Agrees(s, run) && (step.FetchOwn? || step.FreeOwn?) && u.types == s.types
    requires OthersStay(s, u, step.thread) && (step.FetchOwn? <==> !NoEntry(u, step.thread))
    ensures Agrees(u, run + [step])
  {
    OneMore(run, step);
    forall t: Thread
      ensures Served(run + [step], t) <==> !NoEntry(u, t)
    {
      if t != step.thread {
        OthersNone(s, u, step.thread, t);
        assert Served(run + [step], t) <==> Served(run, t);
      }
    }
  }

  /** In a table that agrees with a run, every entry has an instance of every resource registered and not freed. */
  lemma AllConstructed(s: State, run: seq<Step>, e: nat, i: nat)
    requires Table(s) && Agrees(s, run) && AllComplete(s.entries, |s.types|)
    requires e in s.entries && i < Registered(run) && FreeAll(i + 1) !in run
    ensures Made(e, i) in s.log && Unmade(e, i) !in s.log
  {
    RecordIs(s);
    TableIs(s);
    assert EntryOk(s.entries[e], s.types);
    assert Live(s.entries, e, i);
    assert Open(s.log, e, i);
  }

  // ---------- the run ----------

  method DoStep(m: Manager, step: Step, ghost run: seq<Step>) returns (ok: bool)
    requires m.Valid() && Legal(step, m.idCount) && Agrees(m.State(), run)
    modifies m
    ensures m.Valid()
    ensures ok ==> Agrees(m.State(), run + [step])
    ensures !ok ==> step.AllocateFast? && m.State() == old(m.State())
  {
    ghost var s := m.State();
    ok := true;
    match step {
      case Allocate(size, hasCtor, hasDtor) =>
        var id := m.AllocateId(size, hasCtor, hasDtor);
        AgreesAllocated(s, m.State(), run, step, ResourceType(size, hasCtor, hasDtor, 0, false));
      case AllocateFast(bytes, withCtor, withDtor) =>
        if Aligned(bytes) <= m.reservedSize - m.reservedPos {
          var id, offset := m.AllocateFastId(bytes, withCtor, withDtor);
          AgreesAllocated(s, m.State(), run, step, ResourceType(Aligned(bytes), withCtor, withDtor, offset, false));
        } else {
          ok := false;
        }
      case FetchOwn(id, thread, byId) =>
        var r := m.Fetch(id, thread, byId);
        PointerIsEntry(m.State(), thread);
        AgreesThread(s, m.State(), run, step);
      case FreeOwn(thread) =>
        m.FreeThread(thread);
        AgreesThread(s, m.State(), run, step);
      case Ends(thread) =>
        m.ThreadEnds(thread);
        AgreesSame(s, m.State(), run, step);
      case FreeAll(id) =>
        m.FreeId(id);
        AgreesFreed(s, m.State(), run, id);
    }
  }

  /** Any run of legal steps, after one reservation, up to a fast allocation that finds no space. `before` is the
      table before the final shutdown: it has an entry for exactly the threads served, and in each an instance of
      every resource registered and not freed has been constructed. In the end every instance has been constructed
      once and destroyed once. */
  method Run(expectedThreads: nat, reserved: nat, steps: seq<Step>) returns (m: Manager, done: nat, ghost before: State)
    requires expectedThreads > 0
    ensures fresh(m) && done <= |steps|
    ensures done < |steps| ==> steps[done].AllocateFast? || !Legal(steps[done], Registered(steps[..done]))
    ensures forall t: Thread :: Served(steps[..done], t) <==> !NoEntry(before, t)
    ensures forall e, i: nat :: e in before.entries && i < Registered(steps[..done]) && FreeAll(i + 1) !in steps[..done] ==>
              Made(e, i) in before.log && Unmade(e, i) !in before.log
    ensures before.log <= m.State().log && m.State().entries == map[] && Disciplined(m.State().log)
    ensures forall e, i :: Made(e, i) in m.State().log <==> Unmade(e, i) in m.State().log
  {
    m := new Manager(expectedThreads);
    m.Reserve(reserved);
    done := 0;
    assert steps[..0] == [];
    var going := true;
    while done < |steps| && going && Legal(steps[done], m.idCount)
      invariant m.Valid() && done <= |steps| && fresh(m) && Agrees(m.State(), steps[..done])
      invariant !going ==> done < |steps| && steps[done].AllocateFast?
      decreases |steps| - done, going
    {
      going := DoStep(m, steps[done], steps[..done]);
      if going {
        assert steps[..done + 1] == steps[..done] + [steps[done]];
        done := done + 1;
      }
    }
    before := m.State();
    forall e, i: nat | e in before.entries && i < Registered(steps[..done]) && FreeAll(i + 1) !in steps[..done]
      ensures Made(e, i) in before.log && Unmade(e, i) !in before.log
    {
      AllConstructed(before, steps[..done], e, i);
    }
    m.Shutdown();
    RecordIs(m.State());
  }
}
