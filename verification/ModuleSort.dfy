/** zend_sort_modules: modules are put behind the modules they depend on, by swapping in place. */
module ModuleSort {
  datatype DepKind = Required | Optional | Conflicts

  datatype Dep = Dep(name: nat, kind: DepKind)

  /** Names are numbers here: the registry compares them without regard to case. */
  datatype Module = Module(name: nat, started: bool, deps: seq<Dep>)

  /** m is still to be started and lists the name as required or optional. */
  predicate Wants(m: Module, name: nat) {
    !m.started && exists k :: 0 <= k < |m.deps| && m.deps[k].kind != Conflicts && m.deps[k].name == name
  }

  // ---------- one step ----------

  /** The first module from position j on with this name (the length when there is none). */
  function FindName(ms: seq<Module>, j: nat, name: nat): (r: nat)
    requires j <= |ms|
    ensures j <= r <= |ms| && (r < |ms| ==> ms[r].name == name)
    ensures forall q :: j <= q < r ==> ms[q].name != name
    decreases |ms| - j
  {
    if j == |ms| || ms[j].name == name then j else FindName(ms, j + 1, name)
  }

  /** The first module behind position i that a dependency of m, from the k-th on, names. */
  function FirstWanted(ms: seq<Module>, i: nat, k: nat): (r: nat)
    requires i < |ms| && k <= |ms[i].deps|
    ensures i < r <= |ms|
    decreases |ms[i].deps| - k
  {
    if k == |ms[i].deps| then |ms|
    else if ms[i].deps[k].kind != Conflicts && FindName(ms, i + 1, ms[i].deps[k].name) < |ms| then
      FindName(ms, i + 1, ms[i].deps[k].name)
    else FirstWanted(ms, i, k + 1)
  }

  /** Of the dependencies from the k-th on, the l-th is the first to name a module behind position i, and the one at
      r is the first of that name. */
  ghost predicate FirstNamed(ms: seq<Module>, i: nat, k: nat, l: nat, r: nat)
    requires i < r < |ms|
  {
    && k <= l < |ms[i].deps| && ms[i].deps[l].kind != Conflicts && ms[i].deps[l].name == ms[r].name
    && (forall q :: i < q < r ==> ms[q].name != ms[r].name)
    && (forall p, q :: k <= p < l && i < q < |ms| && ms[i].deps[p].kind != Conflicts ==> ms[i].deps[p].name != ms[q].name)
  }

  lemma {:induction false} FirstWantedIs(ms: seq<Module>, i: nat, k: nat)
    requires i < |ms| && k <= |ms[i].deps|
    ensures var r := FirstWanted(ms, i, k);
            && (r < |ms| && !ms[i].started ==> Wants(ms[i], ms[r].name))
            && (r < |ms| ==> exists l :: FirstNamed(ms, i, k, l, r))
            && (r == |ms| ==> forall q, l :: i < q < |ms| && k <= l < |ms[i].deps| && ms[i].deps[l].kind != Conflicts
                                ==> ms[i].deps[l].name != ms[q].name)
    decreases |ms[i].deps| - k
  {
    if k < |ms[i].deps| {
      FirstWantedIs(ms, i, k + 1);
      var r := FirstWanted(ms, i, k);
      if r < |ms| {
        var l := if ms[i].deps[k].kind != Conflicts && FindName(ms, i + 1, ms[i].deps[k].name) < |ms| then k
                 else var l :| FirstNamed(ms, i, k + 1, l, r); l;
        assert FirstNamed(ms, i, k, l, r);
      }
    }
  }

  function Swap(ms: seq<Module>, i: nat, j: nat): (r: seq<Module>)
    requires i < |ms| && j < |ms|
    ensures |r| == |ms|
  {
    ms[i := ms[j]][j := ms[i]]
  }

  /** Where a module that the one at position i wants is found (the length: nowhere behind it). */
  function Found(ms: seq<Module>, i: nat): (r: nat)
    requires i < |ms|
    ensures i < r <= |ms|
  {
    if ms[i].started then |ms| else FirstWanted(ms, i, 0)
  }

  datatype Sorting = Sorting(ms: seq<Module>, i: nat)

  /** From try_again to try_again, or to the next position. */
  function Next(s: Sorting): (r: Sorting)
    ensures |r.ms| == |s.ms|
  {
    if |s.ms| <= s.i then s
    else if Found(s.ms, s.i) < |s.ms| then Sorting(Swap(s.ms, s.i, Found(s.ms, s.i)), s.i)
    else Sorting(s.ms, s.i + 1)
  }

  function After(s: Sorting, k: nat): (r: Sorting)
    ensures |r.ms| == |s.ms|
    decreases k
  {
    if k == 0 then s else After(Next(s), k - 1)
  }

  /** No module up to position i wants one behind it. */
  predicate OrderedTo(ms: seq<Module>, i: nat) {
    forall p, q :: 0 <= p < i && p < q < |ms| ==> !Wants(ms[p], ms[q].name)
  }

  lemma FoundNone(ms: seq<Module>, i: nat)
    requires i < |ms| && Found(ms, i) == |ms|
    ensures forall q :: i < q < |ms| ==> !Wants(ms[i], ms[q].name)
  {
    FirstWantedIs(ms, i, 0);
  }

  lemma FoundSome(ms: seq<Module>, i: nat)
    requires i < |ms| && Found(ms, i) < |ms|
    ensures Wants(ms[i], ms[Found(ms, i)].name)
  {
    FirstWantedIs(ms, i, 0);
  }

  lemma OrderedSwap(ms: seq<Module>, i: nat, j: nat)
    requires OrderedTo(ms, i) && i < j < |ms|
    ensures OrderedTo(Swap(ms, i, j), i)
  {
    var r := Swap(ms, i, j);
    forall p, q | 0 <= p < i && p < q < |r|
      ensures !Wants(r[p], r[q].name)
    {
      assert !Wants(ms[p], ms[if q == i then j else if q == j then i else q].name);
    }
  }

  // ---------- termination ----------

  /** Every wanted module that is present ranks below the one that wants it. */
  ghost predicate Ranked(ms: seq<Module>, rank: map<nat, nat>) {
    && (forall p :: 0 <= p < |ms| ==> ms[p].name in rank)
    && (forall p, q :: 0 <= p < |ms| && 0 <= q < |ms| && ms[p].name != ms[q].name && Wants(ms[p], ms[q].name)
          ==> rank[ms[q].name] < rank[ms[p].name])
  }

  ghost predicate Acyclic(ms: seq<Module>) {
    exists rank :: Ranked(ms, rank)
  }

  predicate DistinctNames(ms: seq<Module>) {
    forall p, q :: 0 <= p < |ms| && 0 <= q < |ms| && p != q ==> ms[p].name != ms[q].name
  }

  lemma SwapKeeps(ms: seq<Module>, i: nat, j: nat, rank: map<nat, nat>)
    requires i < |ms| && j < |ms|
    ensures DistinctNames(ms) ==> DistinctNames(Swap(ms, i, j))
    ensures Ranked(ms, rank) ==> Ranked(Swap(ms, i, j), rank)
  {
    var r := Swap(ms, i, j);
    forall p | 0 <= p < |ms|
      ensures r[p] == ms[if p == i then j else if p == j then i else p]
    {
    }
  }

  /** The sort. Its measure: the positions still to go, then the rank of the module at the current one. */
  method SortModules(a: array<Module>, ghost rank: map<nat, nat>)
    requires DistinctNames(a[..]) && Ranked(a[..], rank)
    modifies a
    ensures multiset(a[..]) == multiset(old(a[..]))
    ensures OrderedTo(a[..], a.Length) && DistinctNames(a[..])
    ensures forall i, j, k :: 0 <= i < j < a.Length && !a[i].started && 0 <= k < |a[i].deps| && a[i].deps[k].kind != Conflicts
              ==> a[i].deps[k].name != a[j].name
  {
    var i := 0;
    while i < a.Length
      invariant 0 <= i <= a.Length && OrderedTo(a[..], i)
      invariant multiset(a[..]) == multiset(old(a[..]))
      invariant DistinctNames(a[..]) && Ranked(a[..], rank)
      decreases a.Length - i, if i < a.Length then rank[a[i].name] else 0
    {
      ghost var ms := a[..];
      var j := FindWanted(a, i);
      if j < a.Length {
        FoundSome(ms, i);
        OrderedSwap(ms, i, j);
        SwapKeeps(ms, i, j, rank);
        a[i], a[j] := a[j], a[i];
        assert a[..] == Swap(ms, i, j);
      } else {
        FoundNone(ms, i);
        i := i + 1;
      }
    }
  }

  /** The search for a module to swap with. */
  method FindWanted(a: array<Module>, i: nat) returns (j: nat)
    requires i < a.Length
    ensures j == Found(a[..], i)
    ensures i < j <= a.Length && (j < a.Length ==> !a[i].started && exists l :: FirstNamed(a[..], i, 0, l, j))
    ensures j == a.Length && !a[i].started ==>
              forall q, l :: i < q < a.Length && 0 <= l < |a[i].deps| && a[i].deps[l].kind != Conflicts ==> a[i].deps[l].name != a[q].name
  {
    ghost var ms := a[..];
    FirstWantedIs(ms, i, 0);
    var m := a[i];
    if !m.started {
      var k := 0;
      while k < |m.deps|
        invariant 0 <= k <= |m.deps| && FirstWanted(ms, i, k) == FirstWanted(ms, i, 0)
      {
        if m.deps[k].kind != Conflicts {
          j := i + 1;
          while j < a.Length
            invariant i < j <= a.Length && FindName(ms, j, m.deps[k].name) == FindName(ms, i + 1, m.deps[k].name)
          {
            if a[j].name == m.deps[k].name {
              return;
            }
            j := j + 1;
          }
        }
        k := k + 1;
      }
    }
    j := a.Length;
  }

  // ---------- exactly the acyclic relations are sorted ----------

  /** The module called n wants another one of the set. */
  ghost predicate WantsIn(ms: seq<Module>, c: set<nat>, n: nat) {
    exists p, q :: InTrap(ms, c, n, p, q)
  }

  predicate InTrap(ms: seq<Module>, c: set<nat>, n: nat, p: nat, q: nat) {
    p < |ms| && q < |ms| && p != q && ms[p].name == n && ms[q].name in c && Wants(ms[p], ms[q].name)
  }

  /** Every module of the set wants another one of the set. */
  ghost predicate Trap(ms: seq<Module>, c: set<nat>) {
    c != {} && forall n {:trigger WantsIn(ms, c, n)} :: n in c ==> WantsIn(ms, c, n)
  }

  /** No module of the set is before position i. */
  predicate NoneBefore(s: Sorting, c: set<nat>) {
    s.i <= |s.ms| && forall p :: 0 <= p < s.i ==> s.ms[p].name !in c
  }

  lemma WantsSwap(ms: seq<Module>, i: nat, j: nat, c: set<nat>, n: nat)
    requires i < |ms| && j < |ms| && WantsIn(ms, c, n)
    ensures WantsIn(Swap(ms, i, j), c, n)
  {
    var p, q :| InTrap(ms, c, n, p, q);
    assert InTrap(Swap(ms, i, j), c, n, if p == i then j else if p == j then i else p, if q == i then j else if q == j then i else q);
  }

  lemma TrapSwap(ms: seq<Module>, i: nat, j: nat, c: set<nat>)
    requires i < |ms| && j < |ms| && Trap(ms, c)
    ensures Trap(Swap(ms, i, j), c)
  {
    forall n | n in c
      ensures WantsIn(Swap(ms, i, j), c, n)
    {
      assert WantsIn(ms, c, n);
      WantsSwap(ms, i, j, c, n);
    }
  }

  /** A module of the set, and one it wants, with their positions. */
  lemma InTrapAt(s: Sorting, c: set<nat>, n: nat) returns (p: nat, q: nat)
    requires Trap(s.ms, c) && NoneBefore(s, c) && n in c
    ensures InTrap(s.ms, c, n, p, q) && s.i <= p && s.i <= q
  {
    assert WantsIn(s.ms, c, n);
    p, q :| InTrap(s.ms, c, n, p, q);
  }

  lemma TrapNext(s: Sorting, c: set<nat>)
    requires DistinctNames(s.ms) && Trap(s.ms, c) && NoneBefore(s, c)
    ensures s.i < |s.ms|
    ensures DistinctNames(Next(s).ms) && Trap(Next(s).ms, c) && NoneBefore(Next(s), c)
  {
    var n :| n in c;
    var p, q := InTrapAt(s, c, n);
    if Found(s.ms, s.i) < |s.ms| {
      TrapSwap(s.ms, s.i, Found(s.ms, s.i), c);
      SwapKeeps(s.ms, s.i, Found(s.ms, s.i), map[]);
    } else {
      FoundNone(s.ms, s.i);
      if s.ms[s.i].name in c {
        var p', q' := InTrapAt(s, c, s.ms[s.i].name);
      }
    }
  }

  lemma {:induction false} Stuck(s: Sorting, c: set<nat>, k: nat)
    requires DistinctNames(s.ms) && Trap(s.ms, c) && NoneBefore(s, c)
    ensures After(s, k).i < |s.ms|
    decreases k
  {
    TrapNext(s, c);
    if k > 0 {
      Stuck(Next(s), c, k - 1);
    }
  }

  /** With ranks the sort comes to the end. */
  lemma {:induction false} Ends(s: Sorting, rank: map<nat, nat>) returns (k: nat)
    requires DistinctNames(s.ms) && Ranked(s.ms, rank) && s.i <= |s.ms|
    ensures After(s, k).i == |s.ms|
    decreases |s.ms| - s.i, if s.i < |s.ms| then rank[s.ms[s.i].name] else 0
  {
    if s.i == |s.ms| {
      k := 0;
    } else {
      var j := Found(s.ms, s.i);
      if j < |s.ms| {
        FoundSome(s.ms, s.i);
        SwapKeeps(s.ms, s.i, j, rank);
      }
      k := Ends(Next(s), rank);
      k := k + 1;
    }
  }

  /** The names outside `todo` are ranked below `bound`, and want only each other. */
  ghost predicate RankedBut(ms: seq<Module>, todo: set<nat>, rank: map<nat, nat>, bound: nat) {
    && (forall p :: 0 <= p < |ms| && ms[p].name !in todo ==> ms[p].name in rank && rank[ms[p].name] < bound)
    && (forall p, q :: 0 <= p < |ms| && 0 <= q < |ms| && ms[p].name !in todo && ms[p].name != ms[q].name && Wants(ms[p], ms[q].name)
          ==> ms[q].name !in todo && rank[ms[q].name] < rank[ms[p].name])
  }

  /** A module that wants no other one to be ranked can be ranked next. */
  lemma RankNext(ms: seq<Module>, todo: set<nat>, rank: map<nat, nat>, bound: nat, n: nat)
    requires DistinctNames(ms) && RankedBut(ms, todo, rank, bound) && n in todo && !WantsIn(ms, todo, n)
    ensures RankedBut(ms, todo - {n}, rank[n := bound], bound + 1)
  {
    forall p, q | 0 <= p < |ms| && 0 <= q < |ms| && ms[p].name == n && ms[q].name != n && Wants(ms[p], ms[q].name)
      ensures ms[q].name !in todo
    {
      assert !InTrap(ms, todo, n, p, q);
    }
  }

  /** Either everything can be ranked, or what is left over is a trap. */
  lemma {:induction false} RankOrTrap(ms: seq<Module>, todo: set<nat>, rank: map<nat, nat>, bound: nat)
    requires DistinctNames(ms) && RankedBut(ms, todo, rank, bound)
    requires forall n :: n in todo ==> exists p :: 0 <= p < |ms| && ms[p].name == n
    ensures Acyclic(ms) || exists c :: Trap(ms, c)
    decreases todo
  {
    if todo == {} {
      assert Ranked(ms, rank);
    } else if n :| n in todo && !WantsIn(ms, todo, n) {
      RankNext(ms, todo, rank, bound, n);
      RankOrTrap(ms, todo - {n}, rank[n := bound], bound + 1);
    } else {
      assert Trap(ms, todo);
    }
  }

  /** The sort reaches the end exactly when the wanted modules that are present form no cycle. */
  lemma SortEndsIff(ms: seq<Module>)
    requires DistinctNames(ms)
    ensures (exists k :: After(Sorting(ms, 0), k).i == |ms|) <==> Acyclic(ms)
  {
    if Acyclic(ms) {
      var rank :| Ranked(ms, rank);
      var k := Ends(Sorting(ms, 0), rank);
    } else {
      var names := set p | 0 <= p < |ms| :: ms[p].name;
      RankOrTrap(ms, names, map[], 0);
      var c :| Trap(ms, c);
      forall k
        ensures After(Sorting(ms, 0), k).i != |ms|
      {
        Stuck(Sorting(ms, 0), c, k);
      }
    }
  }

  /** Two modules that want each other change places for ever. */
  lemma TwoCycle()
    ensures var a, b := Module(1, false, [Dep(2, Required)]), Module(2, false, [Dep(1, Optional)]);
            Next(Next(Sorting([a, b], 0))) == Sorting([a, b], 0)
  {
    var a, b := Module(1, false, [Dep(2, Required)]), Module(2, false, [Dep(1, Optional)]);
    assert FindName([a, b], 1, 2) == 1 && FindName([b, a], 1, 1) == 1;
    assert FirstWanted([a, b], 0, 0) == 1 && FirstWanted([b, a], 0, 0) == 1;
    assert Swap([a, b], 0, 1) == [b, a] && Swap([b, a], 0, 1) == [a, b];
  }
}
