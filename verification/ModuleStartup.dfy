// zend_startup_modules: the sweep after the sort.
module ModuleStartup {
  // It starts each module whose required modules are started, and takes the others out of the registry.

  import opened ModuleSort

  predicate Requires(m: Module, name: nat) {
    exists k :: 0 <= k < |m.deps| && m.deps[k].kind == Required && m.deps[k].name == name
  }

  // ---------- the sweep, position by position ----------

  /** The module at position i starts: it is started already, or each module it requires is itself, started
      from the beginning, or before it and starts. */
  ghost predicate Good(ms: seq<Module>, i: nat)
    requires i < |ms|
    decreases i
  {
    ms[i].started || forall d :: Requires(ms[i], d) ==> Supplied(ms, i, d)
  }

  ghost predicate Supplied(ms: seq<Module>, i: nat, d: nat)
    requires i < |ms|
    decreases i, 0
  {
    exists j :: 0 <= j < |ms| && ms[j].name == d && (j == i || ms[j].started || (j < i && Good(ms, j)))
  }

  /** The first n modules that start, marked as started. */
  ghost function Kept(ms: seq<Module>, n: nat): seq<Module>
    requires n <= |ms|
  {
    if n == 0 then []
    else if Good(ms, n - 1) then Kept(ms, n - 1) + [ms[n - 1].(started := true)]
    else Kept(ms, n - 1)
  }

  lemma {:induction false} KeptIs(ms: seq<Module>, n: nat, m: Module)
    requires n <= |ms|
    ensures m in Kept(ms, n) <==> exists j :: 0 <= j < n && Good(ms, j) && m == ms[j].(started := true)
    decreases n
  {
    if n > 0 {
      KeptIs(ms, n - 1, m);
    }
  }

  lemma {:induction false} KeptNames(ms: seq<Module>, n: nat)
    requires n <= |ms| && DistinctNames(ms)
    ensures DistinctNames(Kept(ms, n))
    ensures forall k :: 0 <= k < |Kept(ms, n)| ==> exists j :: 0 <= j < n && Kept(ms, n)[k].name == ms[j].name
    decreases n
  {
    if n > 0 {
      KeptNames(ms, n - 1);
      var before, now := Kept(ms, n - 1), Kept(ms, n);
      forall k | 0 <= k < |now|
        ensures exists j :: 0 <= j < n && now[k].name == ms[j].name
      {
        if k < |before| {
          assert now[k] == before[k];
        } else {
          assert now[k].name == ms[n - 1].name;
        }
      }
    }
  }

  predicate Available(registry: seq<Module>, d: nat) {
    exists m :: m in registry && m.name == d && m.started
  }

  /** While position n is being started, a module is available exactly when it supplies the one there. */
  lemma AvailableIs(ms: seq<Module>, n: nat, d: nat)
    requires n < |ms|
    ensures Available(Kept(ms, n) + [ms[n].(started := true)] + ms[n + 1..], d) <==> Supplied(ms, n, d)
  {
    var registry := Kept(ms, n) + [ms[n].(started := true)] + ms[n + 1..];
    if Available(registry, d) {
      var m :| m in registry && m.name == d && m.started;
      KeptIs(ms, n, m);
      if m in Kept(ms, n) {
        var j :| 0 <= j < n && Good(ms, j) && m == ms[j].(started := true);
      } else if m != ms[n].(started := true) {
        var j :| 0 <= j < |ms[n + 1..]| && ms[n + 1..][j] == m;
        assert ms[n + 1 + j] == m;
      }
    }
    if Supplied(ms, n, d) {
      var j :| 0 <= j < |ms| && ms[j].name == d && (j == n || ms[j].started || (j < n && Good(ms, j)));
      if j < n {
        KeptIs(ms, n, ms[j].(started := true));
        assert ms[j].(started := true) in registry;
      } else if j == n {
        assert ms[n].(started := true) in registry;
      } else {
        assert ms[n + 1..][j - n - 1] == ms[j];
        assert ms[j] in registry;
      }
    }
  }

  /** The sweep of ms when n modules have been seen: those kept, and the others still to be seen from i on. */
  ghost predicate SweepBehind(ms: seq<Module>, n: nat, modules: seq<Module>, i: nat, k: nat)
    decreases k
  {
    if k == 0 then n <= |ms| && modules == Kept(ms, n) + ms[n..] && i == |Kept(ms, n)|
    else SweepBehind(ms, n, modules, i, k - 1)
  }

  ghost predicate Sweeping(ms: seq<Module>, n: nat, modules: seq<Module>, i: nat) {
    SweepBehind(ms, n, modules, i, n + 3)
  }

  lemma {:induction false} SweepBehindIs(ms: seq<Module>, n: nat, modules: seq<Module>, i: nat, k: nat)
    ensures SweepBehind(ms, n, modules, i, k) <==> n <= |ms| && modules == Kept(ms, n) + ms[n..] && i == |Kept(ms, n)|
    decreases k
  {
    if k > 0 {
      SweepBehindIs(ms, n, modules, i, k - 1);
    }
  }

  lemma SweepingIs(ms: seq<Module>, n: nat, modules: seq<Module>, i: nat)
    ensures Sweeping(ms, n, modules, i) <==> n <= |ms| && modules == Kept(ms, n) + ms[n..] && i == |Kept(ms, n)|
  {
    SweepBehindIs(ms, n, modules, i, n + 3);
  }

  lemma SweepStarts(ms: seq<Module>)
    ensures Sweeping(ms, 0, ms, 0)
  {
    SweepingIs(ms, 0, ms, 0);
    assert Kept(ms, 0) + ms[0..] == ms;
  }

  /** Where the sweep is: at a module still to be seen, or at the end. */
  lemma SweepAt(ms: seq<Module>, n: nat, modules: seq<Module>, i: nat)
    requires Sweeping(ms, n, modules, i)
    ensures n <= |ms| && i <= |modules| && (i < |modules| <==> n < |ms|)
    ensures n == |ms| ==> modules == Kept(ms, |ms|)
  {
    SweepingIs(ms, n, modules, i);
  }

  class Registry {
    var modules: seq<Module>

    constructor (ms: seq<Module>)
      ensures modules == ms
    {
      modules := ms;
    }

    method Lookup(d: nat) returns (ok: bool)
      ensures ok <==> Available(modules, d)
    {
      var j := 0;
      ok := false;
      while j < |modules|
        invariant 0 <= j <= |modules| && !ok
        invariant forall k :: 0 <= k < j ==> !(modules[k].name == d && modules[k].started)
      {
        if modules[j].name == d && modules[j].started {
          return true;
        }
        j := j + 1;
      }
    }

    /** zend_startup_module_ex for the module at position i, whose startup function succeeds. */
    method StartModule(i: nat) returns (ok: bool)
      requires i < |modules|
      modifies this
      ensures var m, with := old(modules)[i], old(modules)[i := old(modules)[i].(started := true)];
              && (ok <==> m.started || forall d :: Requires(m, d) ==> Available(with, d))
              && modules == if ok then with else old(modules)
    {
      var m := modules[i];
      if m.started {
        assert modules == modules[i := modules[i].(started := true)];
        return true;
      }
      ghost var with := modules[i := m.(started := true)];
      modules := modules[i := m.(started := true)];
      var k := 0;
      while k < |m.deps|
        invariant 0 <= k <= |m.deps| && modules == with
        invariant forall l :: 0 <= l < k && m.deps[l].kind == Required ==> Available(with, m.deps[l].name)
      {
        if m.deps[k].kind == Required {
          var found := Lookup(m.deps[k].name);
          if !found {
            assert Requires(m, m.deps[k].name);
            modules := modules[i := m];
            assert modules == old(modules);
            return false;
          }
        }
        k := k + 1;
      }
      return true;
    }

    /** One module of the sweep: kept when it starts, else removed. */
    method StartNext(i: nat, ghost ms: seq<Module>, ghost n: nat) returns (next: nat)
      requires n < |ms| && Sweeping(ms, n, modules, i)
      modifies this
      ensures Sweeping(ms, n + 1, modules, next)
    {
      SweepingIs(ms, n, modules, i);
      ghost var rest := ms[n + 1..];
      assert ms[n..] == [ms[n]] + rest && modules[i] == ms[n];
      ghost var with := modules[i := modules[i].(started := true)];
      assert with == Kept(ms, n) + [ms[n].(started := true)] + rest;
      forall d
        ensures Available(with, d) <==> Supplied(ms, n, d)
      {
        AvailableIs(ms, n, d);
      }
      var ok := StartModule(i);
      next := i;
      if ok {
        next := i + 1;
      } else {
        modules := modules[..i] + modules[i + 1..];
        assert modules == Kept(ms, n) + rest;
      }
      SweepingIs(ms, n + 1, modules, next);
    }

    /** zend_hash_apply with zend_startup_module_zval. */
    method StartAll()
      modifies this
      ensures modules == Kept(old(modules), |old(modules)|)
    {
      ghost var ms, n := modules, 0;
      var i: nat := 0;
      SweepStarts(ms);
      SweepAt(ms, n, modules, i);
      while i < |modules|
        invariant 0 <= n <= |ms| && Sweeping(ms, n, modules, i) && (i < |modules| <==> n < |ms|)
        decreases |ms| - n
      {
        i := StartNext(i, ms, n);
        n := n + 1;
        SweepAt(ms, n, modules, i);
      }
      SweepAt(ms, n, modules, i);
    }
  }

  // ---------- which modules these are ----------

  /** A chain of required modules from the first name: each is registered and not started yet, but for the
      last, which is not registered. */
  ghost predicate BadPath(ms: seq<Module>, path: seq<nat>) {
    && path != []
    && (forall m :: m in ms ==> m.name != path[|path| - 1])
    && forall k :: 0 <= k < |path| - 1 ==> Leads(ms, path[k], path[k + 1])
  }

  ghost predicate Leads(ms: seq<Module>, a: nat, b: nat) {
    exists m :: m in ms && m.name == a && !m.started && Requires(m, b)
  }

  /** Something the module needs, directly or not, is not registered. */
  ghost predicate Missing(ms: seq<Module>, name: nat) {
    exists path :: BadPath(ms, path) && path[0] == name
  }

  lemma ByName(ms: seq<Module>, i: nat, m: Module)
    requires DistinctNames(ms) && i < |ms| && m in ms && m.name == ms[i].name
    ensures m == ms[i]
  {
  }

  lemma {:induction false} BadNotGood(ms: seq<Module>, i: nat, path: seq<nat>)
    requires DistinctNames(ms) && i < |ms| && BadPath(ms, path) && path[0] == ms[i].name
    ensures !Good(ms, i)
    decreases |path|
  {
    assert ms[i] in ms && |path| > 1;
    assert Leads(ms, path[0], path[1]);
    var m :| m in ms && m.name == path[0] && !m.started && Requires(m, path[1]);
    ByName(ms, i, m);
    var rest := path[1..];
    forall k | 0 <= k < |rest| - 1
      ensures Leads(ms, rest[k], rest[k + 1])
    {
      assert Leads(ms, path[k + 1], path[k + 2]);
    }
    forall j | 0 <= j < |ms| && ms[j].name == path[1]
      ensures !Good(ms, j)
    {
      BadNotGood(ms, j, rest);
    }
    if Good(ms, i) {
      assert Supplied(ms, i, path[1]);
    }
  }

  lemma {:induction false} NotGoodBad(ms: seq<Module>, i: nat)
    requires OrderedTo(ms, |ms|) && i < |ms| && !Good(ms, i)
    ensures Missing(ms, ms[i].name)
    decreases i
  {
    var d :| Requires(ms[i], d) && !Supplied(ms, i, d);
    assert Leads(ms, ms[i].name, d);
    if j :| 0 <= j < |ms| && ms[j].name == d {
      var k :| 0 <= k < |ms[i].deps| && ms[i].deps[k].kind == Required && ms[i].deps[k].name == d;
      assert Wants(ms[i], ms[j].name);
      NotGoodBad(ms, j);
      var path :| BadPath(ms, path) && path[0] == d;
      LongerPath(ms, ms[i].name, path);
    } else {
      assert BadPath(ms, [ms[i].name, d]);
    }
  }

  lemma LongerPath(ms: seq<Module>, a: nat, path: seq<nat>)
    requires BadPath(ms, path) && Leads(ms, a, path[0])
    ensures Missing(ms, a)
  {
    var more := [a] + path;
    forall k | 0 <= k < |more| - 1
      ensures Leads(ms, more[k], more[k + 1])
    {
      if k > 0 {
        assert Leads(ms, path[k - 1], path[k]);
      }
    }
    assert BadPath(ms, more);
  }

  /** In a sorted registry the modules that start are those whose required modules, and theirs, are all there. */
  lemma GoodIff(ms: seq<Module>, i: nat)
    requires DistinctNames(ms) && OrderedTo(ms, |ms|) && i < |ms|
    ensures Good(ms, i) <==> !Missing(ms, ms[i].name)
  {
    if Missing(ms, ms[i].name) {
      var path :| BadPath(ms, path) && path[0] == ms[i].name;
      BadNotGood(ms, i, path);
    }
    if !Good(ms, i) {
      NotGoodBad(ms, i);
    }
  }

  lemma SameMembers(ms: seq<Module>, rs: seq<Module>)
    requires multiset(ms) == multiset(rs)
    ensures forall m :: m in ms <==> m in rs
    ensures forall name :: Missing(ms, name) <==> Missing(rs, name)
  {
    forall m
      ensures m in ms <==> m in rs
    {
      assert m in ms <==> m in multiset(ms);
      assert m in rs <==> m in multiset(rs);
    }
    forall a, b
      ensures Leads(ms, a, b) <==> Leads(rs, a, b)
    {
    }
    forall path
      ensures BadPath(ms, path) <==> BadPath(rs, path)
    {
    }
  }

  /** zend_startup_modules. */
  method StartupModules(a: array<Module>, ghost rank: map<nat, nat>) returns (r: Registry)
    requires DistinctNames(a[..]) && Ranked(a[..], rank)
    modifies a
    ensures forall m :: m in r.modules <==> exists n :: n in old(a[..]) && !Missing(old(a[..]), n.name) && m == n.(started := true)
    ensures DistinctNames(r.modules)
  {
    SortModules(a, rank);
    ghost var ms := a[..];
    r := new Registry(a[..]);
    r.StartAll();
    SameMembers(old(a[..]), ms);
    KeptNames(ms, |ms|);
    forall m
      ensures m in Kept(ms, |ms|) <==> exists n :: n in old(a[..]) && !Missing(old(a[..]), n.name) && m == n.(started := true)
    {
      KeptMeans(ms, m);
    }
  }

  lemma KeptMeans(ms: seq<Module>, m: Module)
    requires DistinctNames(ms) && OrderedTo(ms, |ms|)
    ensures m in Kept(ms, |ms|) <==> exists n :: n in ms && !Missing(ms, n.name) && m == n.(started := true)
  {
    KeptIs(ms, |ms|, m);
    forall j | 0 <= j < |ms|
      ensures Good(ms, j) <==> !Missing(ms, ms[j].name)
    {
      GoodIff(ms, j);
    }
  }
}
