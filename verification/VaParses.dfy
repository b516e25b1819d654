/** Which arguments are parsed as what. */
module VaParses {
  import opened VaSpecs
  import opened VaPlans

  /** Whether the given argument is of the demanded type. */
  type Oracle = (nat, Item) -> bool

  predicate Parses(fits: Oracle, i: nat, x: Item) {
    x.Arg? && Supported(x.letter) && fits(i, x)
  }

  predicate AllParse(fits: Oracle, plan: seq<Taken>) {
    forall k :: 0 <= k < |plan| && plan[k].Fixed? ==> Parses(fits, plan[k].arg, plan[k].item)
  }

  /** Arguments i, i + 1, .. parse as the given items. */
  predicate RunParses(fits: Oracle, items: seq<Item>, i: nat) {
    forall j :: 0 <= j < |items| ==> Parses(fits, i + j, items[j])
  }

  /** The arguments in front of the variable part, and if there are more those behind it at the end, parse. */
  predicate FixedParse(s: Spec, n: nat, fits: Oracle) {
    var args, post := ArgsOf(s.prefix), |s.suffix|;
    && RunParses(fits, if n < |args| then args[..n] else args, 0)
    && (|args| < n && post <= n ==> RunParses(fits, s.suffix, n - post))
  }

  lemma {:induction false} FixedRunAt(items: seq<Item>, i: nat, k: nat)
    requires k < |items|
    ensures |FixedRun(items, i)| == |items| && FixedRun(items, i)[k] == Fixed(i + k, items[k])
    decreases |items|
  {
    if |items| > 1 {
      FixedRunAt(items[1..], i + 1, if k > 0 then k - 1 else 0);
    }
  }

  lemma RunParse(fits: Oracle, items: seq<Item>, i: nat, run: seq<Taken>)
    requires run == FixedRun(items, i)
    ensures AllParse(fits, run) <==> RunParses(fits, items, i)
  {
    FixedRunLength(items, i);
    if AllParse(fits, run) {
      forall j | 0 <= j < |items|
        ensures Parses(fits, i + j, items[j])
      {
        FixedRunAt(items, i, j);
        assert run[j].Fixed?;
      }
    }
    if RunParses(fits, items, i) {
      forall k | 0 <= k < |run| && run[k].Fixed?
        ensures Parses(fits, run[k].arg, run[k].item)
      {
        FixedRunAt(items, i, k);
      }
    }
  }

  lemma {:induction false} FixedRunLength(items: seq<Item>, i: nat)
    ensures |FixedRun(items, i)| == |items|
    decreases |items|
  {
    if items != [] {
      FixedRunLength(items[1..], i + 1);
    }
  }

  lemma JoinParse(fits: Oracle, a: seq<Taken>, b: seq<Taken>, all: seq<Taken>)
    requires all == a + b
    ensures AllParse(fits, all) <==> AllParse(fits, a) && AllParse(fits, b)
  {
    assert forall k :: 0 <= k < |a| ==> all[k] == a[k];
    assert forall k :: 0 <= k < |b| ==> all[|a| + k] == b[k];
  }

  /** Every fixed argument parses if and only if it does where it stands. */
  lemma ParsedFixed(s: Spec, n: nat, plan: seq<Taken>, fits: Oracle)
    requires s.Shaped() && InOrder(s, n, plan)
    ensures AllParse(fits, plan) <==> FixedParse(s, n, fits)
  {
    var args := ArgsOf(s.prefix);
    if n <= |args| {
      assert n == |args| ==> args[..n] == args;
      RunParse(fits, args[..n], 0, plan);
    } else {
      RunParse(fits, args, 0, FixedRun(args, 0));
      LastParse(s, n, fits, Last(s, n));
      JoinParse(fits, FixedRun(args, 0), Last(s, n), plan);
    }
  }

  lemma LastParse(s: Spec, n: nat, fits: Oracle, last: seq<Taken>)
    requires Args(s.prefix) + |s.suffix| <= n && last == Last(s, n)
    ensures AllParse(fits, last) <==> RunParses(fits, s.suffix, n - |s.suffix|)
  {
    var slice := [Slice(Args(s.prefix), n - Args(s.prefix) - |s.suffix|)];
    var run := FixedRun(s.suffix, n - |s.suffix|);
    RunParse(fits, s.suffix, n - |s.suffix|, run);
    JoinParse(fits, slice, run, last);
  }
}
