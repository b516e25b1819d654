/** How the arguments of a call are taken by a specification: once each and in order. */
module VaPlans {
  import opened VaSpecs

  // ---------- what is consumed ----------

  /** Argument `arg` parsed as `item`; or `count` arguments from `arg` on taken as the variable part. */
  datatype Taken = Fixed(arg: nat, item: Item) | Slice(arg: nat, count: nat)

  /** How the arguments from i on are taken, `left` in number, `post` of them reserved for the end. */
  function Plan(items: seq<Item>, i: nat, left: nat, post: nat): seq<Taken>
    decreases |items|, 0
  {
    if left == 0 || items == [] then []
    else match items[0]
      case Arg(_, _) => [Fixed(i, items[0])] + Plan(items[1..], i + 1, left - 1, post)
      case Bar => Plan(items[1..], i, left, post)
      case Star => Variable(items[1..], i, left, post)
      case Plus => Variable(items[1..], i, left, post)
  }

  function Variable(items: seq<Item>, i: nat, left: nat, post: nat): seq<Taken>
    decreases |items|, 1
  {
    if left < post then [] else [Slice(i, left - post)] + Plan(items, i + left - post, post, post)
  }

  /** The interpreter never goes astray: no count drops below zero, and whatever is parsed as an argument is one. */
  predicate Fits(items: seq<Item>, left: nat, post: nat)
    decreases |items|
  {
    left == 0 ||
    (items != [] && match items[0]
      case Arg(_, _) => Fits(items[1..], left - 1, post)
      case Bar => (|items| == 1 || !items[1].Bar?) && Fits(items[1..], left, post)
      case Star => post <= left && (post > 0 ==> |items| > 1 && items[1].Arg?) && Fits(items[1..], post, post)
      case Plus => post <= left && (post > 0 ==> |items| > 1 && items[1].Arg?) && Fits(items[1..], post, post))
  }

  /** The arguments among the items. */
  function ArgsOf(items: seq<Item>): (r: seq<Item>)
    ensures |r| == Args(items)
  {
    if items == [] then [] else (if items[0].Arg? then [items[0]] else []) + ArgsOf(items[1..])
  }

  /** Arguments i, i + 1, .. parsed as the given items. */
  function FixedRun(items: seq<Item>, i: nat): seq<Taken> {
    if items == [] then [] else [Fixed(i, items[0])] + FixedRun(items[1..], i + 1)
  }

  /** The prefix when it takes everything that is left: what stands behind it is not reached. */
  lemma {:induction false} PlanShort(items: seq<Item>, rest: seq<Item>, i: nat, left: nat, post: nat)
    requires PrefixOk(items) && left <= Args(items)
    ensures Plan(items + rest, i, left, post) == FixedRun(ArgsOf(items)[..left], i)
    ensures Fits(items + rest, left, post)
    decreases |items|
  {
    if left > 0 {
      assert (items + rest)[0] == items[0] && (items + rest)[1..] == items[1..] + rest;
      if items[0].Arg? {
        PlanShort(items[1..], rest, i + 1, left - 1, post);
        assert ArgsOf(items)[..left] == [items[0]] + ArgsOf(items[1..])[..left - 1];
      } else {
        PlanShort(items[1..], rest, i, left, post);
        assert ArgsOf(items) == ArgsOf(items[1..]);
        assert |items| > 1 ==> (items + rest)[1] == items[1];
      }
    }
  }

  /** The prefix when arguments are left behind it. */
  lemma PlanPrefix(items: seq<Item>, rest: seq<Item>, i: nat, left: nat, post: nat)
    requires PrefixOk(items) && Args(items) < left
    ensures Plan(items + rest, i, left, post)
         == FixedRun(ArgsOf(items), i) + Plan(rest, i + Args(items), left - Args(items), post)
  {
    var p := Args(items);
    PlanThrough(items, rest, i, left, post, p, Plan(rest, i + p, left - p, post));
  }

  lemma {:induction false} PlanThrough(items: seq<Item>, rest: seq<Item>, i: nat, left: nat, post: nat,
                                       p: nat, tail: seq<Taken>)
    requires PrefixOk(items) && p == Args(items) < left && tail == Plan(rest, i + p, left - p, post)
    ensures Plan(items + rest, i, left, post) == FixedRun(ArgsOf(items), i) + tail
    decreases |items|
  {
    if items == [] {
      PlanNone(items, rest, i);
    } else if items[0].Arg? {
      PlanThrough(items[1..], rest, i + 1, left - 1, post, p - 1, tail);
      PlanPrefixArg(items, rest, i, left, post, tail);
    } else {
      PlanThrough(items[1..], rest, i, left, post, p, tail);
      PlanPrefixBar(items, rest, i, left, post);
    }
  }

  lemma PlanNone(items: seq<Item>, rest: seq<Item>, i: nat)
    requires items == []
    ensures items + rest == rest && FixedRun(ArgsOf(items), i) == [] && Args(items) == 0
  {
  }

  lemma PlanPrefixArg(items: seq<Item>, rest: seq<Item>, i: nat, left: nat, post: nat, tail: seq<Taken>)
    requires items != [] && items[0].Arg? && left > 0
    requires Plan(items[1..] + rest, i + 1, left - 1, post) == FixedRun(ArgsOf(items[1..]), i + 1) + tail
    ensures Plan(items + rest, i, left, post) == FixedRun(ArgsOf(items), i) + tail
  {
    assert (items + rest)[0] == items[0] && (items + rest)[1..] == items[1..] + rest;
    PlanArg(items + rest, i, left, post);
    FixedRunArgs(items, i);
    Joined([Fixed(i, items[0])], FixedRun(ArgsOf(items[1..]), i + 1), tail);
  }

  lemma PlanPrefixBar(items: seq<Item>, rest: seq<Item>, i: nat, left: nat, post: nat)
    requires items != [] && items[0].Bar? && left > 0
    ensures Plan(items + rest, i, left, post) == Plan(items[1..] + rest, i, left, post)
    ensures ArgsOf(items) == ArgsOf(items[1..])
  {
    assert (items + rest)[0] == items[0] && (items + rest)[1..] == items[1..] + rest;
  }

  lemma {:induction false} FitsPrefix(items: seq<Item>, rest: seq<Item>, left: nat, post: nat)
    requires PrefixOk(items) && Args(items) < left
    requires rest != [] && !rest[0].Bar?
    ensures Fits(items + rest, left, post) <==> Fits(rest, left - Args(items), post)
    decreases |items|
  {
    if items == [] {
      assert items + rest == rest;
    } else {
      assert (items + rest)[0] == items[0] && (items + rest)[1..] == items[1..] + rest;
      assert (items + rest)[1] == if |items| > 1 then items[1] else rest[0];
      FitsPrefix(items[1..], rest, if items[0].Arg? then left - 1 else left, post);
    }
  }

  lemma FixedRunArgs(items: seq<Item>, i: nat)
    requires items != [] && items[0].Arg?
    ensures FixedRun(ArgsOf(items), i) == [Fixed(i, items[0])] + FixedRun(ArgsOf(items[1..]), i + 1)
  {
    assert ArgsOf(items)[0] == items[0] && ArgsOf(items)[1..] == ArgsOf(items[1..]);
  }

  lemma PlanArg(items: seq<Item>, i: nat, left: nat, post: nat)
    requires items != [] && items[0].Arg? && left > 0
    ensures Plan(items, i, left, post) == [Fixed(i, items[0])] + Plan(items[1..], i + 1, left - 1, post)
  {
  }

  lemma Joined<T>(a: seq<T>, b: seq<T>, c: seq<T>)
    ensures (a + b) + c == a + (b + c)
  {
  }

  lemma {:induction false} SuffixArgs(items: seq<Item>)
    requires SuffixOk(items)
    ensures ArgsOf(items) == items && Args(items) == |items|
    decreases |items|
  {
    if items != [] {
      SuffixArgs(items[1..]);
    }
  }

  /** The variable part and the arguments behind it. */
  lemma PlanTail(rest: seq<Item>, i: nat, left: nat)
    requires rest != [] && (rest[0] == Star || rest[0] == Plus) && SuffixOk(rest[1..])
    requires left > 0 && |rest| - 1 <= left
    ensures var post := |rest| - 1;
            Plan(rest, i, left, post) == [Slice(i, left - post)] + FixedRun(rest[1..], i + left - post)
  {
    var suffix, n := rest[1..], |rest| - 1;
    SuffixArgs(suffix);
    PlanShort(suffix, [], i + left - n, n, n);
    assert suffix[..n] == suffix && suffix + [] == suffix;
    PlanVariable(rest, i, left, n);
  }

  lemma PlanVariable(items: seq<Item>, i: nat, left: nat, post: nat)
    requires items != [] && (items[0] == Star || items[0] == Plus) && left > 0 && post <= left
    ensures Plan(items, i, left, post) == [Slice(i, left - post)] + Plan(items[1..], i + left - post, post, post)
  {
  }

  lemma FitsTail(rest: seq<Item>, left: nat)
    requires rest != [] && (rest[0] == Star || rest[0] == Plus) && SuffixOk(rest[1..])
    requires left > 0
    ensures Fits(rest, left, |rest| - 1) <==> |rest| - 1 <= left
  {
    var suffix, n := rest[1..], |rest| - 1;
    SuffixArgs(suffix);
    PlanShort(suffix, [], 0, n, n);
    assert suffix + [] == suffix;
    assert n > 0 ==> rest[1] == suffix[0];
  }

  // ---------- what is accepted is taken once and in order ----------

  /** A slice of consecutive arguments, and those behind it to the last of n. */
  function Last(s: Spec, n: nat): seq<Taken>
    requires Args(s.prefix) + |s.suffix| <= n
  {
    [Slice(Args(s.prefix), n - Args(s.prefix) - |s.suffix|)] + FixedRun(s.suffix, n - |s.suffix|)
  }

  /** Fixed arguments in order; a slice of consecutive ones; fixed arguments in order to the last. */
  ghost predicate InOrder(s: Spec, n: nat, plan: seq<Taken>) {
    var p := Args(s.prefix);
    if n <= p then plan == FixedRun(ArgsOf(s.prefix)[..n], 0)
    else s.variable != [] && p + |s.suffix| <= n && plan == FixedRun(ArgsOf(s.prefix), 0) + Last(s, n)
  }

  /** For a shaped specification and any number of arguments at all: the interpreter stays on course exactly when
      they all fit into the prefix, or there are enough for what stands behind the variable part. */
  lemma FitsShaped(s: Spec, n: nat)
    requires s.Shaped() && (s.variable == [] ==> n <= Args(s.prefix))
    ensures Fits(s.Items(), n, |s.suffix|) <==> n <= Args(s.prefix) || Args(s.prefix) + |s.suffix| <= n
  {
    var rest := s.variable + s.suffix;
    assert s.Items() == s.prefix + rest;
    if n <= Args(s.prefix) {
      PlanShort(s.prefix, rest, 0, n, |s.suffix|);
    } else {
      assert rest[0] == s.variable[0] && rest[1..] == s.suffix;
      FitsTail(rest, n - Args(s.prefix));
      FitsPrefix(s.prefix, rest, n, |s.suffix|);
    }
  }

  lemma PlanShaped(s: Spec, n: nat)
    requires s.Shaped() && (s.variable == [] ==> n <= Args(s.prefix))
    requires n <= Args(s.prefix) || Args(s.prefix) + |s.suffix| <= n
    ensures InOrder(s, n, Plan(s.Items(), 0, n, |s.suffix|))
  {
    var p, rest := Args(s.prefix), s.variable + s.suffix;
    assert s.Items() == s.prefix + rest;
    if n <= p {
      PlanShort(s.prefix, rest, 0, n, |s.suffix|);
    } else {
      PlanLong(s, n);
    }
  }

  lemma PlanLong(s: Spec, n: nat)
    requires s.Shaped() && s.variable != []
    requires Args(s.prefix) < n && Args(s.prefix) + |s.suffix| <= n
    ensures Plan(s.Items(), 0, n, |s.suffix|) == FixedRun(ArgsOf(s.prefix), 0) + Last(s, n)
  {
    var p, rest := Args(s.prefix), s.variable + s.suffix;
    assert s.Items() == s.prefix + rest;
    PlanLast(s, n);
    PlanPrefix(s.prefix, rest, 0, n, |s.suffix|);
  }

  lemma PlanLast(s: Spec, n: nat)
    requires s.Shaped() && s.variable != []
    requires Args(s.prefix) < n && Args(s.prefix) + |s.suffix| <= n
    ensures Plan(s.variable + s.suffix, Args(s.prefix), n - Args(s.prefix), |s.suffix|) == Last(s, n)
  {
    var p, rest := Args(s.prefix), s.variable + s.suffix;
    assert rest[0] == s.variable[0] && rest[1..] == s.suffix;
    PlanTail(rest, p, n - p);
  }

  /** A well-formed specification takes every accepted call in order. */
  lemma AcceptedInOrder(s: Spec, n: nat)
    requires s.Ok() && Admits(s, n)
    ensures Fits(s.Items(), n, |s.suffix|)
    ensures InOrder(s, n, Plan(s.Items(), 0, n, |s.suffix|))
  {
    FitsShaped(s, n);
    PlanShaped(s, n);
  }

  /** And only a well-formed one does: with an optional mark in front and two arguments behind the variable part,
      one argument too many makes `num_args + 1 - post_varargs` wrap around. */
  lemma OkIff(s: Spec)
    requires s.Shaped()
    ensures s.Ok() <==> forall n: nat :: Admits(s, n) ==> Fits(s.Items(), n, |s.suffix|)
  {
    if s.Ok() {
      forall n: nat | Admits(s, n) ensures Fits(s.Items(), n, |s.suffix|) {
        AcceptedInOrder(s, n);
      }
    } else {
      var n := Args(s.prefix) + 1;
      FitsShaped(s, n);
      forall k | 0 <= k < |s.prefix|
        ensures Args(s.prefix[..k]) <= n
      {
        ArgsPart(s.prefix, k);
      }
      assert Admits(s, n);
    }
  }

  /** The indexes of the arguments taken, in order. */
  function Indexes(plan: seq<Taken>): seq<nat> {
    if plan == [] then []
    else (if plan[0].Fixed? then [plan[0].arg] else Range(plan[0].arg, plan[0].count)) + Indexes(plan[1..])
  }

  function Range(from: nat, count: nat): seq<nat> {
    seq(count, k requires 0 <= k => from + k)
  }

  lemma {:induction false} IndexesJoined(a: seq<Taken>, b: seq<Taken>)
    ensures Indexes(a + b) == Indexes(a) + Indexes(b)
    decreases |a|
  {
    if a == [] {
      assert a + b == b;
    } else {
      assert (a + b)[0] == a[0] && (a + b)[1..] == a[1..] + b;
      IndexesJoined(a[1..], b);
    }
  }

  lemma {:induction false} IndexesFixed(items: seq<Item>, i: nat)
    ensures Indexes(FixedRun(items, i)) == Range(i, |items|)
    decreases |items|
  {
    if items != [] {
      IndexesFixed(items[1..], i + 1);
      var run := FixedRun(items, i);
      assert run[1..] == FixedRun(items[1..], i + 1);
      assert [i as nat] + Range(i + 1, |items| - 1) == Range(i, |items|);
    }
  }

  /** In order means: every argument exactly once. */
  lemma InOrderOnce(s: Spec, n: nat, plan: seq<Taken>)
    requires InOrder(s, n, plan)
    ensures Indexes(plan) == Range(0, n)
  {
    var p := Args(s.prefix);
    if n <= p {
      IndexesFixed(ArgsOf(s.prefix)[..n], 0);
    } else {
      IndexesFixed(ArgsOf(s.prefix), 0);
      IndexesLast(s, n);
      IndexesJoined(FixedRun(ArgsOf(s.prefix), 0), Last(s, n));
      assert Range(0, p) + Range(p, n - p) == Range(0, n);
    }
  }

  lemma IndexesLast(s: Spec, n: nat)
    requires Args(s.prefix) + |s.suffix| <= n
    ensures Indexes(Last(s, n)) == Range(Args(s.prefix), n - Args(s.prefix))
  {
    var p, post := Args(s.prefix), |s.suffix|;
    var slice := [Slice(p, n - p - post)];
    IndexesFixed(s.suffix, n - post);
    IndexesJoined(slice, FixedRun(s.suffix, n - post));
    assert slice[1..] == [];
    assert Indexes(slice) == Range(p, n - p - post);
    assert Range(p, n - p - post) + Range(n - post, post) == Range(p, n - p);
  }
}
