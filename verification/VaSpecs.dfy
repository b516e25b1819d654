/** Argument specifications such as "l|sb!" or "z*h", and how many arguments they admit. */
module VaSpecs {
  /** The parts of a specification: an argument with its modifiers, the mark where optional arguments begin,
      and the two marks for a variable number of arguments. */
  datatype Item = Arg(letter: char, modifiers: string) | Bar | Star | Plus

  predicate IsLetter(c: char) {
    c in "ldsbraoOzZChfAHpSPLn"
  }

  /** Z and L are counted but no longer supported. */
  predicate Supported(c: char) {
    IsLetter(c) && c != 'Z' && c != 'L'
  }

  predicate IsModifier(c: char) {
    c == '/' || c == '!'
  }

  predicate ItemOk(x: Item) {
    x.Arg? ==> IsLetter(x.letter) && forall k :: 0 <= k < |x.modifiers| ==> IsModifier(x.modifiers[k])
  }

  function Args(items: seq<Item>): nat {
    if items == [] then 0 else (if items[0].Arg? then 1 else 0) + Args(items[1..])
  }

  /** Arguments, with marks for optional ones that do not follow each other. */
  predicate PrefixOk(items: seq<Item>) {
    && (forall k :: 0 <= k < |items| ==> ItemOk(items[k]) && (items[k].Arg? || items[k].Bar?))
    && (forall k :: 0 <= k < |items| - 1 ==> !(items[k].Bar? && items[k + 1].Bar?))
  }

  predicate SuffixOk(items: seq<Item>) {
    forall k :: 0 <= k < |items| ==> ItemOk(items[k]) && items[k].Arg?
  }

  predicate HasBar(items: seq<Item>) {
    exists k :: 0 <= k < |items| && items[k].Bar?
  }

  /** Specifications made of fixed arguments, at most one variable part, and fixed arguments behind it. */
  datatype Spec = Spec(prefix: seq<Item>, variable: seq<Item>, suffix: seq<Item>) {
    predicate Shaped() {
      && PrefixOk(prefix) && SuffixOk(suffix)
      && (variable == [] || variable == [Star] || variable == [Plus])
      && (variable == [] ==> suffix == [])
    }

    /** The well-formed ones: with two or more arguments behind the variable part, none in front is optional. */
    predicate Ok() {
      Shaped() && (|suffix| <= 1 || !HasBar(prefix))
    }

    function Items(): seq<Item> {
      prefix + variable + suffix
    }
  }

  // ---------- counting ----------

  /** The counters of the first loop. */
  datatype Tally = Tally(min: nat, max: nat, post: nat, varargs: bool, optional: bool)

  function Count(t: Tally, x: Item): Tally {
    match x
    case Arg(_, _) => t.(max := t.max + 1)
    case Bar => t.(min := t.max, optional := true)
    case Star => t.(varargs := true, post := t.max)
    case Plus => t.(varargs := true, max := t.max + 1, post := t.max + 1)
  }

  function CountAll(t: Tally, items: seq<Item>): Tally
    decreases |items|
  {
    if items == [] then t else CountAll(Count(t, items[0]), items[1..])
  }

  const NONE := Tally(0, 0, 0, false, false)

  lemma {:induction false} CountJoined(t: Tally, a: seq<Item>, b: seq<Item>)
    ensures CountAll(t, a + b) == CountAll(CountAll(t, a), b)
    decreases |a|
  {
    if a == [] {
      assert a + b == b;
    } else {
      assert (a + b)[1..] == a[1..] + b;
      CountJoined(Count(t, a[0]), a[1..], b);
    }
  }

  lemma {:induction false} CountPrefix(t: Tally, items: seq<Item>)
    requires PrefixOk(items)
    ensures var r := CountAll(t, items);
            && r.max == t.max + Args(items) && r.post == t.post && r.varargs == t.varargs
            && (r.optional <==> t.optional || HasBar(items))
            && (!HasBar(items) ==> r.min == t.min)
    decreases |items|
  {
    if items != [] {
      CountPrefix(Count(t, items[0]), items[1..]);
      assert HasBar(items[1..]) ==> HasBar(items) by {
        if k :| 0 <= k < |items[1..]| && items[1..][k].Bar? {
          assert items[k + 1].Bar?;
        }
      }
      assert HasBar(items) ==> items[0].Bar? || HasBar(items[1..]) by {
        if k :| 0 <= k < |items| && items[k].Bar? && k > 0 {
          assert items[1..][k - 1].Bar?;
        }
      }
    }
  }

  lemma {:induction false} ArgsAll(items: seq<Item>)
    requires SuffixOk(items)
    ensures Args(items) == |items| && PrefixOk(items) && !HasBar(items)
    decreases |items|
  {
    if items != [] {
      ArgsAll(items[1..]);
    }
  }

  /** The arguments in front of the last mark; none without a mark. */
  function InFront(items: seq<Item>): nat
    decreases |items|
  {
    if items == [] then 0
    else var rest := items[..|items| - 1]; if items[|items| - 1].Bar? then Args(rest) else InFront(rest)
  }

  lemma {:induction false} ArgsPart(items: seq<Item>, k: nat)
    requires k <= |items|
    ensures Args(items[..k]) <= Args(items)
    decreases |items|
  {
    if k > 0 {
      assert items[..k][1..] == items[1..][..k - 1];
      ArgsPart(items[1..], k - 1);
    }
  }

  /** That is the most that stands in front of any mark. */
  lemma {:induction false} InFrontIff(items: seq<Item>, n: nat)
    ensures InFront(items) <= n <==> forall k :: 0 <= k < |items| && items[k].Bar? ==> Args(items[..k]) <= n
    decreases |items|
  {
    if items != [] {
      var m := |items| - 1;
      var rest := items[..m];
      InFrontIff(rest, n);
      forall k | 0 <= k < m
        ensures items[..k] == rest[..k] && items[k] == rest[k] && Args(items[..k]) <= Args(rest)
      {
        ArgsPart(rest, k);
      }
    }
  }

  /** Counting up to the last mark. */
  lemma {:induction false} CountMarks(items: seq<Item>)
    requires PrefixOk(items)
    ensures CountAll(NONE, items).min == InFront(items)
    decreases |items|
  {
    if items != [] {
      var m := |items| - 1;
      var rest := items[..m];
      CountMarks(rest);
      CountPrefix(NONE, rest);
      assert items == rest + [items[m]] && [items[m]][1..] == [];
      CountJoined(NONE, rest, [items[m]]);
    }
  }

  /** The counts of a well-formed specification: the least number is that of the arguments in front of the last
      mark, and the last value of `post` is where the variable part begins. */
  lemma CountSpec(s: Spec)
    requires s.Shaped()
    ensures var t := CountAll(NONE, s.Items());
            && (t.varargs <==> s.variable != []) && (t.optional <==> HasBar(s.prefix))
            && t.max == Args(s.prefix) + |s.suffix| + (if s.variable == [Plus] then 1 else 0)
            && (t.varargs ==> t.max - t.post == |s.suffix|)
            && t.min == InFront(s.prefix)
  {
    var t := CountAll(NONE, s.prefix);
    CountPrefix(NONE, s.prefix);
    CountMarks(s.prefix);
    ArgsAll(s.suffix);
    CountJoined(NONE, s.prefix, s.variable + s.suffix);
    CountJoined(t, s.variable, s.suffix);
    assert s.Items() == s.prefix + (s.variable + s.suffix);
    if s.variable != [] {
      assert s.variable[1..] == [];
      CountPrefix(Count(t, s.variable[0]), s.suffix);
    } else {
      CountPrefix(t, s.suffix);
    }
  }

  /** The numbers of arguments that are accepted. */
  predicate Accepts(t: Tally, n: nat) {
    (if t.optional then t.min else t.max) <= n && (t.varargs || n <= t.max)
  }

  /** The same told from the specification: without a mark every fixed argument is needed, and one for '+'; with
      marks only the arguments in front of each mark. Without a variable part no more are taken than there are. */
  predicate Admits(s: Spec, n: nat) {
    && (!HasBar(s.prefix) ==> Args(s.prefix) + |s.suffix| + (if s.variable == [Plus] then 1 else 0) <= n)
    && (forall k :: 0 <= k < |s.prefix| && s.prefix[k].Bar? ==> Args(s.prefix[..k]) <= n)
    && (s.variable == [] ==> n <= Args(s.prefix))
  }

  lemma {:induction false} NoMark(items: seq<Item>)
    requires !HasBar(items)
    ensures InFront(items) == 0
    decreases |items|
  {
    if items != [] {
      assert !items[|items| - 1].Bar?;
      NoMark(items[..|items| - 1]);
    }
  }

  lemma AcceptsIff(s: Spec, n: nat)
    requires s.Shaped()
    ensures Accepts(CountAll(NONE, s.Items()), n) <==> Admits(s, n)
  {
    CountSpec(s);
    InFrontIff(s.prefix, n);
    if !HasBar(s.prefix) {
      NoMark(s.prefix);
    }
  }
}
