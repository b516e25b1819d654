/** zend_parse_va_args: the interpreter of argument specifications. */
module VaArgs {
  import opened VaSpecs
  import opened VaPlans
  import opened VaParses
  import opened VaText

  /** The character behind an item is no modifier. */
  lemma RenderStart(items: seq<Item>)
    requires items != [] ==> ItemOk(items[0])
    ensures Render(items) != "" ==> !IsModifier(Render(items)[0])
  {
    if items != [] {
      assert Render(items)[0] == Text(items[0])[0];
    }
  }

  method EndOfModifiers(spec: string, from: nat) returns (next: nat)
    requires from <= |spec|
    ensures from <= next <= |spec| && (next < |spec| ==> !IsModifier(spec[next]))
    ensures forall k :: from <= k < next ==> IsModifier(spec[k])
  {
    next := from;
    while next < |spec| && (spec[next] == '/' || spec[next] == '!')
      invariant from <= next <= |spec| && forall k :: from <= k < next ==> IsModifier(spec[k])
    {
      next := next + 1;
    }
  }

  /** Character by character, what is left of the text is the items that are left. */
  lemma TextStart(spec: string, walk: nat, items: seq<Item>)
    requires walk <= |spec| && spec[walk..] == Render(items) && items != [] && items[0].Arg?
    ensures walk < |spec| && spec[walk] == items[0].letter
    ensures spec[walk + 1..] == items[0].modifiers + Render(items[1..])
  {
    var m, rest := items[0].modifiers, Render(items[1..]);
    Joined([items[0].letter], m, rest);
    Behind(spec, walk, items[0].letter, m + rest);
  }

  lemma Behind(spec: string, walk: nat, c: char, rest: string)
    requires walk <= |spec| && spec[walk..] == [c] + rest
    ensures walk < |spec| && spec[walk] == c && spec[walk + 1..] == rest
  {
    assert spec[walk..][0] == spec[walk];
    assert spec[walk + 1..] == spec[walk..][1..];
  }

  lemma ModifiersEnd(spec: string, walk: nat, next: nat, items: seq<Item>)
    requires items != [] && items[0].Arg? && ItemOk(items[0]) && (|items| > 1 ==> ItemOk(items[1]))
    requires walk + 1 <= next <= |spec| && spec[walk + 1..] == items[0].modifiers + Render(items[1..])
    requires next < |spec| ==> !IsModifier(spec[next])
    requires forall k :: walk + 1 <= k < next ==> IsModifier(spec[k])
    ensures spec[walk + 1..next] == items[0].modifiers && spec[next..] == Render(items[1..])
  {
    var m, rest, text := items[0].modifiers, Render(items[1..]), spec[walk + 1..];
    var end := walk + 1 + |m|;
    RenderStart(items[1..]);
    forall k | walk + 1 <= k < end ensures IsModifier(spec[k]) {
      assert spec[k] == text[k - walk - 1] == m[k - walk - 1];
    }
    assert end < |spec| ==> text[|m|] == rest[0];
    assert next == end;
    assert spec[walk + 1..next] == text[..|m|] && spec[next..] == text[|m|..];
  }

  /** zend_parse_arg: the letter, its modifiers, and the argument. */
  method ParseArg(spec: string, walk: nat, i: nat, fits: Oracle, ghost items: seq<Item>)
    returns (ok: bool, item: Item, next: nat)
    requires walk <= |spec| && spec[walk..] == Render(items)
    requires items != [] && items[0].Arg? && ItemOk(items[0]) && (|items| > 1 ==> ItemOk(items[1]))
    ensures item == items[0] && next <= |spec| && spec[next..] == Render(items[1..])
    ensures ok <==> Parses(fits, i, items[0])
  {
    TextStart(spec, walk, items);
    next := EndOfModifiers(spec, walk + 1);
    item := Arg(spec[walk], spec[walk + 1..next]);
    ModifiersEnd(spec, walk, next, items);
    ok := item.letter != 'Z' && item.letter != 'L' && fits(i, item);
  }

  /** The interpreter at `walk`, with `items` and `left` arguments from i on to go. */
  ghost predicate ReadingNow(spec: string, walk: nat, items: seq<Item>, i: nat, left: nat, post: nat,
                             taken: seq<Taken>, plan: seq<Taken>) {
    && walk <= |spec| && spec[walk..] == Render(items)
    && (forall k :: 0 <= k < |items| ==> ItemOk(items[k]))
    && Fits(items, left, post)
    && taken + Plan(items, i, left, post) == plan
  }

  ghost predicate ReadingBehind(spec: string, walk: nat, items: seq<Item>, i: nat, left: nat, post: nat,
                                taken: seq<Taken>, plan: seq<Taken>, k: nat)
    decreases k
  {
    if k == 0 then ReadingNow(spec, walk, items, i, left, post, taken, plan)
    else ReadingBehind(spec, walk, items, i, left, post, taken, plan, k - 1)
  }

  /** ReadingNow, kept closed in the loop. */
  ghost predicate Reading(spec: string, walk: nat, items: seq<Item>, i: nat, left: nat, post: nat,
                          taken: seq<Taken>, plan: seq<Taken>) {
    ReadingBehind(spec, walk, items, i, left, post, taken, plan, i + 3)
  }

  lemma {:induction false} ReadingBehindIs(spec: string, walk: nat, items: seq<Item>, i: nat, left: nat, post: nat,
                                           taken: seq<Taken>, plan: seq<Taken>, k: nat)
    ensures ReadingBehind(spec, walk, items, i, left, post, taken, plan, k)
        <==> ReadingNow(spec, walk, items, i, left, post, taken, plan)
    decreases k
  {
    if k > 0 {
      ReadingBehindIs(spec, walk, items, i, left, post, taken, plan, k - 1);
    }
  }

  lemma ReadingIs(spec: string, walk: nat, items: seq<Item>, i: nat, left: nat, post: nat,
                  taken: seq<Taken>, plan: seq<Taken>)
    ensures Reading(spec, walk, items, i, left, post, taken, plan)
        <==> ReadingNow(spec, walk, items, i, left, post, taken, plan)
  {
    ReadingBehindIs(spec, walk, items, i, left, post, taken, plan, i + 3);
  }

  lemma ReadingFrom(spec: string, walk: nat, items: seq<Item>, i: nat, left: nat, post: nat,
                    taken: seq<Taken>, plan: seq<Taken>)
    requires walk <= |spec| && spec[walk..] == Render(items)
    requires forall k :: 0 <= k < |items| ==> ItemOk(items[k])
    requires Fits(items, left, post)
    requires taken + Plan(items, i, left, post) == plan
    ensures Reading(spec, walk, items, i, left, post, taken, plan)
  {
    ReadingIs(spec, walk, items, i, left, post, taken, plan);
  }

  predicate Marks(c: char) {
    c == '|' || c == '*' || c == '+'
  }

  /** The next character tells the next item. */
  lemma HeadIs(spec: string, walk: nat, items: seq<Item>)
    requires walk <= |spec| && spec[walk..] == Render(items) && items != [] && ItemOk(items[0])
    ensures walk < |spec| && spec[walk] == Text(items[0])[0]
    ensures spec[walk] == '|' <==> items[0].Bar?
    ensures spec[walk] == '*' <==> items[0].Star?
    ensures spec[walk] == '+' <==> items[0].Plus?
    ensures !items[0].Arg? ==> spec[walk + 1..] == Render(items[1..])
  {
    var text, rest := Text(items[0]), Render(items[1..]);
    Joined([text[0]], text[1..], rest);
    assert text == [text[0]] + text[1..];
    Behind(spec, walk, text[0], text[1..] + rest);
    assert !items[0].Arg? ==> text[1..] + rest == rest;
  }

  lemma ReadBar(spec: string, walk: nat, items: seq<Item>, i: nat, left: nat, post: nat,
                taken: seq<Taken>, plan: seq<Taken>)
    requires Reading(spec, walk, items, i, left, post, taken, plan) && left > 0 && At(spec, walk) == '|'
    ensures items != [] && Reading(spec, walk + 1, items[1..], i, left, post, taken, plan)
    ensures At(spec, walk + 1) != '|'
  {
    ReadingIs(spec, walk, items, i, left, post, taken, plan);
    ReadingIs(spec, walk + 1, items[1..], i, left, post, taken, plan);
    HeadIs(spec, walk, items);
    assert Fits(items[1..], left, post) && items[1..] != [];
    HeadIs(spec, walk + 1, items[1..]);
  }

  lemma EnoughLeft(spec: string, walk: nat, items: seq<Item>, i: nat, left: nat, post: nat,
                   taken: seq<Taken>, plan: seq<Taken>)
    requires Reading(spec, walk, items, i, left, post, taken, plan) && left > 0
    requires At(spec, walk) == '*' || At(spec, walk) == '+'
    ensures items != [] && post <= left
    ensures post > 0 ==> !Marks(At(spec, walk + 1))
  {
    ReadingIs(spec, walk, items, i, left, post, taken, plan);
    HeadIs(spec, walk, items);
    if post > 0 {
      HeadIs(spec, walk + 1, items[1..]);
    }
  }

  lemma ReadVariable(spec: string, walk: nat, items: seq<Item>, i: nat, left: nat, post: nat,
                     taken: seq<Taken>, plan: seq<Taken>, spare: nat)
    requires Reading(spec, walk, items, i, left, post, taken, plan) && left > 0
    requires (At(spec, walk) == '*' || At(spec, walk) == '+') && spare + post == left && items != []
    ensures Reading(spec, walk + 1, items[1..], i + spare, left - spare, post, taken + [Slice(i, spare)], plan)
  {
    ReadingIs(spec, walk, items, i, left, post, taken, plan);
    HeadIs(spec, walk, items);
    PlanVariable(items, i, left, post);
    Joined(taken, [Slice(i, spare)], Plan(items[1..], i + spare, post, post));
    ReadingFrom(spec, walk + 1, items[1..], i + spare, post, post, taken + [Slice(i, spare)], plan);
  }

  lemma ReadArg(spec: string, walk: nat, items: seq<Item>, i: nat, left: nat, post: nat,
                taken: seq<Taken>, plan: seq<Taken>)
    requires Reading(spec, walk, items, i, left, post, taken, plan) && left > 0 && !Marks(At(spec, walk))
    ensures walk <= |spec| && spec[walk..] == Render(items)
    ensures items != [] && items[0].Arg? && ItemOk(items[0]) && (|items| > 1 ==> ItemOk(items[1]))
    ensures taken + [Fixed(i, items[0])] <= plan
  {
    ReadingIs(spec, walk, items, i, left, post, taken, plan);
    HeadIs(spec, walk, items);
    PlanArg(items, i, left, post);
    Joined(taken, [Fixed(i, items[0])], Plan(items[1..], i + 1, left - 1, post));
  }

  lemma ReadNext(spec: string, walk: nat, next: nat, items: seq<Item>, i: nat, left: nat, post: nat,
                 taken: seq<Taken>, plan: seq<Taken>)
    requires Reading(spec, walk, items, i, left, post, taken, plan) && left > 0 && items != [] && items[0].Arg?
    requires next <= |spec| && spec[next..] == Render(items[1..])
    ensures Reading(spec, next, items[1..], i + 1, left - 1, post, taken + [Fixed(i, items[0])], plan)
  {
    ReadingIs(spec, walk, items, i, left, post, taken, plan);
    PlanArg(items, i, left, post);
    Joined(taken, [Fixed(i, items[0])], Plan(items[1..], i + 1, left - 1, post));
    ReadingFrom(spec, next, items[1..], i + 1, left - 1, post, taken + [Fixed(i, items[0])], plan);
  }

  lemma NotAll(fits: Oracle, taken: seq<Taken>, x: Taken, plan: seq<Taken>)
    requires taken + [x] <= plan && x.Fixed? && !Parses(fits, x.arg, x.item)
    ensures !AllParse(fits, plan)
  {
    assert plan[|taken|] == x;
  }

  lemma OneMore(fits: Oracle, taken: seq<Taken>, x: Taken)
    requires AllParse(fits, taken) && (x.Fixed? ==> Parses(fits, x.arg, x.item))
    ensures AllParse(fits, taken + [x])
  {
  }

  lemma ReadAll(spec: string, walk: nat, items: seq<Item>, i: nat, post: nat, taken: seq<Taken>, plan: seq<Taken>)
    requires Reading(spec, walk, items, i, 0, post, taken, plan)
    ensures taken == plan
  {
    ReadingIs(spec, walk, items, i, 0, post, taken, plan);
  }

  lemma StartReading(s: Spec, n: nat)
    requires s.Shaped() && Fits(s.Items(), n, |s.suffix|)
    ensures Reading(Render(s.Items()), 0, s.Items(), 0, n, |s.suffix|, [], Plan(s.Items(), 0, n, |s.suffix|))
  {
    var spec := Render(s.Items());
    ItemsOk(s);
    assert spec[0..] == spec;
    ReadingIs(spec, 0, s.Items(), 0, n, |s.suffix|, [], Plan(s.Items(), 0, n, |s.suffix|));
  }

  /** One fixed argument, in the second loop. */
  method TakeOne(spec: string, walk: nat, i: nat, left: nat, post: nat, fits: Oracle, ghost items: seq<Item>,
                 taken: seq<Taken>, ghost plan: seq<Taken>)
    returns (ok: bool, more: seq<Taken>, next: nat, ghost rest: seq<Item>)
    requires Reading(spec, walk, items, i, left, post, taken, plan) && left > 0 && !Marks(At(spec, walk))
    requires AllParse(fits, taken)
    ensures !ok ==> !AllParse(fits, plan)
    ensures ok ==> Reading(spec, next, rest, i + 1, left - 1, post, more, plan) && AllParse(fits, more)
    ensures ok ==> |rest| < |items|
  {
    ReadArg(spec, walk, items, i, left, post, taken, plan);
    var item;
    ok, item, next := ParseArg(spec, walk, i, fits, items);
    rest, more := items[1..], taken;
    if ok {
      ReadNext(spec, walk, next, items, i, left, post, taken, plan);
      OneMore(fits, taken, Fixed(i, item));
      more := taken + [Fixed(i, item)];
    } else {
      NotAll(fits, taken, Fixed(i, item), plan);
    }
  }

  /** The variable part, in the second loop: `num_args + 1 - post_varargs` arguments. */
  method TakeSlice(spec: string, walk: nat, i: nat, left: nat, post: nat, fits: Oracle, ghost items: seq<Item>,
                   taken: seq<Taken>, ghost plan: seq<Taken>)
    returns (numVarargs: nat, more: seq<Taken>, ghost rest: seq<Item>)
    requires Reading(spec, walk, items, i, left, post, taken, plan) && left > 0
    requires (At(spec, walk) == '*' || At(spec, walk) == '+') && AllParse(fits, taken)
    ensures numVarargs + post == left && |rest| < |items|
    ensures numVarargs == 0 ==> !Marks(At(spec, walk + 1))
    ensures Reading(spec, walk + 1, rest, i + numVarargs, left - numVarargs, post, more, plan) && AllParse(fits, more)
  {
    EnoughLeft(spec, walk, items, i, left, post, taken, plan);
    numVarargs := left - post;
    ReadVariable(spec, walk, items, i, left, post, taken, plan, numVarargs);
    OneMore(fits, taken, Slice(i, numVarargs));
    more, rest := taken + [Slice(i, numVarargs)], items[1..];
  }

  /** The body of the second loop: a mark is passed, a slice taken if it is not empty, else one argument. */
  method TakeNext(spec: string, from: nat, i: nat, left: nat, post: nat, fits: Oracle, ghost items: seq<Item>,
                  taken: seq<Taken>, ghost plan: seq<Taken>)
    returns (ok: bool, more: seq<Taken>, walk: nat, to: nat, still: nat, ghost rest: seq<Item>)
    requires Reading(spec, from, items, i, left, post, taken, plan) && left > 0 && AllParse(fits, taken)
    ensures !ok ==> !AllParse(fits, plan)
    ensures ok ==> Reading(spec, walk, rest, to, still, post, more, plan) && AllParse(fits, more) && |rest| < |items|
  {
    ok, more, walk, to, still, rest := true, taken, from, i, left, items;
    if At(spec, walk) == '|' {
      ReadBar(spec, walk, rest, i, left, post, taken, plan);
      walk, rest := walk + 1, rest[1..];
    }
    if At(spec, walk) == '*' || At(spec, walk) == '+' {
      var numVarargs;
      numVarargs, more, rest := TakeSlice(spec, walk, i, left, post, fits, rest, taken, plan);
      walk := walk + 1;
      if numVarargs > 0 {
        still := left - numVarargs;
        to := i + numVarargs;
        return;
      }
    }
    ok, more, walk, rest := TakeOne(spec, walk, i, left, post, fits, rest, more, plan);
    to, still := i + 1, left - 1;
  }

  /** The second loop. */
  method TakeArgs(n: nat, spec: string, post: nat, fits: Oracle, ghost s: Spec)
    returns (ok: bool, taken: seq<Taken>)
    requires s.Shaped() && spec == Render(s.Items()) && post == |s.suffix| && Fits(s.Items(), n, post)
    ensures ok <==> AllParse(fits, Plan(s.Items(), 0, n, post))
    ensures ok ==> taken == Plan(s.Items(), 0, n, post)
  {
    ghost var items, plan := s.Items(), Plan(s.Items(), 0, n, post);
    var i: nat, left: nat, walk: nat := 0, n, 0;
    taken := [];
    StartReading(s, n);
    while left > 0
      invariant Reading(spec, walk, items, i, left, post, taken, plan)
      invariant AllParse(fits, taken)
      decreases |items|
    {
      ok, taken, walk, i, left, items := TakeNext(spec, walk, i, left, post, fits, items, taken, plan);
      if !ok {
        return;
      }
    }
    ReadAll(spec, walk, items, i, post, taken, plan);
    return true, taken;
  }

  /** zend_parse_va_args for a well-formed specification and any number of arguments: it succeeds exactly when that
      number is accepted and every fixed argument parses, and then each argument has been taken once, in order. */
  method ParseVaArgs(n: nat, spec: string, fits: Oracle, ghost s: Spec) returns (ok: bool, taken: seq<Taken>)
    requires s.Ok() && spec == Render(s.Items())
    ensures ok <==> Admits(s, n) && FixedParse(s, n, fits)
    ensures ok ==> InOrder(s, n, taken) && Indexes(taken) == Range(0, n) && AllParse(fits, taken)
  {
    ItemsOk(s);
    CountSpec(s);
    AcceptsIff(s, n);
    var r := CountArgs(spec);
    if r.None? {
      return false, [];
    }
    var t := r.value;
    var min := if t.optional then t.min else t.max;
    var post: nat := if t.varargs then t.max - t.post else 0;
    if n < min || (!t.varargs && n > t.max) {
      return false, [];
    }
    AcceptedInOrder(s, n);
    ParsedFixed(s, n, Plan(s.Items(), 0, n, |s.suffix|), fits);
    ok, taken := TakeArgs(n, spec, post, fits, s);
    if ok {
      InOrderOnce(s, n, taken);
    }
  }
}
