/** The text of an argument specification, and the first loop of zend_parse_va_args, which counts. */
module VaText {
  import opened VaSpecs

  function Text(x: Item): string {
    match x
    case Arg(letter, modifiers) => [letter] + modifiers
    case Bar => "|"
    case Star => "*"
    case Plus => "+"
  }

  function Render(items: seq<Item>): string {
    if items == [] then "" else Text(items[0]) + Render(items[1..])
  }

  /** The character at a position; the specification ends with NUL. */
  function At(spec: string, p: nat): char {
    if p < |spec| then spec[p] else '\0'
  }

  datatype Option<T> = None | Some(value: T)

  /** One character of the first loop; None for a second variable part or an unknown character. */
  function ScanChar(t: Tally, c: char): Option<Tally> {
    if IsLetter(c) then Some(Count(t, Arg(c, "")))
    else if c == '|' then Some(Count(t, Bar))
    else if IsModifier(c) then Some(t)
    else if c == '*' || c == '+' then (if t.varargs then None else Some(Count(t, if c == '*' then Star else Plus)))
    else None
  }

  function Scan(t: Tally, spec: string): Option<Tally>
    decreases |spec|
  {
    if spec == "" then Some(t)
    else match ScanChar(t, spec[0])
      case None => None
      case Some(u) => Scan(u, spec[1..])
  }

  lemma {:induction false} ScanJoined(t: Tally, a: string, b: string)
    ensures Scan(t, a + b) == (match Scan(t, a) case None => None case Some(u) => Scan(u, b))
    decreases |a|
  {
    if a == "" {
      assert a + b == b;
    } else {
      assert (a + b)[0] == a[0] && (a + b)[1..] == a[1..] + b;
      match ScanChar(t, a[0]) {
        case None =>
        case Some(u) => ScanJoined(u, a[1..], b);
      }
    }
  }

  lemma {:induction false} ScanModifiers(t: Tally, m: string)
    requires forall k :: 0 <= k < |m| ==> IsModifier(m[k])
    ensures Scan(t, m) == Some(t)
    decreases |m|
  {
    if m != "" {
      ScanModifiers(t, m[1..]);
    }
  }

  lemma ScanItem(t: Tally, x: Item)
    requires ItemOk(x)
    ensures Scan(t, Text(x)) == if (x.Star? || x.Plus?) && t.varargs then None else Some(Count(t, x))
  {
    if x.Arg? {
      assert Text(x)[1..] == x.modifiers;
      ScanModifiers(Count(t, x), x.modifiers);
    } else {
      assert |Text(x)| == 1 && Text(x)[1..] == "";
    }
  }

  /** How many variable parts there are. */
  function Variables(items: seq<Item>): nat {
    if items == [] then 0 else (if items[0].Star? || items[0].Plus? then 1 else 0) + Variables(items[1..])
  }

  /** Scanning the text counts the items, and fails exactly for a second variable part. */
  lemma {:induction false} ScanRender(t: Tally, items: seq<Item>)
    requires forall k :: 0 <= k < |items| ==> ItemOk(items[k])
    ensures Scan(t, Render(items))
         == if Variables(items) + (if t.varargs then 1 else 0) > 1 && Variables(items) > 0 then None
            else Some(CountAll(t, items))
    decreases |items|
  {
    if items != [] {
      ScanJoined(t, Text(items[0]), Render(items[1..]));
      ScanItem(t, items[0]);
      ScanRender(Count(t, items[0]), items[1..]);
    }
  }

  lemma {:induction false} NoVariables(items: seq<Item>)
    requires PrefixOk(items)
    ensures Variables(items) == 0
    decreases |items|
  {
    if items != [] {
      NoVariables(items[1..]);
    }
  }

  lemma {:induction false} VariablesJoined(a: seq<Item>, b: seq<Item>)
    ensures Variables(a + b) == Variables(a) + Variables(b)
    decreases |a|
  {
    if a == [] {
      assert a + b == b;
    } else {
      assert (a + b)[1..] == a[1..] + b;
      VariablesJoined(a[1..], b);
    }
  }

  lemma ItemsOk(s: Spec)
    requires s.Shaped()
    ensures forall k :: 0 <= k < |s.Items()| ==> ItemOk(s.Items()[k])
    ensures Scan(NONE, Render(s.Items())) == Some(CountAll(NONE, s.Items()))
  {
    ArgsAll(s.suffix);
    NoVariables(s.prefix);
    NoVariables(s.suffix);
    assert s.Items() == s.prefix + (s.variable + s.suffix);
    VariablesJoined(s.prefix, s.variable + s.suffix);
    VariablesJoined(s.variable, s.suffix);
    if s.variable != [] {
      assert s.variable[1..] == [];
    }
    ScanRender(NONE, s.Items());
  }

  /** The characters a specification is made of, and those of them that stand for a variable part. */
  predicate Known(c: char) {
    IsLetter(c) || c == '|' || c == '/' || c == '!' || c == '*' || c == '+'
  }

  predicate VariableMark(c: char) {
    c == '*' || c == '+'
  }

  /** No unknown character, and at most one mark of a variable part; none when there has been one. */
  predicate Clean(spec: string, seen: bool) {
    && (forall k :: 0 <= k < |spec| ==> Known(spec[k]))
    && (forall j, k :: 0 <= j < k < |spec| ==> !(VariableMark(spec[j]) && VariableMark(spec[k])))
    && (seen ==> forall k :: 0 <= k < |spec| ==> !VariableMark(spec[k]))
  }

  /** The first loop accepts exactly the clean texts. */
  lemma {:induction false} ScanIff(t: Tally, spec: string)
    ensures Scan(t, spec).Some? <==> Clean(spec, t.varargs)
    decreases |spec|
  {
    if spec != "" {
      var c, rest := spec[0], spec[1..];
      assert forall k :: 0 <= k < |rest| ==> rest[k] == spec[k + 1];
      match ScanChar(t, c) {
        case None =>
          assert !Known(c) || (VariableMark(c) && t.varargs);
        case Some(u) =>
          ScanIff(u, rest);
          CleanRest(spec, t.varargs, u.varargs);
      }
    }
  }

  lemma CleanRest(spec: string, seen: bool, now: bool)
    requires spec != "" && Known(spec[0]) && now == (seen || VariableMark(spec[0])) && !(seen && VariableMark(spec[0]))
    ensures Clean(spec, seen) <==> Clean(spec[1..], now)
  {
    var rest := spec[1..];
    if Clean(rest, now) {
      forall k | 0 <= k < |spec|
        ensures Known(spec[k]) && (seen ==> !VariableMark(spec[k])) && (k > 0 && VariableMark(spec[0]) ==> !VariableMark(spec[k]))
      {
        assert k > 0 ==> spec[k] == rest[k - 1];
      }
      forall j, k | 0 <= j < k < |spec|
        ensures !(VariableMark(spec[j]) && VariableMark(spec[k]))
      {
        assert j > 0 ==> spec[j] == rest[j - 1] && spec[k] == rest[k - 1];
      }
    }
    if Clean(spec, seen) {
      forall j, k | 0 <= j < k < |rest|
        ensures !(VariableMark(rest[j]) && VariableMark(rest[k]))
      {
        assert rest[j] == spec[j + 1] && rest[k] == spec[k + 1];
      }
      forall k | 0 <= k < |rest|
        ensures Known(rest[k]) && (now ==> !VariableMark(rest[k]))
      {
        assert rest[k] == spec[k + 1];
      }
    }
  }

  /** The first loop, for any text. */
  method CountArgs(spec: string) returns (r: Option<Tally>)
    ensures r == Scan(NONE, spec)
  {
    var t, walk := NONE, 0;
    while walk < |spec|
      invariant 0 <= walk <= |spec| && Scan(NONE, spec) == Scan(t, spec[walk..])
    {
      var c := spec[walk];
      assert spec[walk..][1..] == spec[walk + 1..];
      if IsLetter(c) {
        t := t.(max := t.max + 1);
      } else if c == '|' {
        t := t.(min := t.max, optional := true);
      } else if c == '/' || c == '!' {
      } else if c == '*' || c == '+' {
        if t.varargs {
          return None;
        }
        t := t.(varargs := true);
        if c == '+' {
          t := t.(max := t.max + 1);
        }
        t := t.(post := t.max);
      } else {
        return None;
      }
      walk := walk + 1;
    }
    return Some(t);
  }
}
