/** What the printed text of an array key tells about the key. */
module PrintKeys {
  import opened Numerals
  import opened PrintGraph
  import opened Printer

  predicate IsLong(n: int) {
    -LONG <= n < LONG
  }

  /** Keys of arrays: 64-bit integers, and strings that are not the text of one. */
  ghost predicate ArrayKey(k: Key) {
    if k.Num? then IsLong(k.n) else forall n :: IsLong(n) ==> k.raw != Signed(n)
  }

  predicate SameKey(a: Key, b: Key) {
    if a.Num? then b.Num? && a.n == b.n else b.Name? && a.raw == b.raw
  }

  /** print_r: the text of a key determines it. */
  lemma KeyTells(a: Key, b: Key)
    requires ArrayKey(a) && ArrayKey(b)
    ensures KeyText(a, false) == KeyText(b, false) <==> SameKey(a, b)
  {
    if a.Num? {
      ReadSigned(a.n);
    }
    if b.Num? {
      ReadSigned(b.n);
    }
  }

  /** Entries of a flat container are separated by commas, with none in front and none behind. */
  lemma {:induction false} CommasBetween(lines: seq<Line>, l: Line)
    ensures FlatLinesText(lines + [l], true)
         == (if lines == [] then "" else FlatLinesText(lines, true) + ",") + "[" + FlatKeyText(l.key) + "] => " + FlatText(l.tree)
  {
    if lines == [] {
      assert [l][1..] == [];
    } else {
      var entry := "[" + FlatKeyText(l.key) + "] => " + FlatText(l.tree);
      Later(lines[1..], l);
      assert (lines + [l])[1..] == lines[1..] + [l];
      Joined(FlatLineText(lines[0], true), FlatLinesText(lines[1..], false), "," + entry);
      Joined(FlatLinesText(lines, true), ",", entry);
    }
  }

  lemma {:induction false} Later(lines: seq<Line>, l: Line)
    ensures FlatLinesText(lines + [l], false) == FlatLinesText(lines, false) + ("," + ("[" + FlatKeyText(l.key) + "] => " + FlatText(l.tree)))
    decreases |lines|
  {
    var entry := "[" + FlatKeyText(l.key) + "] => " + FlatText(l.tree);
    assert FlatLineText(l, false) == "," + entry;
    if lines == [] {
      assert [l][1..] == [];
    } else {
      Later(lines[1..], l);
      assert (lines + [l])[1..] == lines[1..] + [l];
      Joined(FlatLineText(lines[0], false), FlatLinesText(lines[1..], false), "," + entry);
    }
  }

  /** The number that a flat key is printed as. */
  function Shown(n: int): int {
    if n < 0 then n + WORD else n
  }

  /** The flat printer: a negative key looks like the string of the number 2^64 above it, and only like that. */
  lemma FlatKeyTells(a: Key, b: Key)
    requires ArrayKey(a) && ArrayKey(b)
    ensures a.Num? == b.Num? ==> (FlatKeyText(a) == FlatKeyText(b) <==> SameKey(a, b))
    ensures a.Num? && b.Name? ==>
              (FlatKeyText(a) == FlatKeyText(b) <==> a.n < 0 && IsNumeral(b.raw) && Decimal(b.raw) == a.n + WORD)
  {
    if a.Num? {
      ReadUnsigned(a.n);
      ShownIs(a.n);
    }
    if b.Num? {
      ReadUnsigned(b.n);
      ShownIs(b.n);
    } else if a.Num? {
      if IsNumeral(b.raw) {
        NumeralIs(b.raw);
      }
      if a.n >= 0 {
        assert Signed(a.n) == Unsigned(a.n);
      }
    }
  }

  lemma ShownIs(n: int)
    requires IsLong(n)
    ensures n % WORD == Shown(n) && (n < 0 ==> Unsigned(n) == Digits(n + WORD))
  {
  }

  /** The least such pair: -1 and "18446744073709551615". */
  lemma MinusOne()
    ensures var a, b := Num(-1), Name(Digits(WORD - 1), "", Public);
            ArrayKey(a) && ArrayKey(b) && !SameKey(a, b) && FlatKeyText(a) == FlatKeyText(b)
  {
    var b := Name(Digits(WORD - 1), "", Public);
    ReadDigits(WORD - 1);
    forall n | IsLong(n)
      ensures b.raw != Signed(n)
    {
      ReadSigned(n);
    }
    ShownIs(-1);
  }
}
