/** Decimal numbers as smart_str_append_long and smart_str_append_unsigned write them, and reading them back. */
module Numerals {
  const DIGITS := "0123456789"
  const WORD: int := 0x1_0000_0000_0000_0000
  const LONG: int := 0x8000_0000_0000_0000

  function Digits(n: nat): string {
    if n < 10 then [DIGITS[n]] else Digits(n / 10) + [DIGITS[n % 10]]
  }

  function Signed(n: int): string {
    if n < 0 then "-" + Digits(-n) else Digits(n)
  }

  /** A 64-bit number read without its sign. */
  function Unsigned(n: int): string {
    if n < 0 then Digits(n % WORD) else Digits(n)
  }

  // ---------- reading back ----------

  predicate IsDigit(c: char) {
    '0' <= c <= '9'
  }

  /** Digits only, and no zero in front of others. */
  predicate IsNumeral(s: string) {
    && s != "" && (forall k :: 0 <= k < |s| ==> IsDigit(s[k]))
    && (|s| > 1 ==> s[0] != '0')
  }

  function Power(k: nat): (p: nat)
    ensures p >= 1
  {
    if k == 0 then 1 else 10 * Power(k - 1)
  }

  /** What a numeral denotes: every digit times the power of ten of its place. */
  function Decimal(s: string): int {
    if s == "" then 0 else (s[0] as int - '0' as int) * Power(|s| - 1) + Decimal(s[1..])
  }

  function SignedValue(s: string): int {
    if s != "" && s[0] == '-' then -Decimal(s[1..]) else Decimal(s)
  }

  lemma {:induction false} ValueMore(s: string, c: char)
    ensures Decimal(s + [c]) == 10 * Decimal(s) + (c as int - '0' as int)
    decreases |s|
  {
    var t := s + [c];
    if s == "" {
      assert t[1..] == "";
    } else {
      assert t[1..] == s[1..] + [c];
      ValueMore(s[1..], c);
      var d := s[0] as int - '0' as int;
      assert Power(|s|) == 10 * Power(|s| - 1);
      assert d * (10 * Power(|s| - 1)) == 10 * (d * Power(|s| - 1));
    }
  }

  lemma DigitAt(n: nat)
    requires n < 10
    ensures IsDigit(DIGITS[n]) && DIGITS[n] as int - '0' as int == n && (DIGITS[n] == '0' ==> n == 0)
  {
  }

  lemma {:induction false} ReadDigits(n: nat)
    ensures IsNumeral(Digits(n)) && Decimal(Digits(n)) == n && (n > 0 ==> Digits(n)[0] != '0')
    decreases n
  {
    DigitAt(n % 10);
    ValueMore(if n < 10 then "" else Digits(n / 10), DIGITS[n % 10]);
    if n < 10 {
      assert "" + [DIGITS[n]] == Digits(n);
    } else {
      ReadDigits(n / 10);
    }
  }

  lemma ReadSigned(n: int)
    ensures SignedValue(Signed(n)) == n
    ensures if n < 0 then Signed(n) != "" && Signed(n)[0] == '-' && IsNumeral(Signed(n)[1..]) else IsNumeral(Signed(n))
  {
    ReadDigits(if n < 0 then -n else n);
    assert n < 0 ==> Signed(n)[1..] == Digits(-n);
  }

  /** 64-bit numbers are read back modulo 2^64. */
  lemma ReadUnsigned(n: int)
    requires -LONG <= n < WORD
    ensures IsNumeral(Unsigned(n)) && Decimal(Unsigned(n)) == n % WORD
  {
    ReadDigits(n % WORD);
  }

  lemma {:induction false} ValuePositive(s: string)
    requires IsNumeral(s) && (s[0] != '0' || |s| > 1)
    ensures Decimal(s) >= 1
  {
    ValueAtLeast(s[1..]);
    Times(s[0] as int - '0' as int, Power(|s| - 1));
  }

  lemma Times(d: nat, p: nat)
    requires p >= 1
    ensures d * p >= d
  {
  }

  lemma {:induction false} ValueAtLeast(s: string)
    requires forall k :: 0 <= k < |s| ==> IsDigit(s[k])
    ensures Decimal(s) >= 0
    decreases |s|
  {
    if s != "" {
      ValueAtLeast(s[1..]);
      Times(s[0] as int - '0' as int, Power(|s| - 1));
    }
  }

  /** Every numeral is the text of the number it denotes. */
  lemma {:induction false} NumeralIs(s: string)
    requires IsNumeral(s)
    ensures Decimal(s) >= 0 && Digits(Decimal(s)) == s
    decreases |s|
  {
    var t, c := s[..|s| - 1], s[|s| - 1];
    var d := c as int - '0' as int;
    assert s == t + [c];
    ValueMore(t, c);
    DigitAt(d);
    if t == "" {
      assert Digits(d) == [DIGITS[d]];
    } else {
      NumeralIs(t);
      ValuePositive(t);
      assert (10 * Decimal(t) + d) / 10 == Decimal(t) && (10 * Decimal(t) + d) % 10 == d;
    }
  }
}
