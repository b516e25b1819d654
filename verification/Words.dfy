// The machine word of a page bitset, as the sequence of its 64 bits, least significant first.
module Words {
  // The page search works on whole words with `|`, `&`, `~`, `-1 << b`, `-1 >> (63 - e)`, `+ 1` and
  // `- 1`. Each of these is defined here bit by bit; module MachineWords proves that the definitions
  // are what the processor computes on 64-bit unsigned integers.

  const WORD_BITS := 64

  type Word = w: seq<bool> | |w| == WORD_BITS witness seq(WORD_BITS, _ => false)

  function Zero(): Word {
    seq(WORD_BITS, _ => false)
  }

  function AllOnes(): Word {
    seq(WORD_BITS, _ => true)
  }

  function Or(w: Word, x: Word): Word {
    seq(WORD_BITS, k requires 0 <= k < WORD_BITS => w[k] || x[k])
  }

  function And(w: Word, x: Word): Word {
    seq(WORD_BITS, k requires 0 <= k < WORD_BITS => w[k] && x[k])
  }

  function Not(w: Word): Word {
    seq(WORD_BITS, k requires 0 <= k < WORD_BITS => !w[k])
  }

  /** `1 << b` */
  function OneBit(b: nat): Word
    requires b < WORD_BITS
  {
    seq(WORD_BITS, k => k == b)
  }

  /** `-1 << b` */
  function From(b: nat): Word
    requires b < WORD_BITS
  {
    seq(WORD_BITS, k => b <= k)
  }

  /** `-1 >> (63 - e)` */
  function UpTo(e: nat): Word
    requires e < WORD_BITS
  {
    seq(WORD_BITS, k => k <= e)
  }

  predicate LowSet(w: Word, k: nat)
    requires k <= WORD_BITS
  {
    forall j :: 0 <= j < k ==> w[j]
  }

  predicate LowClear(w: Word, k: nat)
    requires k <= WORD_BITS
  {
    forall j :: 0 <= j < k ==> !w[j]
  }

  /** `w + 1`: bit k flips exactly when the carry reaches it, that is when all lower bits are set. */
  function Inc(w: Word): Word {
    seq(WORD_BITS, k requires 0 <= k < WORD_BITS => if LowSet(w, k) then !w[k] else w[k])
  }

  /** `w - 1`: bit k flips exactly when the borrow reaches it, that is when all lower bits are clear. */
  function Dec(w: Word): Word {
    seq(WORD_BITS, k requires 0 <= k < WORD_BITS => if LowClear(w, k) then !w[k] else w[k])
  }

  /** The number of trailing set bits, from bit k up. */
  function TrailingOnes(w: Word, k: nat := 0): (n: nat)
    requires k <= WORD_BITS
    ensures k <= n <= WORD_BITS
    ensures forall j :: k <= j < n ==> w[j]
    ensures n < WORD_BITS ==> !w[n]
    decreases WORD_BITS - k
  {
    if k < WORD_BITS && w[k] then TrailingOnes(w, k + 1) else k
  }

  /** The number of trailing clear bits, from bit k up. */
  function TrailingZeros(w: Word, k: nat := 0): (n: nat)
    requires k <= WORD_BITS
    ensures k <= n <= WORD_BITS
    ensures forall j :: k <= j < n ==> !w[j]
    ensures n < WORD_BITS ==> w[n]
    decreases WORD_BITS - k
  {
    if k < WORD_BITS && !w[k] then TrailingZeros(w, k + 1) else k
  }

  /** `~((1 << b) - 1)` is `-1 << b`. */
  lemma NotBelowBit(b: nat)
    requires b < WORD_BITS
    ensures Not(Dec(OneBit(b))) == From(b)
  {
    forall k | 0 <= k < WORD_BITS
      ensures Not(Dec(OneBit(b)))[k] == From(b)[k]
    {
      assert LowClear(OneBit(b), k) <==> k <= b by {
        if b < k {
          assert OneBit(b)[b];
        }
      }
    }
  }

  /** `(w & m) == 0` tests exactly the bits of m. */
  lemma MaskedZero(w: Word, m: Word)
    ensures And(w, m) == Zero() <==> forall k :: 0 <= k < WORD_BITS && m[k] ==> !w[k]
  {
    if And(w, m) == Zero() {
      forall k | 0 <= k < WORD_BITS && m[k]
        ensures !w[k]
      {
        assert And(w, m)[k] == Zero()[k];
      }
    }
  }

  lemma ZeroWord(w: Word)
    ensures w == Zero() <==> LowClear(w, WORD_BITS)
    ensures w == AllOnes() <==> LowSet(w, WORD_BITS)
  {
  }

  /** `w & (w + 1)` clears the trailing ones of w and nothing else. */
  lemma ClearTrailingOnes(w: Word)
    ensures forall k :: 0 <= k < WORD_BITS ==> And(w, Inc(w))[k] == (w[k] && TrailingOnes(w) < k)
  {
    var n := TrailingOnes(w);
    forall k | 0 <= k < WORD_BITS
      ensures And(w, Inc(w))[k] == (w[k] && n < k)
    {
      if n < k {
        assert !w[n];
        assert !LowSet(w, k);
      } else {
        assert LowSet(w, k);
      }
    }
  }

  /** `w | (w - 1)` sets the trailing zeros of w and nothing else. */
  lemma SetTrailingZeros(w: Word)
    ensures forall k :: 0 <= k < WORD_BITS ==> Or(w, Dec(w))[k] == (w[k] || k < TrailingZeros(w))
  {
    var n := TrailingZeros(w);
    forall k | 0 <= k < WORD_BITS
      ensures Or(w, Dec(w))[k] == (w[k] || k < n)
    {
      if n < k {
        assert w[n];
        assert !LowClear(w, k);
      } else {
        assert LowClear(w, k);
      }
    }
  }
}

/** The bit-by-bit word of module Words is the 64-bit unsigned integer of the allocator. */
module MachineWords {
  import opened Words

  const MINUS_ONE: bv64 := 0xFFFF_FFFF_FFFF_FFFF

  /** The number k as a shift amount. */
  function Amount(k: nat): bv64
    requires k < WORD_BITS
  {
    if k == 0 then 0 else Amount(k - 1) + 1
  }

  predicate On(w: bv64, s: bv64) {
    (w >> (s & 63)) & 1 == 1
  }

  /** Bit k of w, behind n trivial steps. Only the lemmas below take the steps, so that the word-level
      statements at the end of this module are about named bits and not about shifts. */
  ghost predicate BitBehind(w: bv64, k: nat, n: nat)
    requires k < WORD_BITS
  {
    if n == 0 then On(w, Amount(k)) else BitBehind(w, k, n - 1)
  }

  ghost predicate MachineBit(w: bv64, k: nat)
    requires k < WORD_BITS
  {
    BitBehind(w, k, k + 3)
  }

  ghost function ToWord(w: bv64): Word {
    seq(WORD_BITS, k requires 0 <= k < WORD_BITS => MachineBit(w, k))
  }

  // ---------- shift amounts are ordered like their numbers ----------

  lemma AddOne(s: bv64)
    requires s as int < WORD_BITS
    ensures (s + 1) as int == s as int + 1
  {
  }

  lemma {:induction false} AmountValue(k: nat)
    requires k < WORD_BITS
    ensures Amount(k) as int == k
  {
    if k > 0 {
      AmountValue(k - 1);
      AddOne(Amount(k - 1));
    }
  }

  lemma SmallValue(s: bv64)
    requires s as int < WORD_BITS
    ensures s < 64
  {
  }

  lemma ValueOrder(s: bv64, t: bv64)
    requires s as int < t as int < WORD_BITS
    ensures s < t
  {
  }

  lemma AmountBound(k: nat)
    requires k < WORD_BITS
    ensures Amount(k) < 64
  {
    AmountValue(k);
    SmallValue(Amount(k));
  }

  lemma AmountLess(j: nat, k: nat)
    requires j < k < WORD_BITS
    ensures Amount(j) < Amount(k)
  {
    AmountValue(j);
    AmountValue(k);
    ValueOrder(Amount(j), Amount(k));
  }

  lemma LessFlips(s: bv64, t: bv64)
    requires s < t
    ensures !(s >= t) && t >= s && !(t <= s) && s <= t && s != t
  {
  }

  lemma AmountOrder(j: nat, k: nat)
    requires j < WORD_BITS && k < WORD_BITS
    ensures Amount(j) < 64 && Amount(k) < 64
    ensures Amount(j) <= Amount(k) <==> j <= k
    ensures Amount(j) == Amount(k) <==> j == k
  {
    AmountBound(j);
    AmountBound(k);
    if j < k {
      AmountLess(j, k);
      LessFlips(Amount(j), Amount(k));
    } else if k < j {
      AmountLess(k, j);
      LessFlips(Amount(k), Amount(j));
    }
  }

  // ---------- one bit of each operation ----------

  lemma OnOr(w: bv64, x: bv64, s: bv64)
    ensures On(w | x, s) <==> On(w, s) || On(x, s)
  {
  }

  lemma OnAnd(w: bv64, x: bv64, s: bv64)
    ensures On(w & x, s) <==> On(w, s) && On(x, s)
  {
  }

  lemma OnNot(w: bv64, s: bv64)
    ensures On(!w, s) <==> !On(w, s)
  {
  }

  lemma OnOne(b: bv64, s: bv64)
    requires b < 64 && s < 64
    ensures On(1 << b, s) <==> b == s
  {
  }

  lemma OnFrom(b: bv64, s: bv64)
    requires b < 64 && s < 64
    ensures On(MINUS_ONE << b, s) <==> b <= s
  {
  }

  lemma OnUpTo(e: bv64, s: bv64)
    requires e < 64 && s < 64
    ensures On(MINUS_ONE >> (63 - e), s) <==> s <= e
  {
    OnRightShift(63 - e, s);
    Complement(e, s);
  }

  lemma OnRightShift(r: bv64, s: bv64)
    requires r < 64 && s < 64
    ensures On(MINUS_ONE >> r, s) <==> s + r <= 63
  {
  }

  lemma Complement(e: bv64, s: bv64)
    requires e < 64 && s < 64
    ensures 63 - e < 64 && (s + (63 - e) <= 63 <==> s <= e)
  {
  }

  // ---------- carries ----------

  /** All bits below s are set. */
  predicate LowOnes(w: bv64, s: bv64)
    requires s < 64
  {
    w & ((1 << s) - 1) == (1 << s) - 1
  }

  /** All bits below s are clear. */
  predicate LowZeros(w: bv64, s: bv64)
    requires s < 64
  {
    w & ((1 << s) - 1) == 0
  }

  lemma LowOnesStep(w: bv64, s: bv64)
    requires s < 63
    ensures LowOnes(w, s + 1) <==> LowOnes(w, s) && On(w, s)
  {
  }

  lemma LowZerosStep(w: bv64, s: bv64)
    requires s < 63
    ensures LowZeros(w, s + 1) <==> LowZeros(w, s) && !On(w, s)
  {
  }

  lemma LowNone(w: bv64)
    ensures LowOnes(w, 0) && LowZeros(w, 0)
  {
  }

  lemma OnInc(w: bv64, s: bv64)
    requires s < 64
    ensures On(w + 1, s) <==> if LowOnes(w, s) then !On(w, s) else On(w, s)
  {
  }

  lemma OnDec(w: bv64, s: bv64)
    requires s < 64
    ensures On(w - 1, s) <==> if LowZeros(w, s) then !On(w, s) else On(w, s)
  {
  }

  // ---------- the same, for named bits ----------

  lemma {:induction false} BehindLogic(w: bv64, x: bv64, k: nat, n: nat)
    requires k < WORD_BITS
    ensures BitBehind(w | x, k, n) <==> BitBehind(w, k, n) || BitBehind(x, k, n)
    ensures BitBehind(w & x, k, n) <==> BitBehind(w, k, n) && BitBehind(x, k, n)
    ensures BitBehind(!w, k, n) <==> !BitBehind(w, k, n)
  {
    if n == 0 {
      OnOr(w, x, Amount(k));
      OnAnd(w, x, Amount(k));
      OnNot(w, Amount(k));
    } else {
      BehindLogic(w, x, k, n - 1);
    }
  }

  lemma {:induction false} BehindOne(b: nat, k: nat, n: nat)
    requires b < WORD_BITS && k < WORD_BITS
    ensures Amount(b) < 64
    ensures BitBehind(1 << Amount(b), k, n) <==> k == b
  {
    AmountOrder(b, k);
    if n == 0 {
      OnOne(Amount(b), Amount(k));
    } else {
      BehindOne(b, k, n - 1);
    }
  }

  lemma {:induction false} BehindFrom(b: nat, k: nat, n: nat)
    requires b < WORD_BITS && k < WORD_BITS
    ensures Amount(b) < 64
    ensures BitBehind(MINUS_ONE << Amount(b), k, n) <==> b <= k
  {
    AmountOrder(b, k);
    if n == 0 {
      OnFrom(Amount(b), Amount(k));
    } else {
      BehindFrom(b, k, n - 1);
    }
  }

  lemma {:induction false} BehindRightShift(e: nat, k: nat, n: nat)
    requires e < WORD_BITS && k < WORD_BITS
    ensures Amount(e) < 64
    ensures BitBehind(MINUS_ONE >> (63 - Amount(e)), k, n) <==> k <= e
  {
    AmountOrder(k, e);
    if n == 0 {
      OnUpTo(Amount(e), Amount(k));
    } else {
      BehindRightShift(e, k, n - 1);
    }
  }

  lemma {:induction false} BehindInc(w: bv64, k: nat, n: nat, low: bool)
    requires k < WORD_BITS
    requires Amount(k) < 64
    requires low == LowOnes(w, Amount(k))
    ensures BitBehind(w + 1, k, n) <==> if low then !BitBehind(w, k, n) else BitBehind(w, k, n)
  {
    if n == 0 {
      OnInc(w, Amount(k));
    } else {
      BehindInc(w, k, n - 1, low);
    }
  }

  lemma {:induction false} BehindDec(w: bv64, k: nat, n: nat, low: bool)
    requires k < WORD_BITS
    requires Amount(k) < 64
    requires low == LowZeros(w, Amount(k))
    ensures BitBehind(w - 1, k, n) <==> if low then !BitBehind(w, k, n) else BitBehind(w, k, n)
  {
    if n == 0 {
      OnDec(w, Amount(k));
    } else {
      BehindDec(w, k, n - 1, low);
    }
  }

  lemma {:induction false} BehindLow(w: bv64, k: nat, n: nat)
    requires k < 63
    ensures Amount(k) < 63 && Amount(k + 1) < 64
    ensures LowOnes(w, Amount(k + 1)) <==> LowOnes(w, Amount(k)) && BitBehind(w, k, n)
    ensures LowZeros(w, Amount(k + 1)) <==> LowZeros(w, Amount(k)) && !BitBehind(w, k, n)
  {
    AmountBound(k + 1);
    AmountSmall(k);
    if n == 0 {
      LowOnesStep(w, Amount(k));
      LowZerosStep(w, Amount(k));
    } else {
      BehindLow(w, k, n - 1);
    }
  }

  lemma AmountSmall(k: nat)
    requires k < 63
    ensures Amount(k) < 63
  {
    AmountLess(k, 63);
    AmountBound(63);
    BelowTop(Amount(k), Amount(63));
  }

  lemma BelowTop(s: bv64, t: bv64)
    requires s < t < 64
    ensures s < 63
  {
  }

  lemma {:induction false} LowOfWord(w: bv64, k: nat)
    requires k < WORD_BITS
    ensures Amount(k) < 64
    ensures LowOnes(w, Amount(k)) <==> LowSet(ToWord(w), k)
    ensures LowZeros(w, Amount(k)) <==> LowClear(ToWord(w), k)
  {
    AmountBound(k);
    if k == 0 {
      LowNone(w);
    } else {
      LowOfWord(w, k - 1);
      BehindLow(w, k - 1, k - 1 + 3);
      assert ToWord(w)[k - 1] == MachineBit(w, k - 1);
      assert LowSet(ToWord(w), k) <==> LowSet(ToWord(w), k - 1) && ToWord(w)[k - 1];
      assert LowClear(ToWord(w), k) <==> LowClear(ToWord(w), k - 1) && !ToWord(w)[k - 1];
    }
  }

  // ---------- every operation of module Words is the machine's ----------

  lemma OrIsMachine(w: bv64, x: bv64)
    ensures ToWord(w | x) == Or(ToWord(w), ToWord(x))
  {
    forall k | 0 <= k < WORD_BITS
      ensures ToWord(w | x)[k] == Or(ToWord(w), ToWord(x))[k]
    {
      BehindLogic(w, x, k, k + 3);
    }
  }

  lemma AndIsMachine(w: bv64, x: bv64)
    ensures ToWord(w & x) == And(ToWord(w), ToWord(x))
  {
    forall k | 0 <= k < WORD_BITS
      ensures ToWord(w & x)[k] == And(ToWord(w), ToWord(x))[k]
    {
      BehindLogic(w, x, k, k + 3);
    }
  }

  lemma NotIsMachine(w: bv64)
    ensures ToWord(!w) == Not(ToWord(w))
  {
    forall k | 0 <= k < WORD_BITS
      ensures ToWord(!w)[k] == Not(ToWord(w))[k]
    {
      BehindLogic(w, w, k, k + 3);
    }
  }

  lemma LeftShiftIsMachine(b: nat)
    requires b < WORD_BITS
    ensures Amount(b) < 64
    ensures ToWord(1 << Amount(b)) == OneBit(b)
    ensures ToWord(MINUS_ONE << Amount(b)) == From(b)
  {
    AmountBound(b);
    forall k | 0 <= k < WORD_BITS
      ensures ToWord(1 << Amount(b))[k] == OneBit(b)[k]
      ensures ToWord(MINUS_ONE << Amount(b))[k] == From(b)[k]
    {
      BehindOne(b, k, k + 3);
      BehindFrom(b, k, k + 3);
    }
  }

  lemma RightShiftIsMachine(e: nat)
    requires e < WORD_BITS
    ensures Amount(e) < 64
    ensures ToWord(MINUS_ONE >> (63 - Amount(e))) == UpTo(e)
  {
    AmountBound(e);
    forall k | 0 <= k < WORD_BITS
      ensures ToWord(MINUS_ONE >> (63 - Amount(e)))[k] == UpTo(e)[k]
    {
      BehindRightShift(e, k, k + 3);
    }
  }

  lemma CarryIsMachine(w: bv64)
    ensures ToWord(w + 1) == Inc(ToWord(w))
    ensures ToWord(w - 1) == Dec(ToWord(w))
  {
    forall k | 0 <= k < WORD_BITS
      ensures ToWord(w + 1)[k] == Inc(ToWord(w))[k]
      ensures ToWord(w - 1)[k] == Dec(ToWord(w))[k]
    {
      LowOfWord(w, k);
      BehindInc(w, k, k + 3, LowSet(ToWord(w), k));
      BehindDec(w, k, k + 3, LowClear(ToWord(w), k));
    }
  }

  lemma FullWord(w: bv64)
    ensures LowOnes(w, 63) && On(w, 63) <==> w == MINUS_ONE
    ensures LowZeros(w, 63) && !On(w, 63) <==> w == 0
  {
  }

  lemma {:induction false} BehindTop(w: bv64, n: nat)
    ensures Amount(63) < 64
    ensures LowOnes(w, Amount(63)) && BitBehind(w, 63, n) <==> w == MINUS_ONE
    ensures LowZeros(w, Amount(63)) && !BitBehind(w, 63, n) <==> w == 0
  {
    AmountBound(63);
    if n == 0 {
      AmountValue(63);
      ValueIsTop(Amount(63));
      FullWord(w);
    } else {
      BehindTop(w, n - 1);
    }
  }

  lemma ValueIsTop(s: bv64)
    requires s as int == 63
    ensures s == 63
  {
  }

  /** The code's comparisons with `-1` and with `0` see exactly the full and the empty word. */
  lemma ComparisonsAreMachine(w: bv64)
    ensures w == MINUS_ONE <==> ToWord(w) == AllOnes()
    ensures w == 0 <==> ToWord(w) == Zero()
  {
    LowOfWord(w, 63);
    BehindTop(w, 63 + 3);
    assert ToWord(w)[63] == MachineBit(w, 63);
    if LowSet(ToWord(w), 63) && ToWord(w)[63] {
      assert ToWord(w) == AllOnes();
    } else {
      assert exists k :: 0 <= k < WORD_BITS && ToWord(w)[k] != AllOnes()[k];
    }
    if LowClear(ToWord(w), 63) && !ToWord(w)[63] {
      assert ToWord(w) == Zero();
    } else {
      assert exists k :: 0 <= k < WORD_BITS && ToWord(w)[k] != Zero()[k];
    }
  }
}
