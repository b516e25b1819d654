// zend_mm_bitset_nts where the compiler has no instruction for it: the count of trailing ones by halving.
module TrailingOnesSearch {
  import opened Words

  /** `w >> n` */
  function RightShift(w: Word, n: nat): Word {
    seq(WORD_BITS, k requires 0 <= k < WORD_BITS => k + n < WORD_BITS && w[k + n])
  }

  /** `(w & m) == m` for m with the lowest k bits set tests exactly these bits. */
  lemma LowMask(w: Word, k: nat)
    requires 1 <= k <= WORD_BITS
    ensures And(w, UpTo(k - 1)) == UpTo(k - 1) <==> LowSet(w, k)
  {
    if And(w, UpTo(k - 1)) == UpTo(k - 1) {
      forall j | 0 <= j < k
        ensures w[j]
      {
        assert UpTo(k - 1)[j] == And(w, UpTo(k - 1))[j];
      }
    }
  }

  /** One step: if the lowest k bits are set they are counted and shifted out. */
  method Halve(bits: Word, w: Word, n: nat, k: nat) returns (w2: Word, n2: nat)
    requires 1 <= k && n + 2 * k <= WORD_BITS && w == RightShift(bits, n)
    requires LowSet(bits, n) && !LowSet(bits, n + 2 * k)
    ensures n2 + k <= WORD_BITS && w2 == RightShift(bits, n2) && LowSet(bits, n2) && !LowSet(bits, n2 + k)
  {
    w2, n2 := w, n;
    LowMask(w, k);
    if And(w, UpTo(k - 1)) == UpTo(k - 1) {
      n2 := n + k;
      w2 := RightShift(w, k);
      forall j | n <= j < n + k
        ensures bits[j]
      {
        assert w[j - n];
      }
    } else {
      var j :| 0 <= j < k && !w[j];
      assert !bits[n + j];
    }
  }

  lemma NotAll(bits: Word)
    ensures RightShift(bits, 0) == bits
    ensures bits == AllOnes() <==> LowSet(bits, WORD_BITS)
    ensures bits == AllOnes() ==> TrailingOnes(bits) == WORD_BITS
  {
  }

  lemma LastBit(bits: Word, w: Word, n: nat)
    requires n + 2 <= WORD_BITS && w == RightShift(bits, n) && LowSet(bits, n) && !LowSet(bits, n + 2)
    ensures TrailingOnes(bits) == if w[0] then n + 1 else n
  {
    assert w[0] == bits[n];
    var t := TrailingOnes(bits);
    assert t < WORD_BITS ==> !bits[t];
  }

  method Search(bits: Word) returns (n: nat)
    ensures n == TrailingOnes(bits)
  {
    NotAll(bits);
    if bits == AllOnes() {
      return WORD_BITS;
    }
    var w := bits;
    n := 0;
    w, n := Halve(bits, w, n, 32);
    w, n := Halve(bits, w, n, 16);
    w, n := Halve(bits, w, n, 8);
    w, n := Halve(bits, w, n, 4);
    w, n := Halve(bits, w, n, 2);
    LastBit(bits, w, n);
    n := n + if w[0] then 1 else 0;
  }
}
