/** The range operations on a chunk's page bitset (512 bits in 8 words), updated in place. */
module Bitset {
  import opened Words

  const PAGES := 512
  const MAP_LEN := 8

  /** Bit k of a page bitset. */
  predicate BitAt(ws: seq<Word>, k: nat)
    requires |ws| == MAP_LEN && k < PAGES
  {
    ws[k / WORD_BITS][k % WORD_BITS]
  }

  /** The bitset as 512 booleans: page k is allocated. */
  function Bits(ws: seq<Word>): (bits: seq<bool>)
    requires |ws| == MAP_LEN
  {
    seq(PAGES, k requires 0 <= k < PAGES => BitAt(ws, k))
  }

  /** The plain meaning of both range updates: positions [start, start + len) become `to`. */
  function Fill(bits: seq<bool>, start: nat, len: nat, to: bool): (r: seq<bool>)
    requires |bits| == PAGES && start + len <= PAGES
  {
    seq(PAGES, k requires 0 <= k < PAGES => if start <= k < start + len then to else bits[k])
  }

  predicate AllClear(bits: seq<bool>, start: nat, end: nat)
    requires start <= end <= |bits|
  {
    forall k :: start <= k < end ==> !bits[k]
  }

  /** Rewriting word i so that its bits at positions [from, to) become v fills exactly those positions. */
  lemma WordFill(ws: seq<Word>, i: nat, w: Word, from: nat, to: nat, v: bool)
    requires |ws| == MAP_LEN && i < MAP_LEN
    requires i * WORD_BITS <= from <= to <= (i + 1) * WORD_BITS
    requires forall j :: 0 <= j < WORD_BITS ==> w[j] == if from <= i * WORD_BITS + j < to then v else ws[i][j]
    ensures Bits(ws[i := w]) == Fill(Bits(ws), from, to - from, v)
  {
    forall k | 0 <= k < PAGES
      ensures BitAt(ws[i := w], k) == if from <= k < to then v else BitAt(ws, k)
    {
      if k / WORD_BITS == i {
        assert i * WORD_BITS + k % WORD_BITS == k;
      }
    }
  }

  lemma FillJoins(bits: seq<bool>, start: nat, mid: nat, end: nat, v: bool)
    requires |bits| == PAGES && start <= mid <= end <= PAGES
    ensures Fill(Fill(bits, start, mid - start, v), mid, end - mid, v) == Fill(bits, start, end - start, v)
  {
  }

  /** Testing word i under mask m tests exactly the positions [from, to) that the mask selects. */
  lemma WordTest(ws: seq<Word>, i: nat, m: Word, from: nat, to: nat)
    requires |ws| == MAP_LEN && i < MAP_LEN
    requires i * WORD_BITS <= from <= to <= (i + 1) * WORD_BITS
    requires forall j :: 0 <= j < WORD_BITS ==> (m[j] <==> from <= i * WORD_BITS + j < to)
    ensures And(ws[i], m) == Zero() <==> AllClear(Bits(ws), from, to)
  {
    MaskedZero(ws[i], m);
    if And(ws[i], m) == Zero() {
      forall k | from <= k < to
        ensures !Bits(ws)[k]
      {
        assert k / WORD_BITS == i && m[k % WORD_BITS];
      }
    } else {
      var j :| 0 <= j < WORD_BITS && m[j] && ws[i][j];
      assert (i * WORD_BITS + j) / WORD_BITS == i && (i * WORD_BITS + j) % WORD_BITS == j;
      assert Bits(ws)[i * WORD_BITS + j];
    }
  }

  /** `bitset[i] = w`, where w differs from the old word exactly at positions [from, to), which become v. */
  method PutWord(bitset: array<Word>, i: nat, w: Word, ghost from: nat, ghost to: nat, ghost v: bool)
    requires bitset.Length == MAP_LEN && i < MAP_LEN
    requires i * WORD_BITS <= from <= to <= (i + 1) * WORD_BITS
    requires forall j :: 0 <= j < WORD_BITS ==> w[j] == if from <= i * WORD_BITS + j < to then v else bitset[i][j]
    modifies bitset
    ensures Bits(bitset[..]) == Fill(old(Bits(bitset[..])), from, to - from, v)
  {
    WordFill(bitset[..], i, w, from, to, v);
    bitset[i] := w;
    assert bitset[..] == old(bitset[..])[i := w];
  }

  method SetBit(bitset: array<Word>, bit: nat)
    requires bitset.Length == MAP_LEN && bit < PAGES
    modifies bitset
    ensures Bits(bitset[..]) == Fill(old(Bits(bitset[..])), bit, 1, true)
  {
    var pos := bit / WORD_BITS;
    PutWord(bitset, pos, Or(bitset[pos], OneBit(bit % WORD_BITS)), bit, bit + 1, true);
  }

  method ResetBit(bitset: array<Word>, bit: nat)
    requires bitset.Length == MAP_LEN && bit < PAGES
    modifies bitset
    ensures Bits(bitset[..]) == Fill(old(Bits(bitset[..])), bit, 1, false)
  {
    var pos := bit / WORD_BITS;
    PutWord(bitset, pos, And(bitset[pos], Not(OneBit(bit % WORD_BITS))), bit, bit + 1, false);
  }

  method SetRange(bitset: array<Word>, start: nat, len: nat)
    requires bitset.Length == MAP_LEN && 1 <= len && start + len <= PAGES
    modifies bitset
    ensures Bits(bitset[..]) == Fill(old(Bits(bitset[..])), start, len, true)
  {
    ghost var bits := Bits(bitset[..]);
    if len == 1 {
      SetBit(bitset, start);
    } else {
      var pos := start / WORD_BITS;
      var end := (start + len - 1) / WORD_BITS;
      var bit := start % WORD_BITS;
      if pos != end {
        PutWord(bitset, pos, Or(bitset[pos], From(bit)), start, (pos + 1) * WORD_BITS, true);
        pos := pos + 1;
        while pos != end
          invariant start / WORD_BITS < pos <= end
          invariant Bits(bitset[..]) == Fill(bits, start, pos * WORD_BITS - start, true)
        {
          PutWord(bitset, pos, AllOnes(), pos * WORD_BITS, (pos + 1) * WORD_BITS, true);
          FillJoins(bits, start, pos * WORD_BITS, (pos + 1) * WORD_BITS, true);
          pos := pos + 1;
        }
        end := (start + len - 1) % WORD_BITS;
        PutWord(bitset, pos, Or(bitset[pos], UpTo(end)), pos * WORD_BITS, start + len, true);
        FillJoins(bits, start, pos * WORD_BITS, start + len, true);
      } else {
        end := (start + len - 1) % WORD_BITS;
        PutWord(bitset, pos, Or(bitset[pos], And(From(bit), UpTo(end))), start, start + len, true);
      }
    }
  }

  method ResetRange(bitset: array<Word>, start: nat, len: nat)
    requires bitset.Length == MAP_LEN && 1 <= len && start + len <= PAGES
    modifies bitset
    ensures Bits(bitset[..]) == Fill(old(Bits(bitset[..])), start, len, false)
  {
    ghost var bits := Bits(bitset[..]);
    if len == 1 {
      ResetBit(bitset, start);
    } else {
      var pos := start / WORD_BITS;
      var end := (start + len - 1) / WORD_BITS;
      var bit := start % WORD_BITS;
      if pos != end {
        NotBelowBit(bit);
        PutWord(bitset, pos, And(bitset[pos], Not(Not(Dec(OneBit(bit))))), start, (pos + 1) * WORD_BITS, false);
        pos := pos + 1;
        while pos != end
          invariant start / WORD_BITS < pos <= end
          invariant Bits(bitset[..]) == Fill(bits, start, pos * WORD_BITS - start, false)
        {
          PutWord(bitset, pos, Zero(), pos * WORD_BITS, (pos + 1) * WORD_BITS, false);
          FillJoins(bits, start, pos * WORD_BITS, (pos + 1) * WORD_BITS, false);
          pos := pos + 1;
        }
        end := (start + len - 1) % WORD_BITS;
        PutWord(bitset, pos, And(bitset[pos], Not(UpTo(end))), pos * WORD_BITS, start + len, false);
        FillJoins(bits, start, pos * WORD_BITS, start + len, false);
      } else {
        end := (start + len - 1) % WORD_BITS;
        PutWord(bitset, pos, And(bitset[pos], Not(And(From(bit), UpTo(end)))), start, start + len, false);
      }
    }
  }

  method IsFreeRange(bitset: array<Word>, start: nat, len: nat) returns (free: bool)
    requires bitset.Length == MAP_LEN && 1 <= len && start + len <= PAGES
    ensures free <==> AllClear(Bits(bitset[..]), start, start + len)
  {
    ghost var ws := bitset[..];
    if len == 1 {
      assert Bits(ws)[start] == bitset[start / WORD_BITS][start % WORD_BITS];
      return !bitset[start / WORD_BITS][start % WORD_BITS];
    } else {
      var pos := start / WORD_BITS;
      var end := (start + len - 1) / WORD_BITS;
      var bit := start % WORD_BITS;
      if pos != end {
        WordTest(ws, pos, From(bit), start, (pos + 1) * WORD_BITS);
        if And(bitset[pos], From(bit)) != Zero() {
          return false;
        }
        pos := pos + 1;
        while pos != end
          invariant start / WORD_BITS < pos <= end
          invariant AllClear(Bits(ws), start, pos * WORD_BITS)
        {
          WordTest(ws, pos, AllOnes(), pos * WORD_BITS, (pos + 1) * WORD_BITS);
          assert And(bitset[pos], AllOnes()) == bitset[pos];
          if bitset[pos] != Zero() {
            return false;
          }
          pos := pos + 1;
        }
        end := (start + len - 1) % WORD_BITS;
        WordTest(ws, pos, UpTo(end), pos * WORD_BITS, start + len);
        return And(bitset[pos], UpTo(end)) == Zero();
      } else {
        end := (start + len - 1) % WORD_BITS;
        WordTest(ws, pos, And(From(bit), UpTo(end)), start, start + len);
        return And(bitset[pos], And(From(bit), UpTo(end))) == Zero();
      }
    }
  }
}
