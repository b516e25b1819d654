/** The size classes of small blocks (zend_alloc_sizes.h) and the choice of the class for a size. */
module Bins {

  const PAGE_SIZE := 4096
  const BINS := 30
  const MAX_SMALL_SIZE := 3072

  /** One row of the table: block size, blocks in a run, pages in a run. */
  datatype Row = Row(size: nat, elements: nat, pages: nat)

  datatype Rows = End | More(row: Row, rest: Rows)

  const TABLE: Rows :=
    More(Row(8, 512, 1), More(Row(16, 256, 1), More(Row(24, 170, 1),
    More(Row(32, 128, 1), More(Row(40, 102, 1), More(Row(48, 85, 1), FROM_BIN_6))))))

  const FROM_BIN_6: Rows :=
    More(Row(56, 73, 1), More(Row(64, 64, 1), More(Row(80, 51, 1),
    More(Row(96, 42, 1), More(Row(112, 36, 1), More(Row(128, 32, 1), FROM_BIN_12))))))

  const FROM_BIN_12: Rows :=
    More(Row(160, 25, 1), More(Row(192, 21, 1), More(Row(224, 18, 1),
    More(Row(256, 16, 1), More(Row(320, 64, 5), More(Row(384, 32, 3), FROM_BIN_18))))))

  const FROM_BIN_18: Rows :=
    More(Row(448, 9, 1), More(Row(512, 8, 1), More(Row(640, 32, 5),
    More(Row(768, 16, 3), More(Row(896, 9, 2), More(Row(1024, 8, 2), FROM_BIN_24))))))

  const FROM_BIN_24: Rows :=
    More(Row(1280, 16, 5), More(Row(1536, 8, 3), More(Row(1792, 16, 7),
    More(Row(2048, 8, 4), More(Row(2560, 8, 5), More(Row(3072, 4, 3), End))))))

  function RowAt(rows: Rows, b: nat): Row
    decreases b
  {
    match rows
    case End => Row(1, 1, 1)
    case More(row, rest) => if b == 0 then row else RowAt(rest, b - 1)
  }

  function BinSize(b: nat): nat {
    RowAt(TABLE, b).size
  }

  function BinElements(b: nat): nat {
    RowAt(TABLE, b).elements
  }

  function BinPages(b: nat): nat {
    RowAt(TABLE, b).pages
  }

  /** x shifted left by n. */
  function ShiftLeft(x: nat, n: nat): nat {
    if n == 0 then x else 2 * ShiftLeft(x, n - 1)
  }

  /** The sizes: eight multiples of 8, then four equal steps in every doubling. */
  function Progression(b: nat): nat {
    if b < 8 then 8 * (b + 1) else ShiftLeft(b % 4 + 5, b / 4 + 2)
  }

  /** What the heap relies on about row b, given the row after it. */
  predicate RowOk(b: nat, r: Row, next: Row) {
    && 8 <= r.size <= MAX_SMALL_SIZE && r.size % 8 == 0
    && 4 <= r.elements && (if b == 0 then r.elements == 512 else r.elements <= 256)
    && 1 <= r.pages <= 8
    && r.size == Progression(b)
    && r.elements * r.size <= r.pages * PAGE_SIZE < (r.elements + 1) * r.size
    && (b + 1 < BINS ==> r.size < next.size)
    && (b + 1 == BINS ==> r.size == MAX_SMALL_SIZE)
  }

  predicate RowsOk(b: nat, rows: Rows)
    decreases rows
  {
    match rows
    case End => b == BINS
    case More(r, rest) => RowOk(b, r, RowAt(rest, 0)) && RowsOk(b + 1, rest)
  }

  lemma TableOk()
    ensures RowsOk(0, TABLE)
  {
    assert RowsOk(24, FROM_BIN_24);
    assert RowsOk(18, FROM_BIN_18);
    assert RowsOk(12, FROM_BIN_12);
    assert RowsOk(6, FROM_BIN_6);
  }

  lemma {:induction false} RowsOkAt(b: nat, rows: Rows, k: nat)
    requires RowsOk(b, rows) && b + k < BINS
    ensures RowOk(b + k, RowAt(rows, k), RowAt(rows, k + 1))
    decreases k
  {
    if k > 0 {
      RowsOkAt(b + 1, rows.rest, k - 1);
    }
  }

  /** The facts about one size class that the rest of the model uses. */
  lemma BinFacts(b: nat)
    requires b < BINS
    ensures 8 <= BinSize(b) <= MAX_SMALL_SIZE && BinSize(b) % 8 == 0
    ensures 4 <= BinElements(b) && (if b == 0 then BinElements(b) == 512 else BinElements(b) <= 256)
    ensures 1 <= BinPages(b) <= 8
    ensures BinSize(b) == Progression(b)
    ensures BinElements(b) * BinSize(b) <= BinPages(b) * PAGE_SIZE
    ensures b + 1 < BINS ==> BinSize(b) < BinSize(b + 1)
    ensures b + 1 == BINS ==> BinSize(b) == MAX_SMALL_SIZE
  {
    TableOk();
    RowsOkAt(0, TABLE, b);
  }

  /** A run holds as many elements as fit its pages. */
  lemma BinFull(b: nat)
    requires b < BINS
    ensures BinElements(b) * BinSize(b) <= BinPages(b) * PAGE_SIZE < (BinElements(b) + 1) * BinSize(b)
  {
    TableOk();
    RowsOkAt(0, TABLE, b);
  }

  // ---------- zend_mm_small_size_to_bin ----------

  function ShiftRight(x: nat, n: nat): nat {
    if n == 0 then x else ShiftRight(x / 2, n - 1)
  }

  /** Position of the highest set bit, counting from 1 (0 for 0). */
  function BitLength(x: nat): (n: nat)
    ensures 4 <= x ==> 3 <= n
  {
    if x == 0 then 0 else 1 + BitLength(x / 2)
  }

  function SmallSizeToBin(size: nat): int {
    if size <= 64 then
      ShiftRight(size - (if size == 0 then 0 else 1), 3)
    else
      ByLength(size - 1, BitLength(size - 1) - 3)
  }

  function ByLength(t1: nat, t2: nat): int {
    ShiftRight(t1, t2) + (t2 - 3) * 4
  }

  lemma {:induction false} ShiftLeftOrder(x: nat, y: nat, n: nat)
    requires x < y
    ensures ShiftLeft(x, n) < ShiftLeft(y, n)
  {
    if n > 0 {
      ShiftLeftOrder(x, y, n - 1);
    }
  }

  lemma {:induction false} ShiftLeftGrows(x: nat, m: nat, n: nat)
    requires m <= n
    ensures ShiftLeft(x, m) <= ShiftLeft(x, n)
  {
    if m < n {
      ShiftLeftGrows(x, m, n - 1);
    }
  }

  lemma {:induction false} ShiftLeftTwice(x: nat, n: nat)
    ensures ShiftLeft(2 * x, n) == ShiftLeft(x, n + 1)
  {
    if n > 0 {
      ShiftLeftTwice(x, n - 1);
    }
  }

  lemma {:induction false} BitLengthBounds(x: nat)
    requires 0 < x
    ensures 0 < BitLength(x) && ShiftLeft(1, BitLength(x) - 1) <= x < ShiftLeft(1, BitLength(x))
  {
    if x > 1 {
      BitLengthBounds(x / 2);
    }
  }

  lemma {:induction false} ShiftRightBounds(x: nat, n: nat)
    ensures ShiftLeft(ShiftRight(x, n), n) <= x < ShiftLeft(ShiftRight(x, n) + 1, n)
  {
    if n > 0 {
      ShiftRightBounds(x / 2, n - 1);
    }
  }

  /** The length of t, from the powers of two around it. */
  lemma LengthBetween(t: nat, l: nat)
    requires 64 <= t < MAX_SMALL_SIZE && 0 < l && ShiftLeft(1, l - 1) <= t < ShiftLeft(1, l)
    ensures 7 <= l <= 12
    ensures ShiftLeft(4, l - 3) <= t < ShiftLeft(8, l - 3)
  {
    assert ShiftLeft(1, 6) == 64 && ShiftLeft(1, 12) == 4096;
    ShiftLeftGrows(1, if l <= 6 then l else 6, 6);
    ShiftLeftGrows(1, 12, if 12 < l then l - 1 else 12);
    ShiftLeftTwice(1, l - 2);
    ShiftLeftTwice(2, l - 3);
    ShiftLeftTwice(1, l - 1);
    ShiftLeftTwice(2, l - 2);
    ShiftLeftTwice(4, l - 3);
  }

  /** The leading three bits q of t, when t lies in [q, q + 1) steps of 2^(l-3). */
  lemma LeadingBits(t: nat, l: nat, q: nat)
    requires t < MAX_SMALL_SIZE && 7 <= l <= 12
    requires ShiftLeft(4, l - 3) <= t < ShiftLeft(8, l - 3)
    requires ShiftLeft(q, l - 3) <= t < ShiftLeft(q + 1, l - 3)
    ensures 4 <= q <= 7 && (l == 12 ==> q <= 5)
  {
    if q + 1 < 4 {
      ShiftLeftOrder(q + 1, 4, l - 3);
    }
    if 8 < q {
      ShiftLeftOrder(8, q, l - 3);
    }
    if l == 12 && 6 < q {
      ShiftLeftOrder(6, q, 9);
    }
    assert ShiftLeft(6, 9) == 3072;
  }

  /** The classes of one doubling, by leading bits q and length l. */
  lemma SizeByLeadingBits(l: nat, q: nat)
    requires 7 <= l <= 12 && 4 <= q <= 7 && (l == 12 ==> q <= 5)
    ensures 8 <= q + 4 * (l - 6) < BINS
    ensures BinSize(q + 4 * (l - 6)) == ShiftLeft(q + 1, l - 3)
  {
    var b := q + 4 * (l - 6);
    BinFacts(b);
    assert b % 4 == q - 4 && b / 4 == l - 5;
  }

  lemma SizeBelowLeadingBits(l: nat, q: nat)
    requires 7 <= l <= 12 && 4 <= q <= 7 && (l == 12 ==> q <= 5)
    ensures BinSize(q + 4 * (l - 6) - 1) == ShiftLeft(q, l - 3)
  {
    if q > 4 {
      SizeByLeadingBits(l, q - 1);
    } else if l > 7 {
      SizeByLeadingBits(l - 1, 7);
      ShiftLeftTwice(4, l - 4);
    } else {
      BinFacts(7);
      assert ShiftLeft(4, 4) == 64;
    }
  }

  lemma SmallestBinUpTo64(size: nat)
    requires size <= 64
    ensures var b := SmallSizeToBin(size);
            0 <= b < BINS && size <= BinSize(b) && (b > 0 ==> BinSize(b - 1) < size)
  {
    var x := size - (if size == 0 then 0 else 1);
    ShiftedBy3(x);
    BinFacts(x / 8);
    if x / 8 > 0 {
      BinFacts(x / 8 - 1);
    }
  }

  lemma ShiftedBy3(x: nat)
    ensures ShiftRight(x, 3) == x / 8
  {
    assert ShiftRight(x, 3) == ShiftRight(x / 2, 2) == ShiftRight(x / 4, 1) == ShiftRight(x / 8, 0);
  }

  lemma ClassOf(t: nat, l: nat, q: nat)
    requires 64 <= t < MAX_SMALL_SIZE && 0 < l
    requires ShiftLeft(1, l - 1) <= t < ShiftLeft(1, l)
    requires 3 <= l ==> ShiftLeft(q, l - 3) <= t < ShiftLeft(q + 1, l - 3)
    ensures 0 < q + (l - 6) * 4 < BINS
    ensures BinSize(q + (l - 6) * 4 - 1) <= t < BinSize(q + (l - 6) * 4)
  {
    LengthBetween(t, l);
    LeadingBits(t, l, q);
    SizeByLeadingBits(l, q);
    SizeBelowLeadingBits(l, q);
  }

  lemma ByLengthOk(t: nat, l: nat)
    requires 64 <= t < MAX_SMALL_SIZE && 3 <= l
    requires ShiftLeft(1, l - 1) <= t < ShiftLeft(1, l)
    ensures var b := ByLength(t, l - 3);
            0 < b < BINS && BinSize(b - 1) <= t < BinSize(b)
  {
    ShiftRightBounds(t, l - 3);
    ClassOf(t, l, ShiftRight(t, l - 3));
  }

  lemma SmallestBinFrom65(size: nat)
    requires 64 < size <= MAX_SMALL_SIZE
    ensures var b := SmallSizeToBin(size);
            0 < b < BINS && size <= BinSize(b) && BinSize(b - 1) < size
  {
    BitLengthBounds(size - 1);
    ByLengthOk(size - 1, BitLength(size - 1));
  }

  /** zend_mm_small_size_to_bin picks the smallest class that is large enough. */
  lemma SmallestBin(size: nat)
    requires size <= MAX_SMALL_SIZE
    ensures 0 <= SmallSizeToBin(size) < BINS
    ensures size <= BinSize(SmallSizeToBin(size))
    ensures forall b :: 0 <= b < SmallSizeToBin(size) ==> BinSize(b) < size
  {
    if size <= 64 {
      SmallestBinUpTo64(size);
    } else {
      SmallestBinFrom65(size);
    }
    var b := SmallSizeToBin(size);
    forall c | 0 <= c < b
      ensures BinSize(c) < size
    {
      SizesGrow(c, b - 1);
    }
  }

  lemma {:induction false} SizesGrow(c: nat, b: nat)
    requires c <= b < BINS
    ensures BinSize(c) <= BinSize(b)
    decreases b - c
  {
    if c < b {
      BinFacts(c);
      SizesGrow(c + 1, b);
    }
  }
}
