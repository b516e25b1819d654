/** When all pages from free_tail on are free: what keeps that, and the one operation that can end it. */
module ChunkTails {
  import opened Bins
  import opened Bitset
  import opened BestFit
  import opened Chunks

  predicate TailFree(c: Chunk) {
    WellSized(c) && 0 <= c.freeTail <= PAGES && AllClear(c.bits, c.freeTail, PAGES)
  }

  /** In a well-formed chunk it can be told from one page. */
  lemma TailFreeIff(c: Chunk, owner: seq<int>)
    requires Tiled(c, owner)
    ensures TailFree(c) <==> c.freeTail == PAGES || !c.bits[c.freeTail]
  {
    TiledTailBits(c, owner);
    forall k | c.freeTail <= k < PAGES && c.bits[k]
      ensures c.bits[c.freeTail]
    {
    }
  }

  /** Growth in place: exactly the pages before free_tail are safe to grow into. */
  lemma GrowIff(c: Chunk, owner: seq<int>, page: nat, to: nat)
    requires Tiled(c, owner) && 1 <= page < PAGES && c.info[page].Lrun?
    requires c.info[page].pages < to && page + to <= PAGES
    ensures TailFree(Grow(c, page, c.info[page].pages, to)) <==> TailFree(c) && page + to <= c.freeTail
  {
    var from := c.info[page].pages;
    var r := Grow(c, page, from, to);
    assert owner[page] == page && page < c.freeTail;
    assert r.bits == Fill(c.bits, page + from, to - from, true);
    assert forall k :: 0 <= k < PAGES && c.bits[k] ==> r.bits[k];
    assert r.bits[page + to - 1];
  }

  /** Where a search leaves free_tail: it does not move when it stops at an exact fit or the last page is allocated;
      else it is where the last free run begins, or goes on when that one is chosen. */
  ghost predicate TailMoves(bits: seq<bool>, n: nat, tail: nat, c: Choice)
    requires |bits| == PAGES
  {
    if bits[PAGES - 1] || (c.page + n < PAGES && FreeRun(bits, c.page, c.page + n)) then c.tail == tail
    else exists s: nat :: FreeRun(bits, s, PAGES) && c.tail == if c.page == s then s + n else s
  }

  lemma {:induction false} ChooseMoves(bits: seq<bool>, n: nat, tail: nat, i: nat, best: nat, bestLen: nat)
    requires |bits| == PAGES && bits[0] && 1 <= n && i <= PAGES
    requires i == 0 || bits[i - 1] || (i < PAGES && bits[i])
    requires best != 0 ==> n < bestLen && best + bestLen <= i && FreeRun(bits, best, best + bestLen)
    ensures TailMoves(bits, n, tail, Choose(bits, n, tail, i, best, bestLen))
    decreases PAGES - i
  {
    var s := NextFree(bits, i);
    NextRun(bits, i);
    if s < PAGES {
      var e := FreeEnd(bits, s);
      if e < PAGES {
        if e - s != n {
          var better := n < e - s < bestLen;
          ChooseMoves(bits, n, tail, e, if better then s else best, if better then e - s else bestLen);
        }
      } else {
        assert FreeRun(bits, s, PAGES);
        NotExact(bits, n, best, bestLen);
      }
    } else {
      NotExact(bits, n, best, bestLen);
    }
  }

  /** A run longer than n is not one of exactly n pages. */
  lemma NotExact(bits: seq<bool>, n: nat, best: nat, bestLen: nat)
    requires |bits| == PAGES && bits[0]
    requires best != 0 ==> n < bestLen && FreeRun(bits, best, best + bestLen)
    ensures !FreeRun(bits, best, best + n)
  {
  }

  lemma SearchMoves(c: Chunk, owner: seq<int>, n: nat)
    requires Tiled(c, owner) && 1 <= n <= c.freePages
    ensures TailMoves(c.bits, n, c.freeTail, FindIn(c, n))
  {
    assert owner[0] == 0 && c.bits[0];
    ChooseMoves(c.bits, n, c.freeTail, 0, 0, PAGES);
  }

  /** The search, from any position on: what is chosen ends at or before the new free_tail. */
  lemma {:induction false} ChooseBelow(bits: seq<bool>, n: nat, tail: nat, i: nat, best: nat, bestLen: nat)
    requires |bits| == PAGES && 1 <= n && i <= PAGES && tail <= PAGES && AllClear(bits, tail, PAGES)
    requires best != 0 ==> best + n <= i && best + n <= tail
    ensures var r := Choose(bits, n, tail, i, best, bestLen);
            && 0 <= r.tail <= PAGES && AllClear(bits, r.tail, PAGES) && (r.page != 0 ==> r.page + n <= r.tail)
    decreases PAGES - i
  {
    var s := NextFree(bits, i);
    if s < PAGES {
      var e := FreeEnd(bits, s);
      if e < PAGES {
        assert bits[e] && e < tail;
        if e - s != n {
          if n < e - s < bestLen {
            ChooseBelow(bits, n, tail, e, s, e - s);
          } else {
            ChooseBelow(bits, n, tail, e, best, bestLen);
          }
        }
      }
    }
  }

  /** Search and take keep it. */
  lemma TakeTail(c: Chunk, owner: seq<int>, n: nat)
    requires Tiled(c, owner) && TailFree(c) && 1 <= n
    ensures var f := FindIn(c, n);
            && TailFree(c.(freeTail := f.tail))
            && (f.page != 0 ==> f.page + n <= PAGES && TailFree(Take(c.(freeTail := f.tail), f.page, n)))
  {
    if n <= c.freePages {
      ChooseBelow(c.bits, n, c.freeTail, 0, 0, PAGES);
    }
    var f := FindIn(c, n);
    if f.page != 0 {
      FindKeeps(c, owner, n);
      assert Take(c.(freeTail := f.tail), f.page, n).bits == Fill(c.bits, f.page, n, true);
    }
  }

  /** So does taking the first pages of a new chunk. */
  lemma TakeFirst(c: Chunk, num: int, n: nat)
    requires WellSized(c) && AllClear(c.bits, FIRST_PAGE, PAGES) && FIRST_PAGE + n <= PAGES
    ensures TailFree(Init(c, num)) && TailFree(Take(Init(c, num), FIRST_PAGE, n))
  {
    InitBits(c, num);
    assert Take(Init(c, num), FIRST_PAGE, n).bits == Fill(Init(c, num).bits, FIRST_PAGE, n, true);
  }

  /** So does giving pages back. */
  lemma PutTail(c: Chunk, page: nat, n: nat)
    requires TailFree(c) && page < PAGES && page + n <= PAGES
    ensures TailFree(Put(c, page, n))
  {
    assert Put(c, page, n).bits == Fill(c.bits, page, n, false);
  }

  /** Giving back what has just been taken restores the pages and their number, and free_tail unless the run fits
      in right before it. */
  lemma PutTake(c: Chunk, page: nat, n: nat)
    requires WellSized(c) && 1 <= n && page + n <= PAGES && AllClear(c.bits, page, page + n) && page <= c.freeTail
    ensures var r := Put(Take(c, page, n), page, n);
            && r.bits == c.bits && r.freePages == c.freePages
            && (r.freeTail == c.freeTail <==> page + n != c.freeTail)
  {
    var t := Take(c, page, n);
    assert t.bits == Fill(c.bits, page, n, true);
    assert Put(t, page, n).bits == Fill(t.bits, page, n, false);
    assert forall k :: 0 <= k < PAGES ==> Put(t, page, n).bits[k] == c.bits[k];
  }

  /** So does shrinking in place. */
  lemma ShrinkTail(c: Chunk, page: nat, from: nat, to: nat)
    requires TailFree(c) && page < PAGES && to <= from && page + from <= PAGES
    ensures TailFree(Shrink(c, page, from, to))
  {
    assert Shrink(c, page, from, to).bits == Fill(c.bits, page + to, from - to, false);
  }

  /** "All pages from free_tail on are free" fails: page 1 is taken and grown in place over page 2, and page 2
      is at free_tail. */
  lemma GrowPastTail()
    ensures var c := Grow(Take(Init(ZeroChunk(), 0), 1, 1), 1, 1, 2);
            Tiled(c, Own(Own(HeaderOnly(), 1, 1), 1, 2)) && c.freeTail == 2 && c.bits[2]
  {
    var c0, o0 := Init(ZeroChunk(), 0), HeaderOnly();
    InitTiled(ZeroChunk(), 0);
    InitBits(ZeroChunk(), 0);
    TakeTiled(c0, o0, 1, 1);
    GrowTiled(Take(c0, 1, 1), Own(o0, 1, 1), 1, 2);
  }
}
