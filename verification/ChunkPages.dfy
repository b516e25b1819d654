// The chunk header as the allocator keeps it: eight bitset words, page map and counters, updated in place.
module ChunkPageTable {
  // Every method is proved against the chunk functions of module Chunks.

  import opened Words
  import opened Bitset
  import opened BestFit
  import opened Bins
  import opened Chunks

  // ---------- what the current word says about the pages ----------

  /** The current word, for pages i.. of the chunk: pages before p read as allocated, the others as they are. */
  ghost predicate Sees(bits: seq<bool>, i: nat, tmp: Word, p: nat) {
    && |bits| == PAGES && i + WORD_BITS <= PAGES && i <= p <= i + WORD_BITS
    && forall k :: 0 <= k < WORD_BITS ==> tmp[k] == (i + k < p || bits[i + k])
  }

  /** The current word after its trailing ones are cleared: pages up to `page` read as free. The pages
      from `page` to the start of the word are known to be free. */
  ghost predicate SeesPast(bits: seq<bool>, i: nat, tmp: Word, page: nat) {
    && |bits| == PAGES && i + WORD_BITS <= PAGES && page < i + WORD_BITS
    && !bits[page]
    && AllClear(bits, page, if page < i then i else page)
    && forall k :: 0 <= k < WORD_BITS ==> tmp[k] == (page < i + k && bits[i + k])
  }

  lemma SeesWord(ws: seq<Word>, word: nat)
    requires |ws| == MAP_LEN && word < MAP_LEN
    ensures Sees(Bits(ws), word * WORD_BITS, ws[word], word * WORD_BITS)
  {
    forall k | 0 <= k < WORD_BITS
      ensures ws[word][k] == Bits(ws)[word * WORD_BITS + k]
    {
      assert (word * WORD_BITS + k) / WORD_BITS == word && (word * WORD_BITS + k) % WORD_BITS == k;
    }
  }

  lemma SkipAllocated(bits: seq<bool>, i: nat, tmp: Word, p: nat)
    requires Sees(bits, i, tmp, p) && tmp == AllOnes()
    ensures NextFree(bits, p) == NextFree(bits, i + WORD_BITS)
  {
    forall k | p <= k < i + WORD_BITS
      ensures bits[k]
    {
      assert tmp[k - i];
    }
    NextFreeSkips(bits, p, i + WORD_BITS);
  }

  lemma FirstZero(bits: seq<bool>, i: nat, tmp: Word, p: nat)
    requires Sees(bits, i, tmp, p) && tmp != AllOnes()
    ensures var page := i + TrailingOnes(tmp);
            && p <= page < i + WORD_BITS && NextFree(bits, p) == page
            && SeesPast(bits, i, And(tmp, Inc(tmp)), page)
  {
    ZeroWord(tmp);
    ClearTrailingOnes(tmp);
    var n := TrailingOnes(tmp);
    forall k | p <= k < i + n
      ensures bits[k]
    {
      assert tmp[k - i];
    }
    assert !tmp[n];
    NextFreeSkips(bits, p, i + n);
  }

  lemma SkipFree(bits: seq<bool>, i: nat, tmp: Word, page: nat)
    requires SeesPast(bits, i, tmp, page) && tmp == Zero()
    ensures AllClear(bits, page, i + WORD_BITS)
  {
    forall k | page <= k < i + WORD_BITS
      ensures !bits[k]
    {
      if i <= k {
        assert !tmp[k - i];
      }
    }
  }

  lemma SeesPastNext(bits: seq<bool>, i: nat, tmp: Word, page: nat)
    requires Sees(bits, i, tmp, i) && page < i && AllClear(bits, page, i)
    ensures SeesPast(bits, i, tmp, page)
  {
  }

  /** At or past free_tail, free pages up to here mean free pages to the end. */
  lemma TailIsFree(bits: seq<bool>, tail: int, page: nat, i: nat)
    requires |bits| == PAGES && TailBits(bits, tail)
    requires page < i <= PAGES && AllClear(bits, page, i) && (i >= tail || i == PAGES)
    ensures FreeEnd(bits, page) == PAGES
  {
    assert !bits[i - 1];
    FreeEndIs(bits, page, PAGES);
  }

  lemma FirstOne(bits: seq<bool>, i: nat, tmp: Word, page: nat)
    requires SeesPast(bits, i, tmp, page) && tmp != Zero()
    ensures var end := i + TrailingZeros(tmp);
            && page < end < i + WORD_BITS && FreeEnd(bits, page) == end
            && Sees(bits, i, Or(tmp, Dec(tmp)), end)
  {
    ZeroWord(tmp);
    SetTrailingZeros(tmp);
    var n := TrailingZeros(tmp);
    assert tmp[n];
    forall k | page <= k < i + n
      ensures !bits[k]
    {
      if i <= k {
        assert !tmp[k - i];
      }
    }
    FreeEndIs(bits, page, i + n);
  }

  /** Find the first 0 bit and clear the bits below it. */
  method ToFirstZero(i: nat, tmp: Word, ghost bits: seq<bool>, ghost p: nat) returns (page: nat, rest: Word)
    requires Sees(bits, i, tmp, p) && tmp != AllOnes()
    ensures p <= page < i + WORD_BITS && NextFree(bits, p) == page
    ensures SeesPast(bits, i, rest, page)
  {
    FirstZero(bits, i, tmp, p);
    page := i + TrailingOnes(tmp);
    rest := And(tmp, Inc(tmp));
  }

  /** Find the first 1 bit and set the bits below it. */
  method ToFirstOne(i: nat, tmp: Word, ghost bits: seq<bool>, page: nat) returns (end: nat, rest: Word)
    requires SeesPast(bits, i, tmp, page) && tmp != Zero()
    ensures page < end < i + WORD_BITS && FreeEnd(bits, page) == end
    ensures Sees(bits, i, rest, end)
  {
    FirstOne(bits, i, tmp, page);
    end := i + TrailingZeros(tmp);
    rest := Or(tmp, Dec(tmp));
  }

  class ChunkPages {
    const freeMap: array<Word>
    const pageMap: array<PageInfo>
    var freePages: int
    var freeTail: int
    var num: int

    ghost predicate Shape() {
      freeMap.Length == MAP_LEN && pageMap.Length == PAGES
    }

    ghost function View(): (c: Chunk)
      requires Shape()
      reads this, freeMap, pageMap
      ensures WellSized(c)
    {
      Chunk(Bits(freeMap[..]), pageMap[..], freePages, freeTail, num)
    }

    /** A chunk fresh from the operating system: all zero. */
    constructor ()
      ensures Shape() && View() == ZeroChunk() && fresh(freeMap) && fresh(pageMap)
    {
      freeMap := new Word[MAP_LEN](_ => Zero());
      pageMap := new PageInfo[PAGES](_ => Frun);
      freePages, freeTail, num := 0, 0, 0;
      new;
      assert Bits(freeMap[..]) == ZeroChunk().bits;
      assert pageMap[..] == ZeroChunk().info;
    }

    /** zend_mm_chunk_init, without the ring links. */
    method Initialize(newNum: int)
      requires Shape()
      modifies this, freeMap, pageMap
      ensures View() == Init(old(View()), newNum)
    {
      freePages := PAGES - FIRST_PAGE;
      freeTail := FIRST_PAGE;
      num := newNum;
      freeMap[0] := Dec(OneBit(FIRST_PAGE));
      pageMap[0] := Lrun(FIRST_PAGE);
      forall k | 0 <= k < PAGES
        ensures Bits(freeMap[..])[k] == Init(old(View()), newNum).bits[k]
      {
        if k < WORD_BITS {
          FirstPageWord(k);
        }
      }
      assert Bits(freeMap[..]) == Init(old(View()), newNum).bits;
    }

    /** The end of zend_mm_alloc_pages: mark the run found as allocated. */
    method TakePages(page: nat, n: nat)
      requires Shape() && page < PAGES && 1 <= n && page + n <= PAGES
      modifies this, freeMap, pageMap
      ensures View() == Take(old(View()), page, n)
    {
      freePages := freePages - n;
      SetRange(freeMap, page, n);
      pageMap[page] := Lrun(n);
      if page == freeTail {
        freeTail := page + n;
      }
      assert pageMap[..] == old(pageMap[..])[page := Lrun(n)];
    }

    /** zend_mm_free_pages_ex, without the release of the chunk. */
    method PutPages(page: nat, n: nat)
      requires Shape() && page < PAGES && 1 <= n && page + n <= PAGES
      modifies this, freeMap, pageMap
      ensures View() == Put(old(View()), page, n)
    {
      freePages := freePages + n;
      ResetRange(freeMap, page, n);
      pageMap[page] := Frun;
      if freeTail == page + n {
        freeTail := page;
      }
      assert pageMap[..] == old(pageMap[..])[page := Frun];
    }

    /** The in-place growth of zend_mm_realloc_heap: succeeds exactly when the pages after the run are free. */
    method TryGrow(page: nat, from: nat, to: nat) returns (ok: bool)
      requires Shape() && page < PAGES && from < to && page + from <= PAGES
      modifies this, freeMap, pageMap
      ensures ok <==> page + to <= PAGES && AllClear(old(View()).bits, page + from, page + to)
      ensures View() == if ok then Grow(old(View()), page, from, to) else old(View())
    {
      if page + to <= PAGES {
        ok := IsFreeRange(freeMap, page + from, to - from);
        if ok {
          freePages := freePages - (to - from);
          SetRange(freeMap, page + from, to - from);
          pageMap[page] := Lrun(to);
          assert pageMap[..] == old(pageMap[..])[page := Lrun(to)];
        }
      } else {
        ok := false;
      }
    }

    /** The in-place truncation of zend_mm_realloc_heap. */
    method Truncate(page: nat, from: nat, to: nat)
      requires Shape() && page < PAGES && to < from && page + from <= PAGES
      modifies this, freeMap, pageMap
      ensures View() == Shrink(old(View()), page, from, to)
    {
      pageMap[page] := Lrun(to);
      freePages := freePages + (from - to);
      ResetRange(freeMap, page + to, from - to);
      assert pageMap[..] == old(pageMap[..])[page := Lrun(to)];
    }

    /** The page-map part of zend_mm_alloc_small_slow. */
    method MarkSmall(page: nat, bin: nat)
      requires Shape() && page < PAGES && bin < BINS && page + BinPages(bin) <= PAGES
      modifies pageMap
      ensures View() == MakeSmall(old(View()), page, bin)
    {
      pageMap[page] := Srun(bin, 0);
      if BinPages(bin) > 1 {
        var i := 1;
        while i < BinPages(bin)
          invariant 1 <= i <= BinPages(bin)
          invariant forall k :: 0 <= k < PAGES ==>
            pageMap[k] == if k == page then Srun(bin, 0)
                          else if page < k < page + i then Nrun(bin, k - page)
                          else old(pageMap[k])
        {
          pageMap[page + i] := Nrun(bin, i);
          i := i + 1;
        }
      }
      assert pageMap[..] == MakeSmall(old(View()), page, bin).info;
    }

    /** zend_mm_alloc_pages on one chunk: the best-fit search, which also brings free_tail up to date. */
    method FindPages(n: nat, ghost owner: seq<int>) returns (page: nat)
      requires Shape() && Tiled(View(), owner) && 1 <= n
      modifies this`freeTail
      ensures var f := FindIn(old(View()), n);
              page == f.page && View() == old(View()).(freeTail := f.tail)
    {
      if freePages < n {
        return 0;
      }
      TiledTailBits(View(), owner);
      RemainingIsChoose(Bits(freeMap[..]), n, freeTail, 0, 0, PAGES);
      page, freeTail := Scan(n, freeTail);
    }

    /** Skip allocated blocks: advance while the word is full, from page i on. Returns at page 512, or at
        the first word that is not full. `bitset` is the index of the next word. */
    method SkipFullWords(i0: nat, bitset0: nat, tmp0: Word, ghost p0: nat, ghost bits: seq<bool>)
      returns (i: nat, bitset: nat, tmp: Word, ghost p: nat)
      requires Shape() && bits == Bits(freeMap[..]) && 1 <= bitset0 <= MAP_LEN && i0 == (bitset0 - 1) * WORD_BITS
      requires Sees(bits, i0, tmp0, p0)
      ensures p0 <= p <= PAGES && NextFree(bits, p) == NextFree(bits, p0)
      ensures i == PAGES ==> p == PAGES
      ensures i != PAGES ==> 1 <= bitset <= MAP_LEN && i == (bitset - 1) * WORD_BITS
      ensures i != PAGES ==> Sees(bits, i, tmp, p) && tmp != AllOnes()
    {
      i, bitset, tmp, p := i0, bitset0, tmp0, p0;
      while tmp == AllOnes()
        invariant 1 <= bitset <= MAP_LEN && i == (bitset - 1) * WORD_BITS && Sees(bits, i, tmp, p)
        invariant p0 <= p && NextFree(bits, p) == NextFree(bits, p0)
        decreases PAGES - i
      {
        SkipAllocated(bits, i, tmp, p);
        i := i + WORD_BITS;
        p := i;
        if i == PAGES {
          return;
        }
        tmp := freeMap[bitset];
        SeesWord(freeMap[..], bitset);
        bitset := bitset + 1;
      }
    }

    /** Skip free blocks from `page`: advance while the word is empty. `toEnd` reports that the free run
        reaches the end of the chunk, which is known as soon as the scan is at or past free_tail. */
    method SkipEmptyWords(i0: nat, bitset0: nat, tmp0: Word, page: nat, tail: nat, ghost bits: seq<bool>)
      returns (i: nat, bitset: nat, tmp: Word, toEnd: bool)
      requires Shape() && bits == Bits(freeMap[..]) && 1 <= bitset0 <= MAP_LEN && i0 == (bitset0 - 1) * WORD_BITS
      requires SeesPast(bits, i0, tmp0, page) && TailBits(bits, tail)
      ensures toEnd ==> FreeEnd(bits, page) == PAGES
      ensures !toEnd ==> 1 <= bitset <= MAP_LEN && i == (bitset - 1) * WORD_BITS
      ensures !toEnd ==> SeesPast(bits, i, tmp, page) && tmp != Zero()
    {
      i, bitset, tmp, toEnd := i0, bitset0, tmp0, false;
      while tmp == Zero()
        invariant 1 <= bitset <= MAP_LEN && i == (bitset - 1) * WORD_BITS && SeesPast(bits, i, tmp, page)
        decreases PAGES - i
      {
        SkipFree(bits, i, tmp, page);
        i := i + WORD_BITS;
        if i >= tail || i == PAGES {
          TailIsFree(bits, tail, page, i);
          toEnd := true;
          return;
        }
        tmp := freeMap[bitset];
        SeesWord(freeMap[..], bitset);
        SeesPastNext(bits, i, tmp, page);
        bitset := bitset + 1;
      }
    }

    /** From position p, find the next free run [page, end); page is 512 when there is none. The end of a
        run that reaches the end of the chunk is not searched for word by word. */
    method NextRun(i0: nat, bitset0: nat, tmp0: Word, tail: nat, ghost p: nat, ghost bits: seq<bool>)
      returns (page: nat, end: nat, i: nat, bitset: nat, tmp: Word)
      requires Shape() && bits == Bits(freeMap[..]) && 1 <= bitset0 <= MAP_LEN && i0 == (bitset0 - 1) * WORD_BITS
      requires Sees(bits, i0, tmp0, p) && TailBits(bits, tail)
      ensures p <= page == NextFree(bits, p) && page <= end <= PAGES
      ensures page < PAGES ==> page < end == FreeEnd(bits, page)
      ensures page < PAGES && end < PAGES ==> 1 <= bitset <= MAP_LEN && i == (bitset - 1) * WORD_BITS && Sees(bits, i, tmp, end)
    {
      ghost var q: nat;
      end := PAGES;
      i, bitset, tmp, q := SkipFullWords(i0, bitset0, tmp0, p, bits);
      if i == PAGES {
        page := PAGES;
        return;
      }
      page, tmp := ToFirstZero(i, tmp, bits, q);
      var toEnd: bool;
      i, bitset, tmp, toEnd := SkipEmptyWords(i, bitset, tmp, page, tail, bits);
      if !toEnd {
        end, tmp := ToFirstOne(i, tmp, bits, page);
      }
    }

    /** The word-by-word scan. Returns the chosen page, or 0, and the new value of free_tail. */
    method Scan(n: nat, tail: nat) returns (page: nat, newTail: nat)
      requires Shape() && TailBits(Bits(freeMap[..]), tail)
      ensures Choice(page, newTail) == Remaining(Bits(freeMap[..]), n, tail, 0, 0, PAGES)
    {
      ghost var bits := Bits(freeMap[..]);
      var best: nat, bestLen: nat := 0, PAGES;
      var tmp := freeMap[0];
      var i: nat, bitset: nat := 0, 1;
      ghost var p: nat := 0;
      SeesWord(freeMap[..], 0);
      ghost var goal := Remaining(bits, n, tail, 0, 0, PAGES);
      while true
        invariant bits == Bits(freeMap[..])
        invariant 1 <= bitset <= MAP_LEN && i == (bitset - 1) * WORD_BITS && Sees(bits, i, tmp, p)
        invariant Remaining(bits, n, tail, p, best, bestLen) == goal
        decreases PAGES - p
      {
        var end: nat;
        page, end, i, bitset, tmp := NextRun(i, bitset, tmp, tail, p, bits);
        RemainingStep(bits, n, tail, p, best, bestLen, page, end);
        if page == PAGES {
          return best, tail;
        }
        var len := end - page;
        if end == PAGES {
          if n <= len < bestLen {
            return page, page + n;
          } else {
            return best, page;
          }
        }
        if len == n {
          return page, tail;
        }
        if n < len < bestLen {
          bestLen := len;
          best := page;
        }
        p := end;
      }
    }
  }

  lemma FirstPageWord(k: nat)
    requires k < WORD_BITS
    ensures Dec(OneBit(FIRST_PAGE))[k] == (k == 0)
  {
    NotBelowBit(FIRST_PAGE);
    assert Not(Dec(OneBit(FIRST_PAGE)))[k] == From(FIRST_PAGE)[k];
  }
}
