// A 2 MB chunk of 512 pages as a value: occupancy bits, page map and the two counters of its header.
module Chunks {
  // A run is recorded in the page map only at its first page (its header). `owner` names, for every
  // page, the first page of the run it belongs to, or -1; it is the witness that the headers tile the
  // allocated pages.

  import opened Bitset
  import opened BestFit
  import opened Bins

  const FIRST_PAGE := 1

  /** One entry of the page map: FRUN, LRUN(pages), SRUN(bin, free counter) or NRUN(bin, offset). */
  datatype PageInfo =
    | Frun
    | Lrun(pages: nat)
    | Srun(bin: nat, counter: nat)
    | Nrun(bin: nat, offset: nat)

  datatype Chunk = Chunk(bits: seq<bool>, info: seq<PageInfo>, freePages: int, freeTail: int, num: int)

  predicate WellSized(c: Chunk) {
    |c.bits| == |c.info| == PAGES
  }

  // ---------- what the allocator does to one chunk ----------

  /** zend_mm_chunk_init: only the first word of the bitset and the first map entry are rewritten. */
  function Init(c: Chunk, num: int): (r: Chunk)
    requires WellSized(c)
    ensures WellSized(r)
  {
    Chunk([true] + seq(63, _ => false) + c.bits[64..], c.info[0 := Lrun(FIRST_PAGE)], PAGES - FIRST_PAGE, FIRST_PAGE, num)
  }

  /** Memory fresh from the operating system reads as zero. */
  function ZeroChunk(): Chunk {
    Chunk(seq(PAGES, _ => false), seq(PAGES, _ => Frun), 0, 0, 0)
  }

  /** The search of one chunk; a chunk with too few free pages is not scanned. */
  function FindIn(c: Chunk, n: nat): Choice
    requires WellSized(c) && 0 <= c.freeTail
  {
    if c.freePages < n then Choice(0, c.freeTail) else Search(c.bits, n, c.freeTail)
  }

  /** Mark n pages from `page` as one large run. */
  function Take(c: Chunk, page: nat, n: nat): (r: Chunk)
    requires WellSized(c) && page < PAGES && page + n <= PAGES
    ensures WellSized(r)
  {
    c.(bits := Fill(c.bits, page, n, true),
       info := c.info[page := Lrun(n)],
       freePages := c.freePages - n,
       freeTail := if page == c.freeTail then page + n else c.freeTail)
  }

  /** Give n pages from `page` back. */
  function Put(c: Chunk, page: nat, n: nat): (r: Chunk)
    requires WellSized(c) && page < PAGES && page + n <= PAGES
    ensures WellSized(r)
  {
    c.(bits := Fill(c.bits, page, n, false),
       info := c.info[page := Frun],
       freePages := c.freePages + n,
       freeTail := if c.freeTail == page + n then page else c.freeTail)
  }

  /** In-place growth of a large run; free_tail stays where it is. */
  function Grow(c: Chunk, page: nat, from: nat, to: nat): (r: Chunk)
    requires WellSized(c) && page < PAGES && from <= to && page + to <= PAGES
    ensures WellSized(r)
  {
    c.(bits := Fill(c.bits, page + from, to - from, true),
       info := c.info[page := Lrun(to)],
       freePages := c.freePages - (to - from))
  }

  /** In-place truncation of a large run. */
  function Shrink(c: Chunk, page: nat, from: nat, to: nat): (r: Chunk)
    requires WellSized(c) && page < PAGES && to <= from && page + from <= PAGES
    ensures WellSized(r)
  {
    c.(bits := Fill(c.bits, page + to, from - to, false),
       info := c.info[page := Lrun(to)],
       freePages := c.freePages + (from - to))
  }

  /** Turn the run at `page` into a run of small blocks. */
  function MakeSmall(c: Chunk, page: nat, bin: nat): (r: Chunk)
    requires WellSized(c) && page < PAGES
    ensures WellSized(r)
  {
    c.(info := seq(PAGES, k requires 0 <= k < PAGES =>
                     if k == page then Srun(bin, 0)
                     else if page < k < page + BinPages(bin) then Nrun(bin, k - page)
                     else c.info[k]))
  }

  /** ZEND_MM_SRUN_EX: the counter field is nine bits wide. */
  function SrunEx(bin: nat, count: nat): PageInfo {
    Srun(bin, count % 512)
  }

  function SetInfo(c: Chunk, page: nat, i: PageInfo): (r: Chunk)
    requires WellSized(c) && page < PAGES
    ensures WellSized(r)
  {
    c.(info := c.info[page := i])
  }

  // ---------- the invariant of a chunk ----------

  predicate Header(i: PageInfo) {
    i.Lrun? || i.Srun?
  }

  function RunPages(i: PageInfo): nat
    requires Header(i)
  {
    match i
    case Lrun(pages) => pages
    case Srun(bin, _) => BinPages(bin)
  }

  /** Number of free pages among the first k. */
  function FreeCount(bits: seq<bool>, k: nat): nat
    requires k <= |bits|
  {
    if k == 0 then 0 else FreeCount(bits, k - 1) + (if bits[k - 1] then 0 else 1)
  }

  /** Each allocated page lies in the run of its owner, and a free page has no owner. */
  ghost predicate PagesOwned(c: Chunk, owner: seq<int>)
    requires WellSized(c) && |owner| == PAGES
  {
    forall k :: 0 <= k < PAGES ==>
      && (c.bits[k] <==> 0 <= owner[k])
      && -1 <= owner[k] <= k
      && (0 <= owner[k] ==> owner[owner[k]] == owner[k])
  }

  /** The headers are exactly the first pages of runs. */
  ghost predicate HeadersTile(c: Chunk, owner: seq<int>)
    requires WellSized(c) && |owner| == PAGES
  {
    forall p :: 0 <= p < PAGES ==>
      && (Header(c.info[p]) <==> owner[p] == p)
      && (owner[p] == p ==> 1 <= RunPages(c.info[p]) && p + RunPages(c.info[p]) <= PAGES)
  }

  /** A run covers its pages and no others. */
  ghost predicate RunsExact(c: Chunk, owner: seq<int>)
    requires WellSized(c) && |owner| == PAGES
  {
    forall p, k :: 0 <= p <= k < PAGES && owner[p] == p && Header(c.info[p]) ==> (owner[k] == p <==> k < p + RunPages(c.info[p]))
  }

  /** A small run has a valid bin and its continuation pages lead back to its header. */
  ghost predicate SmallRunsMarked(c: Chunk, owner: seq<int>)
    requires WellSized(c) && |owner| == PAGES
  {
    && (forall p :: 0 <= p < PAGES && c.info[p].Srun? ==> c.info[p].bin < BINS)
    && (forall k :: 0 <= k < PAGES && 0 <= owner[k] < k && c.info[owner[k]].Srun?
          ==> c.info[k] == Nrun(c.info[owner[k]].bin, k - owner[k]))
  }

  /** No run starts at or past free_tail. This, and not "all pages past free_tail are free", is what every
      operation keeps: growing a run in place moves its end past free_tail. */
  ghost predicate TailOk(c: Chunk, owner: seq<int>)
    requires WellSized(c) && |owner| == PAGES
  {
    && 1 <= c.freeTail <= PAGES
    && forall p :: 0 <= p < PAGES && owner[p] == p ==> p < c.freeTail
  }

  ghost predicate Tiled(c: Chunk, owner: seq<int>) {
    && WellSized(c) && |owner| == PAGES
    && PagesOwned(c, owner)
    && HeadersTile(c, owner)
    && RunsExact(c, owner)
    && SmallRunsMarked(c, owner)
    && TailOk(c, owner)
    && c.info[0] == Lrun(FIRST_PAGE)
    && c.freePages == FreeCount(c.bits, PAGES)
  }

  /** Owners after the run at `page` has been given extent n: n == 0 frees it. */
  function Own(owner: seq<int>, page: nat, n: nat): (r: seq<int>)
    requires |owner| == PAGES && page + n <= PAGES
  {
    seq(PAGES, k requires 0 <= k < PAGES =>
          if page <= k < page + n then page else if owner[k] == page then -1 else owner[k])
  }

  // ---------- counting ----------

  lemma {:induction false} FreeCountSame(a: seq<bool>, b: seq<bool>, k: nat)
    requires k <= |a| && k <= |b|
    requires forall j :: 0 <= j < k ==> a[j] == b[j]
    ensures FreeCount(a, k) == FreeCount(b, k)
  {
    if k > 0 {
      FreeCountSame(a, b, k - 1);
    }
  }

  lemma {:induction false} FreeCountAdds(a: seq<bool>, j: nat, k: nat)
    requires j <= k <= |a|
    ensures (forall i :: j <= i < k ==> a[i]) ==> FreeCount(a, k) == FreeCount(a, j)
    ensures (forall i :: j <= i < k ==> !a[i]) ==> FreeCount(a, k) == FreeCount(a, j) + (k - j)
    ensures FreeCount(a, j) <= FreeCount(a, k) <= FreeCount(a, j) + (k - j)
    decreases k - j
  {
    if j < k {
      FreeCountAdds(a, j, k - 1);
    }
  }

  lemma {:induction false} FreeCountShift(a: seq<bool>, b: seq<bool>, j: nat, k: nat)
    requires j <= k <= |a| && k <= |b|
    requires forall i :: j <= i < k ==> a[i] == b[i]
    ensures FreeCount(a, k) - FreeCount(a, j) == FreeCount(b, k) - FreeCount(b, j)
    decreases k - j
  {
    if j < k {
      FreeCountShift(a, b, j, k - 1);
    }
  }

  /** Filling a range that had the opposite value changes the count by its length. */
  lemma FillCount(bits: seq<bool>, start: nat, len: nat, to: bool)
    requires |bits| == PAGES && start + len <= PAGES
    requires forall k :: start <= k < start + len ==> bits[k] != to
    ensures FreeCount(Fill(bits, start, len, to), PAGES) == FreeCount(bits, PAGES) + (if to then 0 - len else len)
  {
    var r := Fill(bits, start, len, to);
    FreeCountSame(bits, r, start);
    FreeCountAdds(bits, start, start + len);
    FreeCountAdds(r, start, start + len);
    FreeCountShift(bits, r, start + len, PAGES);
  }

  /** The free-page counter never hides a fitting run: a chunk with fewer free pages has no such run. */
  lemma FewPagesNoRun(c: Chunk, owner: seq<int>, n: nat)
    requires Tiled(c, owner) && c.freePages < n
    ensures forall s, e :: FreeRun(c.bits, s, e) ==> e - s < n
  {
    forall s, e | FreeRun(c.bits, s, e)
      ensures e - s < n
    {
      FreeCountAdds(c.bits, 0, s);
      FreeCountAdds(c.bits, s, e);
      FreeCountAdds(c.bits, e, PAGES);
    }
  }

  // ---------- every operation keeps the invariant ----------

  /** The only allocated page of a fresh chunk is its header page. */
  function HeaderOnly(): seq<int> {
    seq(PAGES, k => if k == 0 then 0 else -1)
  }

  /** Rewriting one word of the bitset is enough, because a released chunk has no other bit set. */
  lemma InitBits(c: Chunk, num: int)
    requires WellSized(c) && AllClear(c.bits, FIRST_PAGE, PAGES)
    ensures forall k :: 0 <= k < PAGES ==> (Init(c, num).bits[k] <==> k == 0)
    ensures FreeCount(Init(c, num).bits, PAGES) == PAGES - FIRST_PAGE
  {
    var bits := Init(c, num).bits;
    FreeCountAdds(bits, 0, 1);
    FreeCountAdds(bits, 1, PAGES);
  }

  lemma InitTiled(c: Chunk, num: int)
    requires WellSized(c) && AllClear(c.bits, FIRST_PAGE, PAGES)
    requires forall k :: 1 <= k < PAGES ==> !Header(c.info[k])
    ensures Tiled(Init(c, num), HeaderOnly())
  {
    InitBits(c, num);
  }

  /** r is c with the run at `page` changed from n0 pages (0: none) to n1 pages (0: none). Taking, putting
      back, growing and shrinking a run are all of this shape. */
  ghost predicate Resized(c: Chunk, owner: seq<int>, r: Chunk, page: nat, n0: nat, n1: nat) {
    && Tiled(c, owner) && WellSized(r)
    && 1 <= page < PAGES && page + n0 <= PAGES && page + n1 <= PAGES && n0 != n1
    && (if n0 == 0 then owner[page] == -1 else owner[page] == page && RunPages(c.info[page]) == n0)
    && AllClear(c.bits, page + n0, if n0 < n1 then page + n1 else page + n0)
    && (forall k :: 0 <= k < PAGES ==>
          r.bits[k] == if page <= k < page + n1 then true else if page <= k < page + n0 then false else c.bits[k])
    && r.info == c.info[page := if n1 == 0 then Frun else Lrun(n1)]
    && r.freePages == c.freePages + n0 - n1
  }

  lemma ResizedOwned(c: Chunk, owner: seq<int>, r: Chunk, page: nat, n0: nat, n1: nat)
    requires Resized(c, owner, r, page, n0, n1)
    ensures PagesOwned(r, Own(owner, page, n1))
  {
    var o := Own(owner, page, n1);
    assert forall k :: page <= k < page + n0 ==> owner[k] == page;
    assert forall k :: page + n0 <= k < page + n1 ==> owner[k] == -1;
    forall k | 0 <= k < PAGES
      ensures r.bits[k] <==> 0 <= o[k]
      ensures -1 <= o[k] <= k
      ensures 0 <= o[k] ==> o[o[k]] == o[k]
    {
      assert n0 > 0 && owner[k] == page ==> k < page + n0;
    }
  }

  lemma ResizedTile(c: Chunk, owner: seq<int>, r: Chunk, page: nat, n0: nat, n1: nat)
    requires Resized(c, owner, r, page, n0, n1)
    ensures HeadersTile(r, Own(owner, page, n1))
  {
    var o := Own(owner, page, n1);
    assert forall k :: page <= k < page + n0 ==> owner[k] == page;
    assert forall k :: page + n0 <= k < page + n1 ==> owner[k] == -1;
  }

  lemma ResizedExact(c: Chunk, owner: seq<int>, r: Chunk, page: nat, n0: nat, n1: nat)
    requires Resized(c, owner, r, page, n0, n1)
    ensures RunsExact(r, Own(owner, page, n1))
  {
    var o := Own(owner, page, n1);
    assert forall k :: page <= k < page + n0 ==> owner[k] == page;
    assert forall k :: page + n0 <= k < page + n1 ==> owner[k] == -1;
    forall p, k | 0 <= p <= k < PAGES && o[p] == p && Header(r.info[p])
      ensures o[k] == p <==> k < p + RunPages(r.info[p])
    {
      if p != page {
        assert owner[p] == p && r.info[p] == c.info[p];
        assert owner[k] == p <==> k < p + RunPages(c.info[p]);
      }
    }
  }

  lemma ResizedMarked(c: Chunk, owner: seq<int>, r: Chunk, page: nat, n0: nat, n1: nat)
    requires Resized(c, owner, r, page, n0, n1)
    ensures SmallRunsMarked(r, Own(owner, page, n1))
  {
    var o := Own(owner, page, n1);
    forall k | 0 <= k < PAGES && 0 <= o[k] < k && r.info[o[k]].Srun?
      ensures r.info[k] == Nrun(r.info[o[k]].bin, k - o[k])
    {
      assert owner[k] == o[k] && k != page;
    }
  }

  lemma ResizedCount(c: Chunk, owner: seq<int>, r: Chunk, page: nat, n0: nat, n1: nat)
    requires Resized(c, owner, r, page, n0, n1)
    ensures r.freePages == FreeCount(r.bits, PAGES)
  {
    assert forall k :: page <= k < page + n0 ==> owner[k] == page;
    if n0 < n1 {
      FillCount(c.bits, page + n0, n1 - n0, true);
      assert r.bits == Fill(c.bits, page + n0, n1 - n0, true);
    } else {
      FillCount(c.bits, page + n1, n0 - n1, false);
      assert r.bits == Fill(c.bits, page + n1, n0 - n1, false);
    }
  }

  lemma ResizedTiled(c: Chunk, owner: seq<int>, r: Chunk, page: nat, n0: nat, n1: nat)
    requires Resized(c, owner, r, page, n0, n1)
    requires TailOk(r, Own(owner, page, n1))
    ensures Tiled(r, Own(owner, page, n1))
  {
    ResizedOwned(c, owner, r, page, n0, n1);
    ResizedTile(c, owner, r, page, n0, n1);
    ResizedExact(c, owner, r, page, n0, n1);
    ResizedMarked(c, owner, r, page, n0, n1);
    ResizedCount(c, owner, r, page, n0, n1);
  }

  lemma TakeTiled(c: Chunk, owner: seq<int>, page: nat, n: nat)
    requires Tiled(c, owner) && 1 <= page && 1 <= n && page + n <= PAGES
    requires AllClear(c.bits, page, page + n)
    requires page <= c.freeTail
    ensures Resized(c, owner, Take(c, page, n), page, 0, n)
    ensures Tiled(Take(c, page, n), Own(owner, page, n))
  {
    assert c.bits[page] <==> 0 <= owner[page];
    ResizedTiled(c, owner, Take(c, page, n), page, 0, n);
  }

  lemma PutTiled(c: Chunk, owner: seq<int>, page: nat)
    requires Tiled(c, owner) && 1 <= page < PAGES && owner[page] == page
    ensures var n := RunPages(c.info[page]);
            Resized(c, owner, Put(c, page, n), page, n, 0) && Tiled(Put(c, page, n), Own(owner, page, 0))
  {
    var n := RunPages(c.info[page]);
    assert forall k :: page <= k < page + n ==> owner[k] == page;
    ResizedTiled(c, owner, Put(c, page, n), page, n, 0);
  }

  lemma GrowTiled(c: Chunk, owner: seq<int>, page: nat, to: nat)
    requires Tiled(c, owner) && 1 <= page < PAGES && c.info[page].Lrun?
    requires c.info[page].pages < to && page + to <= PAGES
    requires AllClear(c.bits, page + c.info[page].pages, page + to)
    ensures var from := c.info[page].pages;
            Resized(c, owner, Grow(c, page, from, to), page, from, to) && Tiled(Grow(c, page, from, to), Own(owner, page, to))
  {
    var from := c.info[page].pages;
    ResizedTiled(c, owner, Grow(c, page, from, to), page, from, to);
  }

  lemma ShrinkTiled(c: Chunk, owner: seq<int>, page: nat, to: nat)
    requires Tiled(c, owner) && 1 <= page < PAGES && c.info[page].Lrun?
    requires 1 <= to < c.info[page].pages
    ensures var from := c.info[page].pages;
            Resized(c, owner, Shrink(c, page, from, to), page, from, to) && Tiled(Shrink(c, page, from, to), Own(owner, page, to))
  {
    var from := c.info[page].pages;
    assert forall k :: page <= k < page + from ==> owner[k] == page;
    ResizedTiled(c, owner, Shrink(c, page, from, to), page, from, to);
  }

  lemma MakeSmallTiled(c: Chunk, owner: seq<int>, page: nat, bin: nat)
    requires Tiled(c, owner) && 1 <= page < PAGES && bin < BINS && c.info[page] == Lrun(BinPages(bin))
    ensures Tiled(MakeSmall(c, page, bin), owner)
  {
    BinFacts(bin);
  }

  lemma SetCounterTiled(c: Chunk, owner: seq<int>, page: nat, count: nat)
    requires Tiled(c, owner) && page < PAGES && c.info[page].Srun?
    ensures Tiled(SetInfo(c, page, SrunEx(c.info[page].bin, count)), owner)
  {
  }

  // ---------- the search keeps the invariant and finds room ----------

  /** What TailOk means for the bits alone: an allocated page past free_tail belongs to a run that reaches
      back over free_tail, so everything between is allocated too. */
  predicate TailBits(bits: seq<bool>, tail: int) {
    && 1 <= tail <= |bits|
    && forall k, j :: tail - 1 <= j <= k < |bits| && tail <= k && bits[k] ==> bits[j]
  }

  lemma TiledTailBits(c: Chunk, owner: seq<int>)
    requires Tiled(c, owner)
    ensures TailBits(c.bits, c.freeTail)
  {
    forall k, j | c.freeTail - 1 <= j <= k < PAGES && c.freeTail <= k && c.bits[k]
      ensures c.bits[j]
    {
      var p := owner[k];
      assert 0 <= owner[k] && owner[p] == p && p < c.freeTail;
      assert owner[j] == p;
    }
  }

  /** Where a choice may put free_tail, and where it may put the run. */
  predicate GoodChoice(bits: seq<bool>, n: nat, tail: nat, c: Choice)
    requires |bits| == PAGES
  {
    && 1 <= c.tail <= PAGES
    && (c.tail == tail || AllClear(bits, c.tail, PAGES))
    && (c.page != 0 ==> c.page + n <= PAGES && AllClear(bits, c.page, c.page + n) && c.page <= c.tail)
  }

  lemma {:induction false} ChooseIsGood(bits: seq<bool>, n: nat, tail: nat, i: nat, best: nat, bestLen: nat)
    requires |bits| == PAGES && bits[0] && 1 <= n && i <= PAGES
    requires TailBits(bits, tail)
    requires best != 0 ==> best + n <= i && best <= tail && AllClear(bits, best, best + n)
    ensures GoodChoice(bits, n, tail, Choose(bits, n, tail, i, best, bestLen))
    decreases PAGES - i
  {
    var s := NextFree(bits, i);
    if s < PAGES {
      var e := FreeEnd(bits, s);
      if e < PAGES {
        assert tail <= e ==> bits[e - 1];
        if e - s != n {
          if n < e - s < bestLen {
            ChooseIsGood(bits, n, tail, e, s, e - s);
          } else {
            ChooseIsGood(bits, n, tail, e, best, bestLen);
          }
        }
      }
    }
  }

  /** The search leaves a well-formed chunk, and the run it found can be taken. */
  lemma FindKeeps(c: Chunk, owner: seq<int>, n: nat)
    requires Tiled(c, owner) && 1 <= n
    ensures var f := FindIn(c, n);
            && Tiled(c.(freeTail := f.tail), owner)
            && (f.page != 0 ==> f.page + n <= PAGES && AllClear(c.bits, f.page, f.page + n) && f.page <= f.tail)
  {
    TiledTailBits(c, owner);
    assert c.bits[0] <==> 0 <= owner[0];
    if n <= c.freePages {
      ChooseIsGood(c.bits, n, c.freeTail, 0, 0, PAGES);
    }
    var f := FindIn(c, n);
    forall p | 0 <= p < PAGES && owner[p] == p
      ensures p < f.tail
    {
      assert c.bits[p];
    }
  }

  /** Search and take, as one step of a chunk. */
  lemma AllocTiled(c: Chunk, owner: seq<int>, n: nat)
    requires Tiled(c, owner) && 1 <= n && FindIn(c, n).page != 0
    ensures var f := FindIn(c, n);
            && f.page + n <= PAGES
            && AllClear(c.bits, f.page, f.page + n)
            && Tiled(Take(c.(freeTail := f.tail), f.page, n), Own(owner, f.page, n))
  {
    FindKeeps(c, owner, n);
    var f := FindIn(c, n);
    TakeTiled(c.(freeTail := f.tail), owner, f.page, n);
  }

  /** In a well-formed chunk the search is best fit: the leftmost of the tightest free runs, or a failure
      exactly when no free run is long enough. */
  lemma FindIsBestFit(c: Chunk, owner: seq<int>, n: nat)
    requires Tiled(c, owner) && 1 <= n <= PAGES
    ensures FindIn(c, n).page == 0 <==> forall s, e :: FreeRun(c.bits, s, e) ==> e - s < n
    ensures FindIn(c, n).page != 0 ==> exists e :: Tightest(c.bits, n, FindIn(c, n).page, e)
  {
    assert c.bits[0] <==> 0 <= owner[0];
    if c.freePages < n {
      FewPagesNoRun(c, owner, n);
    } else {
      SearchIsBestFit(c.bits, n, c.freeTail);
    }
  }
}
