// What the page search of zend_mm_alloc_pages computes, run by run, and why it is best fit.
module BestFit {
  // `Choose` walks the maximal free runs of a chunk in address order, exactly as the word-level scan
  // does (see ChunkPages.Scan), and keeps the bookkeeping value `free_tail` the way the scan does.

  import opened Bitset

  /** First free page at or after i, or 512. */
  function NextFree(bits: seq<bool>, i: nat): (s: nat)
    requires |bits| == PAGES && i <= PAGES
    ensures i <= s <= PAGES
    ensures forall k :: i <= k < s ==> bits[k]
    ensures s < PAGES ==> !bits[s]
    decreases PAGES - i
  {
    if i < PAGES && bits[i] then NextFree(bits, i + 1) else i
  }

  /** First allocated page at or after s, or 512. */
  function FreeEnd(bits: seq<bool>, s: nat): (e: nat)
    requires |bits| == PAGES && s <= PAGES
    ensures s <= e <= PAGES
    ensures AllClear(bits, s, e)
    ensures e < PAGES ==> bits[e]
    decreases PAGES - s
  {
    if s < PAGES && !bits[s] then FreeEnd(bits, s + 1) else s
  }

  /** The outcome of a search: the chosen first page (0 when none fits; page 0 is never free), and
      the value left in free_tail. */
  datatype Choice = Choice(page: nat, tail: nat)

  function Choose(bits: seq<bool>, n: nat, tail: nat, i: nat, best: nat, bestLen: nat): Choice
    requires |bits| == PAGES && i <= PAGES
    decreases PAGES - i
  {
    var s := NextFree(bits, i);
    if s == PAGES then Choice(best, tail)
    else
      var e := FreeEnd(bits, s);
      var len := e - s;
      if e == PAGES then
        if n <= len < bestLen then Choice(s, s + n) else Choice(best, s)
      else if len == n then Choice(s, tail)
      else if n < len < bestLen then Choose(bits, n, tail, e, s, len)
      else Choose(bits, n, tail, e, best, bestLen)
  }

  /** The search of one chunk: best fit from the start, 512 standing for "nothing found yet". */
  function Search(bits: seq<bool>, n: nat, tail: nat): Choice
    requires |bits| == PAGES
  {
    Choose(bits, n, tail, 0, 0, PAGES)
  }

  /** [s, e) is a maximal run of free pages. */
  predicate FreeRun(bits: seq<bool>, s: int, e: int)
    requires |bits| == PAGES
  {
    && 0 <= s < e <= PAGES
    && AllClear(bits, s, e)
    && (0 < s ==> bits[s - 1])
    && (e < PAGES ==> bits[e])
  }

  /** [s, e) is at least n pages long, and no other free run fits more tightly, or as tightly and earlier. */
  ghost predicate Tightest(bits: seq<bool>, n: nat, s: nat, e: nat)
    requires |bits| == PAGES
  {
    && FreeRun(bits, s, e)
    && n <= e - s
    && forall s', e' :: FreeRun(bits, s', e') && n <= e' - s' ==> e - s < e' - s' || (e - s == e' - s' && s <= s')
  }

  /** Skipping allocated pages does not change where the next free run starts. */
  lemma {:induction false} NextFreeSkips(bits: seq<bool>, i: nat, j: nat)
    requires |bits| == PAGES && i <= j <= PAGES
    requires forall k :: i <= k < j ==> bits[k]
    ensures NextFree(bits, i) == NextFree(bits, j)
    decreases j - i
  {
    if i < j {
      NextFreeSkips(bits, i + 1, j);
    }
  }

  // ---------- the search, one free run at a time ----------

  /** `Choose`, behind k trivial steps, so that a scan can carry "what remains to be chosen" along
      without the definition of `Choose` being expanded at every mention. */
  ghost function ChooseBehind(bits: seq<bool>, n: nat, tail: nat, i: nat, best: nat, bestLen: nat, k: nat): Choice
    requires |bits| == PAGES && i <= PAGES
    decreases k
  {
    if k == 0 then Choose(bits, n, tail, i, best, bestLen) else ChooseBehind(bits, n, tail, i, best, bestLen, k - 1)
  }

  ghost function Remaining(bits: seq<bool>, n: nat, tail: nat, i: nat, best: nat, bestLen: nat): Choice
    requires |bits| == PAGES && i <= PAGES
  {
    ChooseBehind(bits, n, tail, i, best, bestLen, i + 3)
  }

  lemma {:induction false} Behind(bits: seq<bool>, n: nat, tail: nat, i: nat, best: nat, bestLen: nat, k: nat)
    requires |bits| == PAGES && i <= PAGES
    ensures ChooseBehind(bits, n, tail, i, best, bestLen, k) == Choose(bits, n, tail, i, best, bestLen)
    decreases k
  {
    if k > 0 {
      Behind(bits, n, tail, i, best, bestLen, k - 1);
    }
  }

  lemma RemainingIsChoose(bits: seq<bool>, n: nat, tail: nat, i: nat, best: nat, bestLen: nat)
    requires |bits| == PAGES && i <= PAGES
    ensures Remaining(bits, n, tail, i, best, bestLen) == Choose(bits, n, tail, i, best, bestLen)
  {
    Behind(bits, n, tail, i, best, bestLen, i + 3);
  }

  /** What remains at position i, by the next free run [s, e). */
  lemma RemainingStep(bits: seq<bool>, n: nat, tail: nat, i: nat, best: nat, bestLen: nat, s: nat, e: nat)
    requires |bits| == PAGES && i <= s <= e <= PAGES
    requires NextFree(bits, i) == s && (s < PAGES ==> FreeEnd(bits, s) == e)
    ensures Remaining(bits, n, tail, i, best, bestLen)
         == if s == PAGES then Choice(best, tail)
            else if e == PAGES then if n <= e - s < bestLen then Choice(s, s + n) else Choice(best, s)
            else if e - s == n then Choice(s, tail)
            else if n < e - s < bestLen then Remaining(bits, n, tail, e, s, e - s)
            else Remaining(bits, n, tail, e, best, bestLen)
  {
    RemainingIsChoose(bits, n, tail, i, best, bestLen);
    RemainingIsChoose(bits, n, tail, e, s, e - s);
    RemainingIsChoose(bits, n, tail, e, best, bestLen);
  }

  /** A free run is found from any position of it; the run end is the first allocated page. */
  lemma {:induction false} FreeEndIs(bits: seq<bool>, s: nat, e: nat)
    requires |bits| == PAGES && s <= e <= PAGES
    requires AllClear(bits, s, e) && (e < PAGES ==> bits[e])
    ensures FreeEnd(bits, s) == e
    decreases e - s
  {
    if s < e {
      FreeEndIs(bits, s + 1, e);
    }
  }

  /** Best among the free runs that end at or before i: nothing (best 0), or the tightest of them, which
      is then longer than n because a run of exactly n pages stops the search. */
  ghost predicate BestSoFar(bits: seq<bool>, n: nat, i: nat, best: nat, bestLen: nat)
    requires |bits| == PAGES && i <= PAGES
  {
    && n <= bestLen
    && (best == 0 ==> bestLen == PAGES)
    && (best != 0 ==> n < bestLen < PAGES && best + bestLen <= i && FreeRun(bits, best, best + bestLen))
    && (forall s, e :: FreeRun(bits, s, e) && e <= i && n <= e - s ==> bestLen < e - s || (bestLen == e - s && 0 < best <= s))
  }

  /** Two maximal free runs are equal or separated by an allocated page. */
  lemma FreeRunsApart(bits: seq<bool>, s: int, e: int, s': int, e': int)
    requires |bits| == PAGES
    requires FreeRun(bits, s, e) && FreeRun(bits, s', e')
    ensures (s == s' && e == e') || e < s' || e' < s
  {
  }

  /** From a run boundary i, the next free run is [NextFree, FreeEnd) and all later ones start after it. */
  lemma NextRun(bits: seq<bool>, i: nat)
    requires |bits| == PAGES && bits[0] && i <= PAGES
    requires i == 0 || bits[i - 1] || (i < PAGES && bits[i])
    ensures var s := NextFree(bits, i);
            var e := FreeEnd(bits, s);
            && (s < PAGES ==> FreeRun(bits, s, e) && 0 < s)
            && forall s', e' :: FreeRun(bits, s', e') && i < e' ==> s < PAGES && ((s' == s && e' == e) || e < s')
  {
    var s := NextFree(bits, i);
    var e := FreeEnd(bits, s);
    forall s', e' | FreeRun(bits, s', e') && i < e'
      ensures s < PAGES && ((s' == s && e' == e) || e < s')
    {
      assert !bits[s'] && !bits[e' - 1];
      assert i <= s';
      FreeRunsApart(bits, s, e, s', e');
    }
  }

  /** [s, e) is the only free run that ends after i and at or before e. */
  ghost predicate NextIs(bits: seq<bool>, i: nat, s: nat, e: nat)
    requires |bits| == PAGES
  {
    && 0 < s && i <= s && FreeRun(bits, s, e)
    && forall s', e' :: FreeRun(bits, s', e') && i < e' ==> (s' == s && e' == e) || e < s'
  }

  /** One more run seen: the better of it and the best before is the best now. */
  lemma BestNow(bits: seq<bool>, n: nat, i: nat, best: nat, bestLen: nat, s: nat, e: nat)
    requires |bits| == PAGES && 1 <= n && i <= PAGES
    requires BestSoFar(bits, n, i, best, bestLen) && NextIs(bits, i, s, e) && e - s != n
    ensures n < e - s < bestLen ==> BestSoFar(bits, n, e, s, e - s)
    ensures !(n < e - s < bestLen) ==> BestSoFar(bits, n, e, best, bestLen)
  {
  }

  lemma BestIsTightest(bits: seq<bool>, n: nat, best: nat, bestLen: nat)
    requires |bits| == PAGES && best != 0
    requires BestSoFar(bits, n, PAGES, best, bestLen)
    ensures Tightest(bits, n, best, best + bestLen)
  {
  }

  lemma {:induction false} ChooseIsTightest(bits: seq<bool>, n: nat, tail: nat, i: nat, best: nat, bestLen: nat)
    requires |bits| == PAGES && bits[0] && 1 <= n <= PAGES && i <= PAGES
    requires i == 0 || bits[i - 1] || (i < PAGES && bits[i])
    requires BestSoFar(bits, n, i, best, bestLen)
    ensures var c := Choose(bits, n, tail, i, best, bestLen);
            if c.page == 0 then forall s, e :: FreeRun(bits, s, e) ==> e - s < n
            else exists e :: Tightest(bits, n, c.page, e)
    decreases PAGES - i
  {
    var s := NextFree(bits, i);
    NextRun(bits, i);
    if s == PAGES {
      assert BestSoFar(bits, n, PAGES, best, bestLen);
      if best != 0 {
        BestIsTightest(bits, n, best, bestLen);
      }
    } else {
      var e := FreeEnd(bits, s);
      assert NextIs(bits, i, s, e);
      if e - s == n {
        assert Tightest(bits, n, s, e);
      } else {
        BestNow(bits, n, i, best, bestLen, s, e);
        var better := n < e - s < bestLen;
        if e < PAGES {
          ChooseIsTightest(bits, n, tail, e, if better then s else best, if better then e - s else bestLen);
        } else if better {
          BestIsTightest(bits, n, s, e - s);
        } else if best != 0 {
          BestIsTightest(bits, n, best, bestLen);
        }
      }
    }
  }

  /** The search finds the tightest fit, leftmost among equals, and fails exactly when nothing fits. */
  lemma SearchIsBestFit(bits: seq<bool>, n: nat, tail: nat)
    requires |bits| == PAGES && bits[0] && 1 <= n <= PAGES
    ensures Search(bits, n, tail).page == 0 <==> forall s, e :: FreeRun(bits, s, e) ==> e - s < n
    ensures Search(bits, n, tail).page != 0 ==> exists e :: Tightest(bits, n, Search(bits, n, tail).page, e)
  {
    ChooseIsTightest(bits, n, tail, 0, 0, PAGES);
  }
}
