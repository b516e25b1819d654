/** heapsort_r: building the heap and extracting from it share one loop; positions 1 to n are sorted in place. */
module Heapsort {
  predicate Sorted(s: seq<real>, lo: nat, hi: nat) {
    hi <= |s| && forall j, k :: lo <= j < k < hi ==> s[j] <= s[k]
  }

  /** Same elements, the ones outside of lo..hi in their places. */
  ghost predicate Rearranged(s: seq<real>, t: seq<real>, lo: nat, hi: nat) {
    && lo <= hi <= |s| == |t|
    && (forall k :: 0 <= k < |s| && !(lo <= k < hi) ==> s[k] == t[k])
    && multiset(s) == multiset(t)
  }

  /** Each position k whose parent is at least l, up to ir, holds no more than its parent at k / 2. */
  predicate Heap(s: seq<real>, l: nat, ir: nat) {
    1 <= l && ir < |s| && forall k :: 2 * l <= k <= ir ==> s[k] <= s[k / 2]
  }

  function Swap(s: seq<real>, i: nat, j: nat): seq<real>
    requires i < |s| && j < |s|
  {
    s[i := s[j]][j := s[i]]
  }

  /** Swapping two positions in lo..hi rearranges it. */
  lemma SwapRearranges(s: seq<real>, i: nat, j: nat, lo: nat, hi: nat)
    requires lo <= i < hi <= |s| && lo <= j < hi
    ensures Rearranged(s, Swap(s, i, j), lo, hi)
  {
    if i != j {
      var t := s[i := s[j]];
      assert multiset(t) == multiset(s) - multiset{s[i]} + multiset{s[j]};
      assert multiset(Swap(s, i, j)) == multiset(t) - multiset{t[j]} + multiset{s[i]};
    } else {
      assert Swap(s, i, j) == s;
    }
  }

  /** What lo..hi holds after a rearrangement, it held before. */
  lemma RearrangedFrom(s: seq<real>, t: seq<real>, lo: nat, hi: nat, k: nat) returns (j: nat)
    requires Rearranged(s, t, lo, hi) && lo <= k < hi
    ensures lo <= j < hi && s[j] == t[k]
  {
    Parts(s, lo, hi);
    Parts(t, lo, hi);
    assert s[..lo] == t[..lo] && s[hi..] == t[hi..];
    Cancel(multiset(s[..lo]), multiset(s[lo..hi]), multiset(t[lo..hi]), multiset(s[hi..]));
    assert t[lo..hi][k - lo] in multiset(t[lo..hi]);
    assert t[k] in s[lo..hi];
    var i :| 0 <= i < |s[lo..hi]| && s[lo..hi][i] == t[k];
    j := lo + i;
  }

  lemma Parts(s: seq<real>, lo: nat, hi: nat)
    requires lo <= hi <= |s|
    ensures multiset(s) == multiset(s[..lo]) + multiset(s[lo..hi]) + multiset(s[hi..])
  {
    assert s == s[..lo] + s[lo..hi] + s[hi..];
  }

  lemma Cancel(x: multiset<real>, a: multiset<real>, b: multiset<real>, y: multiset<real>)
    requires x + a + y == x + b + y
    ensures a == b
  {
    assert a == (x + a + y) - x - y;
    assert b == (x + b + y) - x - y;
  }

  /** The root holds the largest element. */
  lemma {:induction false} RootLargest(s: seq<real>, ir: nat, k: nat)
    requires Heap(s, 1, ir) && 1 <= k <= ir
    ensures s[k] <= s[1]
    decreases k
  {
    if k > 1 {
      RootLargest(s, ir, k / 2);
    }
  }

  // ---------- sifting down ----------

  /** The children of position i, up to ir, hold no more than x. */
  predicate Children(s: seq<real>, ir: nat, i: nat, x: real) {
    && ir < |s|
    && (2 * i <= ir ==> s[2 * i] <= x)
    && (2 * i + 1 <= ir ==> s[2 * i + 1] <= x)
  }

  /** A heap but for the value at i, which may be less than its children; its parent is not less than those. */
  predicate AllBut(s: seq<real>, l: nat, ir: nat, i: nat) {
    && 1 <= l <= i <= ir < |s|
    && (forall k :: 2 * l <= k <= ir && k / 2 != i ==> s[k] <= s[k / 2])
    && (l <= i / 2 ==> Children(s, ir, i, s[i / 2]))
  }

  lemma SiftStep(s: seq<real>, l: nat, ir: nat, i: nat, j: nat)
    requires AllBut(s, l, ir, i) && j <= ir && j / 2 == i && s[i] < s[j] && Children(s, ir, i, s[j])
    ensures AllBut(Swap(s, i, j), l, ir, j)
  {
    var t := Swap(s, i, j);
    forall k | 2 * l <= k <= ir && k / 2 != j ensures t[k] <= t[k / 2] {
      assert k / 2 == i ==> k == 2 * i || k == 2 * i + 1;
    }
    assert (2 * j) / 2 == j && (2 * j + 1) / 2 == j && j != i;
    assert 2 * j <= ir ==> s[2 * j] <= s[j];
    assert 2 * j + 1 <= ir ==> s[2 * j + 1] <= s[j];
  }

  /** `s` with the value in hand at position i: what the loop keeps. */
  ghost predicate SiftingNow(was: seq<real>, s: seq<real>, l: nat, ir: nat, i: nat) {
    AllBut(s, l, ir, i) && Rearranged(was, s, l, ir + 1)
  }

  ghost predicate SiftingBehind(was: seq<real>, s: seq<real>, l: nat, ir: nat, i: nat, k: nat)
    decreases k
  {
    if k == 0 then SiftingNow(was, s, l, ir, i) else SiftingBehind(was, s, l, ir, i, k - 1)
  }

  /** SiftingNow, kept closed in the loop. */
  ghost predicate Sifting(was: seq<real>, s: seq<real>, l: nat, ir: nat, i: nat) {
    SiftingBehind(was, s, l, ir, i, i + 3)
  }

  lemma {:induction false} SiftingBehindIs(was: seq<real>, s: seq<real>, l: nat, ir: nat, i: nat, k: nat)
    ensures SiftingBehind(was, s, l, ir, i, k) <==> SiftingNow(was, s, l, ir, i)
    decreases k
  {
    if k > 0 {
      SiftingBehindIs(was, s, l, ir, i, k - 1);
    }
  }

  lemma SiftingIs(was: seq<real>, s: seq<real>, l: nat, ir: nat, i: nat)
    ensures Sifting(was, s, l, ir, i) <==> SiftingNow(was, s, l, ir, i)
  {
    SiftingBehindIs(was, s, l, ir, i, i + 3);
  }

  lemma SiftStarts(was: seq<real>, l: nat, ir: nat)
    requires 1 <= l <= ir < |was| && Heap(was, l + 1, ir)
    ensures Sifting(was, was, l, ir, l)
  {
    SiftingIs(was, was, l, ir, l);
    assert forall k :: 2 * l <= k <= ir && k / 2 != l ==> 2 * (l + 1) <= k;
  }

  lemma SiftOn(was: seq<real>, s: seq<real>, t: seq<real>, l: nat, ir: nat, i: nat, j: nat)
    requires Sifting(was, s, l, ir, i) && i < |s|
    requires j <= ir < |s| && j / 2 == i && s[i] < s[j] && Children(s, ir, i, s[j])
    requires t == Swap(s, i, j)
    ensures Sifting(was, t, l, ir, j)
  {
    SiftingIs(was, s, l, ir, i);
    SiftingIs(was, t, l, ir, j);
    SiftStep(s, l, ir, i, j);
    SwapRearranges(s, i, j, l, ir + 1);
  }

  lemma SiftEnds(was: seq<real>, s: seq<real>, l: nat, ir: nat, i: nat)
    requires Sifting(was, s, l, ir, i) && i < |s| && Children(s, ir, i, s[i])
    ensures Heap(s, l, ir) && Rearranged(was, s, l, ir + 1)
  {
    SiftingIs(was, s, l, ir, i);
    forall k | 2 * l <= k <= ir ensures s[k] <= s[k / 2] {
      assert k / 2 == i ==> k == 2 * i || k == 2 * i + 1;
    }
  }

  /** `rra` sinks from position l to where it belongs. */
  method Sift(ra: array<real>, l: nat, ir: nat, rra: real)
    requires 1 <= l <= ir < ra.Length && Heap(ra[..][l := rra], l + 1, ir)
    modifies ra
    ensures Heap(ra[..], l, ir) && Rearranged(old(ra[..])[l := rra], ra[..], l, ir + 1)
  {
    ghost var was := ra[..][l := rra];
    SiftStarts(was, l, ir);
    var i, j := l, 2 * l;
    while j <= ir
      invariant l <= i <= ir && (j == 2 * i || j == ir + 1)
      invariant Sifting(was, ra[..][i := rra], l, ir, i)
      invariant j > ir ==> Children(ra[..], ir, i, rra)
      decreases ir + 1 - j
    {
      ghost var s := ra[..][i := rra];
      if j < ir && ra[j] < ra[j + 1] {
        j := j + 1;
      }
      assert Children(s, ir, i, s[j]);
      if rra < ra[j] {
        ra[i] := ra[j];
        SiftOn(was, s, ra[..][j := rra], l, ir, i, j);
        i := j;
        j := j + i;
      } else {
        j := ir + 1;
      }
    }
    SiftEnds(was, ra[..][i := rra], l, ir, i);
    ra[i] := rra;
  }

  // ---------- the sort ----------

  /** Behind ir the largest elements stand in order. */
  predicate Largest(s: seq<real>, ir: nat, n: nat) {
    && ir <= n < |s| && Sorted(s, ir + 1, n + 1)
    && forall j, k :: 1 <= j <= ir < k <= n ==> s[j] <= s[k]
  }

  /** The root moves behind the heap. */
  lemma Extracted(s: seq<real>, ir: nat, n: nat)
    requires 2 <= ir && Heap(s, 1, ir) && Largest(s, ir, n)
    ensures Heap(Swap(s, 1, ir), 2, ir - 1) && Largest(Swap(s, 1, ir), ir - 1, n)
  {
    forall k | 1 <= k <= ir ensures s[k] <= s[1] {
      RootLargest(s, ir, k);
    }
  }

  lemma StaysLargest(s: seq<real>, t: seq<real>, ir: nat, n: nat)
    requires Largest(s, ir, n) && Rearranged(s, t, 1, ir + 1)
    ensures Largest(t, ir, n)
  {
    forall j, k | 1 <= j <= ir < k <= n ensures t[j] <= t[k] {
      var i := RearrangedFrom(s, t, 1, ir + 1, j);
    }
  }

  /** What the shared loop keeps while it builds the heap, with ir == n, and while it takes the heap apart, with
      l == 1. */
  ghost predicate GoingNow(was: seq<real>, s: seq<real>, l: nat, ir: nat, n: nat) {
    Heap(s, l, ir) && Largest(s, ir, n) && Rearranged(was, s, 1, n + 1)
  }

  ghost predicate GoingBehind(was: seq<real>, s: seq<real>, l: nat, ir: nat, n: nat, k: nat)
    decreases k
  {
    if k == 0 then GoingNow(was, s, l, ir, n) else GoingBehind(was, s, l, ir, n, k - 1)
  }

  /** GoingNow, kept closed in the loop. */
  ghost predicate Going(was: seq<real>, s: seq<real>, l: nat, ir: nat, n: nat) {
    GoingBehind(was, s, l, ir, n, n + 3)
  }

  lemma {:induction false} GoingBehindIs(was: seq<real>, s: seq<real>, l: nat, ir: nat, n: nat, k: nat)
    ensures GoingBehind(was, s, l, ir, n, k) <==> GoingNow(was, s, l, ir, n)
    decreases k
  {
    if k > 0 {
      GoingBehindIs(was, s, l, ir, n, k - 1);
    }
  }

  lemma GoingIs(was: seq<real>, s: seq<real>, l: nat, ir: nat, n: nat)
    ensures Going(was, s, l, ir, n) <==> GoingNow(was, s, l, ir, n)
  {
    GoingBehindIs(was, s, l, ir, n, n + 3);
  }

  lemma Starts(was: seq<real>, n: nat)
    requires 2 <= n < |was|
    ensures Going(was, was, n / 2 + 1, n, n)
  {
    GoingIs(was, was, n / 2 + 1, n, n);
  }

  /** The root moves behind the heap, and the value from there is in hand. */
  method TakeRoot(ra: array<real>, ir: nat, n: nat, ghost was: seq<real>) returns (rra: real)
    requires 2 <= ir < ra.Length && Going(was, ra[..], 1, ir, n)
    modifies ra
    ensures Going(was, ra[..][1 := rra], 2, ir - 1, n)
  {
    ghost var s := ra[..];
    rra := ra[ir];
    ra[ir] := ra[1];
    GoingIs(was, s, 1, ir, n);
    assert ra[..][1 := rra] == Swap(s, 1, ir);
    TookRoot(was, s, ir, n);
  }

  lemma TookRoot(was: seq<real>, s: seq<real>, ir: nat, n: nat)
    requires 2 <= ir < |s| && Going(was, s, 1, ir, n)
    ensures Going(was, Swap(s, 1, ir), 2, ir - 1, n)
  {
    GoingIs(was, s, 1, ir, n);
    GoingIs(was, Swap(s, 1, ir), 2, ir - 1, n);
    Extracted(s, ir, n);
    SwapRearranges(s, 1, ir, 1, n + 1);
  }

  lemma Sifted(was: seq<real>, t: seq<real>, u: seq<real>, l: nat, ir: nat, n: nat)
    requires Going(was, t, l + 1, ir, n) && 1 <= l && Heap(u, l, ir) && Rearranged(t, u, l, ir + 1)
    ensures Going(was, u, l, ir, n)
  {
    GoingIs(was, t, l + 1, ir, n);
    GoingIs(was, u, l, ir, n);
    StaysLargest(t, u, ir, n);
  }

  lemma Ends(was: seq<real>, s: seq<real>, n: nat)
    requires Going(was, s, 2, 1, n)
    ensures Sorted(s, 1, n + 1) && Rearranged(was, s, 1, n + 1)
  {
    GoingIs(was, s, 2, 1, n);
  }

  /** The body of the loop behind the choice of `rra`. */
  method SiftDown(ra: array<real>, l: nat, ir: nat, rra: real, n: nat, ghost was: seq<real>)
    requires 1 <= l <= ir < ra.Length && Going(was, ra[..][l := rra], l + 1, ir, n)
    modifies ra
    ensures Going(was, ra[..], l, ir, n)
  {
    ghost var t := ra[..][l := rra];
    GoingIs(was, t, l + 1, ir, n);
    Sift(ra, l, ir, rra);
    Sifted(was, t, ra[..], l, ir, n);
  }

  /** Of n elements from position 1 on, at least two, in an array that may hold others around them. */
  method HeapsortR(n: nat, ra: array<real>)
    requires 2 <= n < ra.Length
    modifies ra
    ensures Sorted(ra[..], 1, n + 1)
    ensures Rearranged(old(ra[..]), ra[..], 1, n + 1)
  {
    var l, ir := n / 2 + 1, n;
    ghost var was := ra[..];
    Starts(was, n);
    while true
      invariant 1 <= l <= n / 2 + 1 && 2 <= ir <= n && (l > 1 ==> ir == n)
      invariant Going(was, ra[..], l, ir, n)
      decreases l, ir
    {
      var rra;
      if l > 1 {
        l := l - 1;
        rra := ra[l];
        assert ra[..][l := rra] == ra[..];
      } else {
        rra := TakeRoot(ra, ir, n, was);
        ir := ir - 1;
        if ir == 1 {
          Ends(was, ra[..][1 := rra], n);
          ra[1] := rra;
          return;
        }
      }
      SiftDown(ra, l, ir, rra, n, was);
    }
  }
}
