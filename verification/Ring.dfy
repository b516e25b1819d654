// The chunk ring and the cache list as linked objects.
module Ring {
  // Next and prev pointers go through the main chunk, and the cache list through next. The heap keeps both as
  // sequences; these methods show the pointer updates behind them.

  class Node {
    var next: Node?
    var prev: Node?
  }

  function Successor(n: nat, i: nat): nat {
    if i + 1 < n then i + 1 else 0
  }

  function Predecessor(n: nat, i: nat): nat {
    if i > 0 then i - 1 else if n > 0 then n - 1 else 0
  }

  ghost predicate Distinct(r: seq<Node>) {
    forall i, j :: 0 <= i < |r| && 0 <= j < |r| && i != j ==> r[i] != r[j]
  }

  /** Following next visits the nodes of r in order and returns to the first; prev goes the other way. */
  ghost predicate Circular(r: seq<Node>)
    reads r
  {
    && r != [] && Distinct(r)
    && forall i :: 0 <= i < |r| ==> r[i].next == r[Successor(|r|, i)] && r[i].prev == r[Predecessor(|r|, i)]
  }

  function NodeAt(l: seq<Node>, i: nat): Node? {
    if i < |l| then l[i] else null
  }

  /** Following next from `head` visits the nodes of l and ends with NULL. */
  ghost predicate Chain(head: Node?, l: seq<Node>)
    reads l
  {
    && Distinct(l) && head == NodeAt(l, 0)
    && forall i :: 0 <= i < |l| ==> l[i].next == NodeAt(l, i + 1)
  }

  /** r without its element i. */
  function Cut(r: seq<Node>, i: nat): (s: seq<Node>)
    requires i < |r|
    ensures |s| == |r| - 1
    ensures forall j :: 0 <= j < |s| ==> s[j] == r[if j < i then j else j + 1]
  {
    r[..i] + r[i + 1..]
  }

  /** r with c right behind its first element. */
  function Behind(r: seq<Node>, c: Node): (s: seq<Node>)
    requires r != []
    ensures |s| == |r| + 1 && s[0] == r[0] && s[1] == c
    ensures forall j :: 2 <= j < |s| ==> s[j] == r[j - 1]
  {
    [r[0], c] + r[1..]
  }

  // ---------- one ring ----------

  lemma CutNext(r: seq<Node>, i: nat)
    requires 0 < i < |r| && r[i - 1].next == r[Successor(|r|, i)]
    requires forall j :: 0 <= j < |r| && j != i - 1 && j != i ==> r[j].next == r[Successor(|r|, j)]
    ensures var s := Cut(r, i); forall j :: 0 <= j < |s| ==> s[j].next == s[Successor(|s|, j)]
  {
    var s := Cut(r, i);
    forall j | 0 <= j < |s|
      ensures s[j].next == s[Successor(|s|, j)]
    {
      if j < i - 1 {
        assert s[j] == r[j] && s[j + 1] == r[j + 1];
      } else if j == i - 1 {
        assert s[j] == r[j];
      } else {
        assert s[j] == r[j + 1];
      }
    }
  }

  lemma CutDistinct(r: seq<Node>, i: nat)
    requires i < |r| && Distinct(r)
    ensures Distinct(Cut(r, i)) && r[i] !in Cut(r, i)
  {
  }

  lemma CutPrev(r: seq<Node>, i: nat)
    requires 0 < i < |r| && r[Successor(|r|, i)].prev == r[i - 1]
    requires forall j :: 0 <= j < |r| && j != Successor(|r|, i) && j != i ==> r[j].prev == r[Predecessor(|r|, j)]
    ensures var s := Cut(r, i); forall j :: 0 <= j < |s| ==> s[j].prev == s[Predecessor(|s|, j)]
  {
    var s := Cut(r, i);
    forall j | 0 <= j < |s|
      ensures s[j].prev == s[Predecessor(|s|, j)]
    {
      if j < i {
        assert s[j] == r[j];
      } else {
        assert s[j] == r[j + 1];
      }
    }
  }

  /** Take node i out: its neighbours are joined. */
  method Unlink(c: Node, ghost r: seq<Node>, ghost i: nat)
    requires Circular(r) && 0 < i < |r| && r[i] == c
    modifies r
    ensures Circular(Cut(r, i)) && c.next == old(c.next) && c.prev == old(c.prev)
  {
    ghost var n := Successor(|r|, i);
    assert c.next == r[n] && c.prev == r[i - 1] && n != i;
    label before:
    c.prev.next := c.next;
    c.next.prev := c.prev;
    forall j | 0 <= j < |r|
      ensures j != i - 1 ==> r[j].next == old@before(r[j].next)
      ensures j != n ==> r[j].prev == old@before(r[j].prev)
    {
    }
    CutNext(r, i);
    CutPrev(r, i);
    CutDistinct(r, i);
  }

  /** Put c between the first node and its successor. */
  method LinkBehind(main: Node, c: Node, ghost r: seq<Node>)
    requires Circular(r) && r[0] == main && c !in r
    modifies r, c
    ensures Circular(Behind(r, c))
  {
    assert main.next == r[Successor(|r|, 0)];
    c.next := main.next;
    c.prev := main;
    c.prev.next := c;
    c.next.prev := c;
  }

  lemma BehindMembers(r: seq<Node>, i: nat)
    requires i < |r| && 1 < |r|
    ensures forall c :: c in Behind(Cut(r, i), r[i]) ==> c in r
  {
    var s := Behind(Cut(r, i), r[i]);
    CutMembers(r, i);
    forall c | c in s
      ensures c in r
    {
      var j :| 0 <= j < |s| && s[j] == c;
      assert j >= 2 ==> s[j] == Cut(r, i)[j - 1];
      assert j == 0 ==> s[j] == Cut(r, i)[0];
    }
  }

  /** Node i moves behind the first. */
  method MoveBehind(main: Node, c: Node, ghost r: seq<Node>, ghost i: nat)
    requires Circular(r) && r[0] == main && 0 < i < |r| && r[i] == c
    modifies r
    ensures Circular(Behind(Cut(r, i), c))
  {
    CutMembers(r, i);
    CutDistinct(r, i);
    Unlink(c, r, i);
    LinkBehind(main, c, Cut(r, i));
  }

  /** Put c between the last node and the first: zend_mm_chunk_init. */
  method LinkLast(main: Node, c: Node, ghost r: seq<Node>)
    requires Circular(r) && r[0] == main && c !in r
    modifies r, c
    ensures Circular(r + [c])
  {
    assert main.prev == r[Predecessor(|r|, 0)];
    c.next := main;
    c.prev := main.prev;
    c.prev.next := c;
    c.next.prev := c;
  }

  // ---------- the cache list ----------

  lemma ChainTail(head: Node?, l: seq<Node>)
    requires Chain(head, l) && head != null
    ensures l != [] && head == l[0] && Chain(head.next, l[1..]) && head !in l[1..]
  {
    var t := l[1..];
    forall i | 0 <= i < |t|
      ensures t[i] != head && t[i].next == NodeAt(t, i + 1)
    {
      ChainAt(head, l, i + 1);
    }
  }

  lemma ChainAt(head: Node?, l: seq<Node>, i: nat)
    requires Chain(head, l) && i < |l|
    ensures l[i].next == NodeAt(l, i + 1)
  {
  }

  lemma ChainCons(c: Node, l: seq<Node>)
    requires Chain(c.next, l) && c !in l
    ensures Chain(c, [c] + l)
  {
    var m := [c] + l;
    forall i | 0 <= i < |m|
      ensures m[i].next == NodeAt(m, i + 1)
    {
      if i > 0 {
        ChainAt(c.next, l, i - 1);
      }
    }
  }

  lemma CutMembers(r: seq<Node>, i: nat)
    requires i < |r|
    ensures forall c :: c in Cut(r, i) ==> c in r
  {
    forall c | c in Cut(r, i)
      ensures c in r
    {
      var j :| 0 <= j < |Cut(r, i)| && Cut(r, i)[j] == c;
      assert r[if j < i then j else j + 1] == c;
    }
  }

  // ---------- ring and cache ----------

  class Lists {
    var main: Node
    var cached: Node?
    var chunksCount: int
    var cachedCount: int
    ghost var ring: seq<Node>
    ghost var list: seq<Node>

    /** Ring and cache are well formed, counted, and have no chunk in common. */
    ghost predicate Valid()
      reads this, ring, list
    {
      && Circular(ring) && ring[0] == main && chunksCount == |ring|
      && Chain(cached, list) && cachedCount == |list|
      && forall j :: 0 <= j < |list| ==> list[j] !in ring
    }

    constructor (c: Node)
      requires c.next == c && c.prev == c
      ensures Valid() && ring == [c] && list == []
    {
      main, cached, chunksCount, cachedCount := c, null, 1, 0;
      ring, list := [c], [];
    }

    /** A chunk from the operating system joins the ring. */
    method AddChunk(c: Node)
      requires Valid() && c !in ring && c !in list
      modifies this, ring, c
      ensures Valid() && ring == old(ring) + [c] && list == old(list)
    {
      LinkLast(main, c, ring);
      chunksCount := chunksCount + 1;
      ring := ring + [c];
    }

    /** The first cached chunk joins the ring. */
    method TakeCached() returns (c: Node)
      requires Valid() && cached != null
      modifies this, ring, list
      ensures Valid() && old(list) != [] && c == old(list)[0]
      ensures ring == old(ring) + [c] && list == old(list)[1..]
    {
      c := cached;
      ChainTail(cached, list);
      cached := c.next;
      cachedCount := cachedCount - 1;
      list := list[1..];
      LinkLast(main, c, ring);
      chunksCount := chunksCount + 1;
      ring := ring + [c];
    }

    /** A busy chunk moves right behind the main chunk. */
    method MoveToFront(c: Node, ghost i: nat)
      requires Valid() && 0 < i < |ring| && ring[i] == c
      modifies this, ring
      ensures Valid() && ring == Behind(Cut(old(ring), i), c) && list == old(list)
    {
      BehindMembers(ring, i);
      MoveBehind(main, c, ring, i);
      ring := Behind(Cut(ring, i), c);
    }

    /** The chunk leaves the ring. When that is all, it is given back to the operating system. */
    method RemoveChunk(c: Node, ghost i: nat)
      requires Valid() && 0 < i < |ring| && ring[i] == c
      modifies this, ring
      ensures Valid() && ring == Cut(old(ring), i) && list == old(list)
      ensures c !in ring && c !in list
    {
      CutMembers(ring, i);
      CutDistinct(ring, i);
      Unlink(c, ring, i);
      chunksCount := chunksCount - 1;
      ring := Cut(ring, i);
    }

    /** Deletion is delayed: the chunk becomes the first of the cache. */
    method CacheChunk(c: Node, ghost i: nat)
      requires Valid() && 0 < i < |ring| && ring[i] == c
      modifies this, ring
      ensures Valid() && ring == Cut(old(ring), i) && list == [c] + old(list)
    {
      RemoveChunk(c, i);
      c.next := cached;
      ChainCons(c, list);
      cached := c;
      cachedCount := cachedCount + 1;
      list := [c] + list;
    }

    /** The chunk takes the place of the first cached chunk, which is given back instead. */
    method ExchangeChunk(c: Node, ghost i: nat) returns (gone: Node)
      requires Valid() && 0 < i < |ring| && ring[i] == c && cached != null
      modifies this, ring
      ensures Valid() && ring == Cut(old(ring), i) && old(list) != []
      ensures gone == old(list)[0] && list == [c] + old(list)[1..]
    {
      RemoveChunk(c, i);
      gone := cached;
      ChainTail(cached, list);
      list := list[1..];
      c.next := gone.next;
      ChainCons(c, list);
      cached := c;
      list := [c] + list;
    }

    /** The first cached chunk is given back. */
    method DropCached() returns (gone: Node)
      requires Valid() && cached != null
      modifies this
      ensures Valid() && old(list) != [] && gone == old(list)[0]
      ensures ring == old(ring) && list == old(list)[1..]
    {
      gone := cached;
      ChainTail(cached, list);
      cached := cached.next;
      cachedCount := cachedCount - 1;
      list := list[1..];
    }
  }
}
