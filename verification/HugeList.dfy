/** The list of huge blocks: one node for every huge block, kept in a small block of its own. */
module HugeList {
  import opened Bins
  import opened Blocks
  import opened HeapInv
  import opened HeapObject

  /** sizeof(zend_mm_huge_list): a link, a pointer and a size. */
  const NODE_SIZE := 24

  const NODE_BIN := 2

  lemma NodeBin()
    ensures SmallSizeToBin(NODE_SIZE) == NODE_BIN && BinSize(NODE_BIN) == NODE_SIZE
  {
    SmallestBin(NODE_SIZE);
    BinFacts(NODE_BIN);
    BinFacts(1);
  }

  ghost predicate NodesOk(list: seq<HugeNode>, live: Live) {
    forall i :: 0 <= i < |list| ==>
      && list[i].ptr in live && live[list[i].ptr] == Huge(list[i].bytes)
      && list[i].node in live && live[list[i].node] == Small(NODE_BIN)
  }

  ghost predicate NodesDiffer(list: seq<HugeNode>) {
    forall i, j :: 0 <= i < j < |list| ==> list[i].ptr != list[j].ptr && list[i].node != list[j].node
  }

  predicate Listed(list: seq<HugeNode>, a: int) {
    exists i :: 0 <= i < |list| && list[i].ptr == a
  }

  /** The address of a list node: a block handed out to the heap itself. */
  predicate IsNode(list: seq<HugeNode>, a: int) {
    exists i :: 0 <= i < |list| && list[i].node == a
  }

  ghost predicate ListNow(list: seq<HugeNode>, live: Live) {
    && NodesOk(list, live)
    && NodesDiffer(list)
    && forall a :: a in live && live[a].Huge? ==> Listed(list, a)
  }

  ghost predicate ListBehind(list: seq<HugeNode>, live: Live, k: nat)
    decreases k
  {
    if k == 0 then ListNow(list, live) else ListBehind(list, live, k - 1)
  }

  ghost predicate ListOk(list: seq<HugeNode>, live: Live) {
    ListBehind(list, live, |list| + 3)
  }

  lemma {:induction false} ListBehindIs(list: seq<HugeNode>, live: Live, k: nat)
    ensures ListBehind(list, live, k) == ListNow(list, live)
    decreases k
  {
    if k > 0 {
      ListBehindIs(list, live, k - 1);
    }
  }

  lemma ListIs(list: seq<HugeNode>, live: Live)
    ensures ListOk(list, live) == ListNow(list, live)
  {
    ListBehindIs(list, live, |list| + 3);
  }

  /** Position of the node of a (the length of the list when there is none). */
  function Position(list: seq<HugeNode>, a: int): (i: nat)
    ensures i <= |list| && (i < |list| ==> list[i].ptr == a)
  {
    if list == [] then 0 else if list[0].ptr == a then 0 else 1 + Position(list[1..], a)
  }

  lemma {:induction false} PositionIs(list: seq<HugeNode>, a: int, i: nat)
    requires i < |list| && list[i].ptr == a
    ensures Position(list, a) <= i
  {
    if list[0].ptr != a {
      PositionIs(list[1..], a, i - 1);
    }
  }

  lemma {:induction false} NotBefore(list: seq<HugeNode>, a: int, i: nat)
    requires i < Position(list, a)
    ensures list[i].ptr != a
  {
    if i > 0 {
      NotBefore(list[1..], a, i - 1);
    }
  }

  lemma ListFind(list: seq<HugeNode>, live: Live, a: int)
    requires ListOk(list, live) && a in live && live[a].Huge?
    ensures var i := Position(list, a);
            && i < |list| && live[a] == Huge(list[i].bytes) && list[i].node in live && live[list[i].node] == Small(NODE_BIN)
  {
    ListIs(list, live);
    assert Listed(list, a);
    var i :| 0 <= i < |list| && list[i].ptr == a;
    PositionIs(list, a, i);
  }

  function Added(list: seq<HugeNode>, n: HugeNode): (r: seq<HugeNode>)
    ensures |r| == |list| + 1 && r[0] == n && forall i :: 1 <= i < |r| ==> r[i] == list[i - 1]
  {
    [n] + list
  }

  lemma AddNodes(list: seq<HugeNode>, live: Live, n: HugeNode)
    requires NodesOk(list, live) && NodesDiffer(list) && n.ptr !in live && n.node !in live && n.node != n.ptr
    ensures NodesOk(Added(list, n), live[n.ptr := Huge(n.bytes)][n.node := Small(NODE_BIN)]) && NodesDiffer(Added(list, n))
  {
    forall i | 0 <= i < |list|
      ensures list[i].ptr != n.ptr && list[i].node != n.node && list[i].node != n.ptr && list[i].ptr != n.node
    {
    }
  }

  lemma AddListed(list: seq<HugeNode>, live: Live, n: HugeNode, d: int)
    requires (d in live && live[d].Huge? ==> Listed(list, d)) && n.node !in live
    requires var more := live[n.ptr := Huge(n.bytes)][n.node := Small(NODE_BIN)]; d in more && more[d].Huge?
    ensures Listed(Added(list, n), d)
  {
    if d == n.ptr {
      assert Added(list, n)[0].ptr == d;
    } else {
      var i :| 0 <= i < |list| && list[i].ptr == d;
      assert Added(list, n)[i + 1].ptr == d;
    }
  }

  lemma ListAdd(list: seq<HugeNode>, live: Live, n: HugeNode)
    requires ListOk(list, live) && n.ptr !in live && n.node !in live && n.node != n.ptr
    ensures ListOk(Added(list, n), live[n.ptr := Huge(n.bytes)][n.node := Small(NODE_BIN)])
  {
    ListIs(list, live);
    AddNodes(list, live, n);
    var more := live[n.ptr := Huge(n.bytes)][n.node := Small(NODE_BIN)];
    forall d | d in more && more[d].Huge?
      ensures Listed(Added(list, n), d)
    {
      AddListed(list, live, n, d);
    }
    ListIs(Added(list, n), more);
  }

  lemma ListDrop(list: seq<HugeNode>, live: Live, i: nat)
    requires ListOk(list, live) && i < |list|
    ensures ListOk(list[..i] + list[i + 1..], live - {list[i].node} - {list[i].ptr})
    ensures list[i].node != list[i].ptr
  {
    ListIs(list, live);
    var less, live' := list[..i] + list[i + 1..], live - {list[i].node} - {list[i].ptr};
    assert forall j :: 0 <= j < |less| ==> less[j] == list[if j < i then j else j + 1];
    forall d | d in live' && live'[d].Huge?
      ensures Listed(less, d)
    {
      assert Listed(list, d);
      var j :| 0 <= j < |list| && list[j].ptr == d;
      assert less[if j < i then j else j - 1].ptr == d;
    }
    ListIs(less, live');
  }

  lemma ListResize(list: seq<HugeNode>, live: Live, i: nat, to: nat)
    requires ListOk(list, live) && i < |list|
    ensures ListOk(list[i := list[i].(bytes := to)], live[list[i].ptr := Huge(to)])
    ensures list[i].ptr in live && live[list[i].ptr] == Huge(list[i].bytes)
  {
    ListIs(list, live);
    var now, live' := list[i := list[i].(bytes := to)], live[list[i].ptr := Huge(to)];
    forall d | d in live' && live'[d].Huge?
      ensures Listed(now, d)
    {
      assert d in live && live[d].Huge?;
      var j :| 0 <= j < |list| && list[j].ptr == d;
      assert now[j].ptr == d;
    }
    ListIs(now, live');
  }

  /** Blocks that are neither huge nor nodes may come, go and change. */
  lemma ListPut(list: seq<HugeNode>, live: Live, a: int, k: Kind)
    requires ListOk(list, live) && !k.Huge? && (a in live ==> !live[a].Huge? && !IsNode(list, a))
    ensures ListOk(list, live[a := k])
  {
    ListIs(list, live);
    ListIs(list, live[a := k]);
  }

  lemma ListLess(list: seq<HugeNode>, live: Live, a: int)
    requires ListOk(list, live) && a in live && !live[a].Huge? && !IsNode(list, a)
    ensures ListOk(list, live - {a})
  {
    ListIs(list, live);
    ListIs(list, live - {a});
  }

  /** Of the blocks handed out, the nodes are those that were, and the new node. */
  ghost predicate NodesStay(list: seq<HugeNode>, now: seq<HugeNode>, live: Live, node: int) {
    forall d :: d in live ==> (IsNode(now, d) <==> IsNode(list, d) || d == node)
  }

  lemma DropNode(list: seq<HugeNode>, live: Live, i: nat, d: int)
    requires i < |list| && d != list[i].node
    ensures IsNode(list[..i] + list[i + 1..], d) <==> IsNode(list, d)
  {
    var less := list[..i] + list[i + 1..];
    if IsNode(list, d) {
      var j :| 0 <= j < |list| && list[j].node == d;
      assert less[if j < i then j else j - 1].node == d;
    }
    if IsNode(less, d) {
      var j :| 0 <= j < |less| && less[j].node == d;
      assert list[if j < i then j else j + 1].node == d;
    }
  }
}
