/** Memory contents: the links of the free lists live inside free slots, next to the bytes of live blocks. */
module HeapMem {
  import opened Bitset
  import opened Bins
  import opened Chunks
  import opened Blocks
  import opened HeapInv

  const LINK_SIZE := 8

  function Load(mem: Memory, a: int): int {
    if a in mem then mem[a] else 0
  }

  /** The eight bytes of a pointer. */
  function Cells(a: int): set<int> {
    {a, a + 1, a + 2, a + 3, a + 4, a + 5, a + 6, a + 7}
  }

  /** Store a pointer: the cell at a holds it and the other seven bytes are overwritten. */
  function StorePtr(mem: Memory, a: int, p: int): (r: Memory)
    ensures Load(r, a) == p
    ensures forall x :: !(a <= x < a + LINK_SIZE) ==> Load(r, x) == Load(mem, x)
  {
    mem + map x | x in Cells(a) :: if x == a then p else 0
  }

  // ---------- linked lists in memory ----------

  function Head(s: seq<int>): int {
    if s == [] then 0 else s[0]
  }

  /** The link of element i. */
  function Next(s: seq<int>, i: nat): int
    requires i < |s|
  {
    if i + 1 < |s| then s[i + 1] else 0
  }

  /** Following links from `head` visits exactly the addresses of s and ends with NULL. */
  ghost predicate Chained(mem: Memory, head: int, s: seq<int>) {
    && head == Head(s)
    && forall i :: 0 <= i < |s| ==> s[i] != 0 && Load(mem, s[i]) == Next(s, i)
  }

  ghost predicate Links(mem: Memory, heads: seq<int>, free: Lists) {
    && |heads| == |free| == BINS
    && forall bin :: 0 <= bin < BINS ==> Chained(mem, heads[bin], free[bin])
  }

  /** No link of the lists is within a pointer's width after a. */
  ghost predicate Away(free: Lists, a: int) {
    forall c, i :: 0 <= c < |free| && 0 <= i < |free[c]| ==> !(a <= free[c][i] < a + LINK_SIZE)
  }

  lemma PopLinks(mem: Memory, heads: seq<int>, free: Lists, bin: nat)
    requires Links(mem, heads, free) && bin < BINS && free[bin] != []
    ensures heads[bin] == free[bin][0] != 0
    ensures Links(mem, heads[bin := Load(mem, heads[bin])], free[bin := free[bin][1..]])
  {
    assert Chained(mem, heads[bin], free[bin]);
    var rest := free[bin][1..];
    forall i | 0 <= i < |rest|
      ensures rest[i] != 0 && Load(mem, rest[i]) == Next(rest, i)
    {
      assert rest[i] == free[bin][i + 1] && Next(rest, i) == Next(free[bin], i + 1);
    }
  }

  lemma PushLinks(mem: Memory, heads: seq<int>, free: Lists, bin: nat, a: int)
    requires Links(mem, heads, free) && bin < BINS && a != 0 && Away(free, a)
    ensures Links(StorePtr(mem, a, heads[bin]), heads[bin := a], free[bin := [a] + free[bin]])
  {
    var mem', heads', free' := StorePtr(mem, a, heads[bin]), heads[bin := a], free[bin := [a] + free[bin]];
    forall c | 0 <= c < BINS
      ensures Chained(mem', heads'[c], free'[c])
    {
      assert Chained(mem, heads[c], free[c]);
      if c == bin {
        forall i | 0 <= i < |free'[c]|
          ensures free'[c][i] != 0 && Load(mem', free'[c][i]) == Next(free'[c], i)
        {
          if i > 0 {
            assert free'[c][i] == free[c][i - 1] && Next(free'[c], i) == Next(free[c], i - 1);
          }
        }
      }
    }
  }

  // ---------- bytes of live blocks ----------

  /** Huge blocks lie outside all chunks and apart from each other. */
  ghost predicate Regions(chunks: ChunkMap, live: Live) {
    && (forall b :: b in chunks ==> b % CHUNK_SIZE == 0)
    && (forall a :: a in live && live[a].Huge? ==> 0 < live[a].bytes)
    && (forall a, b :: a in live && live[a].Huge? && b in chunks ==> a + live[a].bytes <= b || b + CHUNK_SIZE <= a)
    && (forall a, d :: a in live && d in live && a != d && live[a].Huge? && live[d].Huge?
          ==> a + live[a].bytes <= d || d + live[d].bytes <= a)
  }

  ghost predicate Untouched(live: Live, m0: Memory, m1: Memory) {
    forall a, x :: a in live && a <= x < a + Usable(live[a]) ==> Load(m1, x) == Load(m0, x)
  }

  lemma BlockInChunk(chunks: ChunkMap, owner: Owners, a: int, k: Kind, x: int)
    requires Mapped(chunks, owner) && BlockAt(chunks, owner, a, k) && !k.Huge?
    requires a <= x < a + Usable(k)
    ensures Base(a) in chunks && Base(a) <= x < Base(a) + CHUNK_SIZE
  {
    BlockPages(chunks, owner, a, k, x);
    JoinAddress(x);
  }

  /** Live blocks never share a byte. */
  lemma LiveApart(chunks: ChunkMap, owner: Owners, free: Lists, live: Live, pending: int, a: int, d: int, x: int)
    requires Mapped(chunks, owner) && BlocksOk(chunks, owner, free, live, pending) && Regions(chunks, live)
    requires a in live && d in live && a <= x < a + Usable(live[a]) && d <= x < d + Usable(live[d])
    ensures a == d
  {
    assert BlockAt(chunks, owner, a, live[a]) && BlockAt(chunks, owner, d, live[d]);
    if !live[a].Huge? {
      BlockInChunk(chunks, owner, a, live[a], x);
    }
    if !live[d].Huge? {
      BlockInChunk(chunks, owner, d, live[d], x);
    }
    if !live[a].Huge? && !live[d].Huge? {
      BlocksApart(chunks, owner, a, live[a], d, live[d], x);
    }
  }

  /** A slot that is not handed out shares no byte with a live block. */
  lemma SlotApart(chunks: ChunkMap, owner: Owners, live: Live, s: int, bin: nat, a: int, x: int)
    requires Mapped(chunks, owner) && LiveOk(chunks, owner, live) && Regions(chunks, live)
    requires SlotAt(chunks, owner, s, bin) && s !in live
    requires a in live && a <= x < a + Usable(live[a])
    ensures !(s <= x < s + BinSize(bin))
  {
    if s <= x < s + BinSize(bin) {
      assert BlockAt(chunks, owner, a, live[a]);
      BlockInChunk(chunks, owner, s, Small(bin), x);
      if !live[a].Huge? {
        BlocksApart(chunks, owner, s, Small(bin), a, live[a], x);
      }
    }
  }

  /** Writing a link into a slot that is not handed out leaves every live block as it was. */
  lemma LinkWriteUntouched(chunks: ChunkMap, owner: Owners, live: Live, s: int, bin: nat, mem: Memory, p: int)
    requires Mapped(chunks, owner) && LiveOk(chunks, owner, live) && Regions(chunks, live)
    requires SlotAt(chunks, owner, s, bin) && s !in live
    ensures Untouched(live, mem, StorePtr(mem, s, p))
  {
    BinFacts(bin);
    forall a, x | a in live && a <= x < a + Usable(live[a])
      ensures Load(StorePtr(mem, s, p), x) == Load(mem, x)
    {
      SlotApart(chunks, owner, live, s, bin, a, x);
    }
  }

  /** Links of other slots are not within a slot. */
  lemma SlotAway(chunks: ChunkMap, owner: Owners, free: Lists, live: Live, s: int, bin: nat)
    requires Mapped(chunks, owner) && FreeOk(chunks, owner, free, live)
    requires SlotAt(chunks, owner, s, bin) && s !in free[bin]
    ensures Away(free, s)
  {
    forall c, i | 0 <= c < |free| && 0 <= i < |free[c]|
      ensures !(s <= free[c][i] < s + LINK_SIZE)
    {
      var f := free[c][i];
      assert f in free[c] && SlotAt(chunks, owner, f, c);
      SlotsFar(chunks, owner, s, bin, f, c);
    }
  }

  /** Two different slots are at least a pointer's width apart. */
  lemma SlotsFar(chunks: ChunkMap, owner: Owners, s: int, bin: nat, f: int, c: nat)
    requires Mapped(chunks, owner) && SlotAt(chunks, owner, s, bin) && SlotAt(chunks, owner, f, c)
    ensures s <= f < s + LINK_SIZE ==> s == f && bin == c
  {
    BinFacts(bin);
    BinFacts(c);
    if s <= f < s + LINK_SIZE {
      BlocksApart(chunks, owner, s, Small(bin), f, Small(c), f);
      OneKind(chunks, owner, s, Small(bin), Small(c));
    }
  }
}
