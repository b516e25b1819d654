/** Writing to blocks that are handed out: by the program, and by realloc's memcpy. */
module HeapWrite {
  import opened Bins
  import opened Chunks
  import opened Blocks
  import opened HeapInv
  import opened HeapMem
  import opened HeapState
  import opened HeapChunks
  import opened HeapBooks
  import opened HeapObject
  import opened HugeList
  import opened HugeBlocks

  /** Memory differs only inside [a, a + bytes). */
  ghost predicate ChangedIn(before: Memory, mem: Memory, a: int, bytes: int) {
    forall x :: !(a <= x < a + bytes) ==> Load(mem, x) == Load(before, x)
  }

  /** No free slot starts inside a block that is handed out. */
  lemma FreeElsewhere(s: State, a: int, c: nat, f: int)
    requires Sound(s) && a in s.live && c < BINS && c < |s.free| && f in s.free[c]
    ensures !(a <= f < a + Usable(s.live[a]))
  {
    SoundIs(s);
    assert SlotAt(s.chunks, s.owner, f, c);
    BinFacts(c);
    if a <= f < a + Usable(s.live[a]) {
      SlotApart(s.chunks, s.owner, s.live, f, c, a, f);
    }
  }

  /** Whatever is written inside a block that is handed out, the heap stays sound. */
  lemma SoundWrite(s: State, a: int, mem: Memory)
    requires Sound(s) && a in s.live && ChangedIn(s.mem, mem, a, Usable(s.live[a]))
    ensures Sound(s.(mem := mem))
  {
    SoundIs(s);
    forall c | 0 <= c < BINS
      ensures Chained(mem, s.heads[c], s.free[c])
    {
      assert Chained(s.mem, s.heads[c], s.free[c]);
      forall i | 0 <= i < |s.free[c]|
        ensures Load(mem, s.free[c][i]) == Load(s.mem, s.free[c][i])
      {
        assert s.free[c][i] in s.free[c];
        FreeElsewhere(s, a, c, s.free[c][i]);
      }
    }
    SoundFrom(s.(mem := mem));
  }

  /** The bytes of every other block stay as they are. */
  lemma OthersUntouched(s: State, a: int, mem: Memory)
    requires Sound(s) && a in s.live && ChangedIn(s.mem, mem, a, Usable(s.live[a]))
    ensures Untouched(s.live - {a}, s.mem, mem)
  {
    SoundIs(s);
    forall d, x | d in s.live - {a} && d <= x < d + Usable(s.live[d])
      ensures Load(mem, x) == Load(s.mem, x)
    {
      if a <= x < a + Usable(s.live[a]) {
        LiveApart(s.chunks, s.owner, s.free, s.live, s.pending, a, d, x);
      }
    }
  }

  /** Byte i of the block at a. */
  function Byte(mem: Memory, a: int, i: int): int {
    Load(mem, a + i)
  }

  /** The first n bytes at p in mem are those at a in `before`. */
  ghost predicate SameBytes(before: Memory, a: int, mem: Memory, p: int, n: nat) {
    forall i :: 0 <= i < n ==> Byte(mem, p, i) == Byte(before, a, i)
  }

  /** What a copy from `from` to `to` puts at address x. */
  function CopiedByte(mem: Memory, to: int, from: int, x: int): int {
    Byte(mem, from, x - to)
  }

  /** The bytes of mem with n bytes copied to `to`. */
  function Copied(mem: Memory, to: int, from: int, n: nat): (r: Memory)
    ensures ChangedIn(mem, r, to, n)
    ensures SameBytes(mem, from, r, to, n)
  {
    mem + map x | to <= x < to + n :: CopiedByte(mem, to, from, x)
  }

  lemma BalancedWrite(s: State, l: Ledger, mem: Memory)
    requires Balanced(s, l)
    ensures Balanced(s.(mem := mem), l)
  {
    BalancedQuiet(s, s.(mem := mem), l);
  }

  /** memcpy between two blocks. */
  method CopyBytes(heap: Heap, to: int, from: int, n: nat)
    requires Valid(heap) && to in heap.State().live && n <= Usable(heap.State().live[to])
    modifies heap`mem
    ensures Valid(heap)
    ensures heap.State() == old(heap.State()).(mem := Copied(old(heap.State()).mem, to, from, n))
    ensures Untouched(heap.State().live - {to}, old(heap.State()).mem, heap.State().mem)
  {
    ghost var s := heap.State();
    var mem := Copied(heap.mem, to, from, n);
    SoundWrite(s, to, mem);
    OthersUntouched(s, to, mem);
    BalancedWrite(s, heap.Books(), mem);
    heap.mem := mem;
    OccupiedStays(s, heap.State(), 0);
  }

  /** The program writes one byte of a block it has been given. */
  method Write(heap: Heap, a: int, offset: nat, value: int)
    requires Valid(heap) && a in heap.State().live && !IsNode(heap.hugeList, a) && offset < Usable(heap.State().live[a])
    modifies heap`mem
    ensures Valid(heap) && heap.State() == old(heap.State()).(mem := old(heap.State()).mem[a + offset := value])
    ensures Untouched(heap.State().live - {a}, old(heap.State()).mem, heap.State().mem)
  {
    ghost var s := heap.State();
    var mem := heap.mem[a + offset := value];
    SoundWrite(s, a, mem);
    OthersUntouched(s, a, mem);
    BalancedWrite(s, heap.Books(), mem);
    heap.mem := mem;
    OccupiedStays(s, heap.State(), 0);
  }
}
