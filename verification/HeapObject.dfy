// The heap object: the fields of zend_mm_heap, its memory, and ghost fields that say what the bits mean.
module HeapObject {
  // Chunks are kept by base address; ChunkPages shows the same chunk operations on real words.

  import opened Bins
  import opened Chunks
  import opened Blocks
  import opened HeapInv
  import opened HeapMem
  import opened HeapState
  import opened HeapChunks
  import opened HeapBooks

  /** One element of huge_list: the address of the list node, the huge block and its size. */
  datatype HugeNode = HugeNode(node: int, ptr: int, bytes: nat)

  const WORD_VALUES: int := 0x1_0000_0000_0000_0000

  /** Subtraction of size_t values. */
  function Minus(x: int, y: int): nat {
    (x - y) % WORD_VALUES
  }

  function Max(x: int, y: int): int {
    if x < y then y else x
  }

  function Min(x: int, y: int): int {
    if x < y then x else y
  }

  class Heap {
    var size: int
    var peak: int
    var freeSlot: seq<int>
    var realSize: int
    var realPeak: int
    var limit: int
    var hugeList: seq<HugeNode>
    var ring: seq<int>
    var cached: seq<int>
    var chunksCount: int
    var peakChunks: int
    var cachedCount: int
    var avgChunks: real
    var deleteBoundary: int
    var deleteCount: int
    var chunks: ChunkMap
    var mem: Memory
    /** The regions mapped from the operating system, by address. */
    var mapped: map<int, int>
    /** The main chunk is deleted: by zend_mm_gc, which puts it on the cache list or gives it back like any other
        chunk, or by a full shutdown. Nothing is said of the heap from then on. */
    var lost: bool

    /** How often the operating system has refused to map a region. */
    ghost var refusals: nat
    ghost var owner: Owners
    ghost var free: Lists
    ghost var live: Live
    ghost var pending: int
    ghost var due: int

    ghost function State(): State
      reads this
    {
      HeapState.State.State(chunks, ring, cached, freeSlot, mem, owner, free, live, pending)
    }

    ghost function Books(): Ledger
      reads this
    {
      Ledger(chunksCount, cachedCount, realSize, realPeak, mapped, due)
    }

    /** What holds whenever no page operation is under way. */
    ghost predicate Steady()
      reads this
    {
      !lost && pending == 0 && Sound(State()) && Balanced(State(), Books()) && Occupied(State())
    }

    /** What taking pages may do to the books, against the state before: at most one more chunk is mapped, peaks and
        refusals are counted, and where no huge block waits to be counted the memory limit still holds. */
    twostate predicate Accounts()
      reads this
    {
      && realSize <= old(realSize) + CHUNK_SIZE
      && realPeak == Max(old(realPeak), realSize) && refusals >= old(refusals)
      && (old(chunksCount) <= old(peakChunks) ==> peakChunks == Max(old(peakChunks), chunksCount))
      && (old(due) == 0 && old(realSize) <= limit < WORD_VALUES ==> realSize <= limit)
    }

    /** The limit leaves no room for a chunk. */
    ghost predicate Full()
      reads this
    {
      CHUNK_SIZE > (limit - realSize) % WORD_VALUES
    }

    /** zend_mm_init. The operating system has mapped a chunk of zeros at `main`. */
    constructor (main: int)
      requires 0 < main && main % CHUNK_SIZE == 0
      ensures chunks == map[main := Init(ZeroChunk(), 0)] && ring == [main] && cached == []
      ensures freeSlot == Zeros() && mem == map[] && mapped == map[main := CHUNK_SIZE]
      ensures owner == map[main := HeaderOnly()] && free == Empties() && live == map[] && pending == 0 && due == 0 && !lost
      ensures size == 0 && peak == 0 && realSize == realPeak == CHUNK_SIZE && hugeList == []
      ensures limit == WORD_VALUES / 2 - 1
      ensures chunksCount == peakChunks == 1 && cachedCount == 0 && avgChunks == 1.0
      ensures deleteBoundary == deleteCount == 0 && refusals == 0
    {
      size, peak, realSize, realPeak, limit := 0, 0, CHUNK_SIZE, CHUNK_SIZE, WORD_VALUES / 2 - 1;
      freeSlot, hugeList, ring, cached := Zeros(), [], [main], [];
      chunksCount, peakChunks, cachedCount, avgChunks := 1, 1, 0, 1.0;
      deleteBoundary, deleteCount := 0, 0;
      chunks, mem, mapped, lost := map[main := Init(ZeroChunk(), 0)], map[], map[main := CHUNK_SIZE], false;
      owner, free, live, pending, due := map[main := HeaderOnly()], Empties(), map[], 0, 0;
      refusals := 0;
    }

    /** zend_mm_chunk_alloc: the operating system maps an aligned region apart from all others, or refuses. */
    method ChunkAlloc(bytes: nat) returns (b: int)
      modifies this`mapped, this`refusals
      ensures State() == old(State())
      ensures refusals == old(refusals) + if b == 0 then 1 else 0
      ensures b == 0 ==> Books() == old(Books())
      ensures b != 0 ==> Vacant(old(Books()).mapped, b, bytes) && Books() == old(Books()).(mapped := old(Books()).mapped[b := bytes])
    {
      b := *;
      if Vacant(mapped, b, bytes) {
        mapped := mapped[b := bytes];
      } else {
        b := 0;
        refusals := refusals + 1;
      }
    }

    /** zend_mm_chunk_free. */
    method ChunkFree(b: int)
      modifies this`mapped
      ensures mapped == old(mapped) - {b}
    {
      mapped := mapped - {b};
    }

    /** zend_mm_delete_chunk: the chunk leaves the ring. */
    method Unlist(b: int)
      modifies this`ring, this`owner, this`chunksCount
      ensures State() == old(State()).(ring := Without(old(ring), b), owner := old(owner) - {b})
      ensures Books() == old(Books()).(chunksCount := old(chunksCount) - 1)
    {
      ring, owner := Without(ring, b), owner - {b};
      chunksCount := chunksCount - 1;
    }

    /** zend_mm_delete_chunk, delayed: the chunk becomes the first of the cache list. */
    method CacheChunk(b: int)
      modifies this`cached, this`cachedCount
      ensures State() == old(State()).(cached := [b] + old(cached))
      ensures Books() == old(Books()).(cachedCount := old(cachedCount) + 1)
    {
      cachedCount := cachedCount + 1;
      cached := [b] + cached;
    }

    /** zend_mm_delete_chunk, the bookkeeping of an immediate deletion. */
    method CountDeletion()
      modifies this`realSize, this`deleteBoundary, this`deleteCount
      ensures State() == old(State()) && Books() == old(Books()).(realSize := old(realSize) - CHUNK_SIZE)
      ensures if cached == [] then deleteBoundary == chunksCount
                && deleteCount == if old(deleteBoundary) == chunksCount then old(deleteCount) + 1 else 0
              else deleteBoundary == old(deleteBoundary) && deleteCount == old(deleteCount)
    {
      realSize := realSize - CHUNK_SIZE;
      if cached == [] {
        if chunksCount != deleteBoundary {
          deleteBoundary := chunksCount;
          deleteCount := 0;
        } else {
          deleteCount := deleteCount + 1;
        }
      }
    }

    /** Chunk b, rather than the first cached chunk, is the one to unmap. */
    predicate Newer(b: int)
      requires b in chunks && (cached != [] ==> cached[0] in chunks)
      reads this
    {
      cached == [] || chunks[b].num > chunks[cached[0]].num
    }

    /** zend_mm_delete_chunk, the choice of what to unmap: chunk b, or the first cached chunk in exchange. */
    method Unmap(b: int) returns (ghost gone: set<int>)
      requires b in chunks && (cached != [] ==> cached[0] in chunks)
      modifies this`cached, this`chunks, this`mapped
      ensures gone == if old(Newer(b)) then {b} else {old(cached[0])}
      ensures cached == if old(Newer(b)) then old(cached) else [b] + old(cached)[1..]
      ensures State() == old(State()).(cached := cached, chunks := old(chunks) - gone)
      ensures Books() == old(Books()).(mapped := old(mapped) - gone)
    {
      if Newer(b) {
        gone := {b};
        ChunkFree(b);
        chunks := chunks - {b};
      } else {
        var first := cached[0];
        gone := {first};
        ChunkFree(first);
        chunks := chunks - {first};
        cached := [b] + cached[1..];
      }
    }

    /** A deletion is delayed while the heap is smaller than usual, or has just been deleting repeatedly. */
    predicate Delays(count: int)
      reads this
    {
      (count + cachedCount) as real < avgChunks + 0.1 || (count == deleteBoundary && 4 <= deleteCount)
    }

    /** zend_mm_delete_chunk: `gone` is what goes back to the operating system. */
    method DeleteChunk(b: int) returns (ghost gone: set<int>)
      requires b in ring && b in chunks && (cached != [] ==> cached[0] in chunks)
      requires cachedCount == |cached|
      modifies this`ring, this`cached, this`chunks, this`owner, this`mapped
      modifies this`chunksCount, this`cachedCount, this`realSize, this`deleteBoundary, this`deleteCount
      ensures State() == LeaveStep(old(State()), b, State().cached, gone)
      ensures Books() == Leaving(old(Books()), State().cached, gone)
      ensures var count := old(chunksCount) - 1;
              if (count + old(cachedCount)) as real < avgChunks + 0.1 || (count == old(deleteBoundary) && 4 <= old(deleteCount))
              then cached == [b] + old(cached) && gone == {}
              else if old(cached) == [] || old(chunks)[b].num > old(chunks)[old(cached)[0]].num
              then cached == old(cached) && gone == {b}
              else cached == [b] + old(cached)[1..] && gone == {old(cached)[0]}
      ensures var count := old(chunksCount) - 1;
              if gone != {} && old(cached) == [] && count != old(deleteBoundary) then deleteBoundary == count && deleteCount == 0
              else && deleteBoundary == old(deleteBoundary)
                   && deleteCount == old(deleteCount) + if gone != {} && old(cached) == [] then 1 else 0
    {
      ghost var s, l := State(), Books();
      Unlist(b);
      if Delays(chunksCount) {
        CacheChunk(b);
        gone := {};
        assert s.chunks - gone == s.chunks && l.mapped - gone == l.mapped;
      } else {
        CountDeletion();
        gone := Unmap(b);
        assert b in gone || s.cached[0] in gone;
        assert |State().cached| == |s.cached|;
      }
    }
  }

  /** No free list has an element yet. */
  function Zeros(): (r: seq<int>)
    ensures |r| == BINS
  {
    seq(BINS, _ => 0)
  }

  function Empties(): (r: Lists)
    ensures |r| == BINS
  {
    seq(BINS, _ => [])
  }
}
