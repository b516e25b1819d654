// Where blocks are inside a chunk: the slots of a small run, and what offset and page map say about a pointer.
module Blocks {
  import opened Bitset
  import opened Bins
  import opened Chunks

  const CHUNK_SIZE := 2097152

  // ---------- slots of one run ----------

  /** Offsets of the first n slots of a run. */
  function SlotsBelow(bin: nat, n: nat): set<int>
    decreases n
  {
    if n == 0 then {} else SlotsBelow(bin, n - 1) + {(n - 1) * BinSize(bin)}
  }

  /** Offsets of all slots of a run, from the start of the run. */
  function Slots(bin: nat): set<int> {
    SlotsBelow(bin, BinElements(bin))
  }

  lemma {:induction false} SlotNumber(bin: nat, n: nat, d: int) returns (e: nat)
    requires d in SlotsBelow(bin, n)
    ensures e < n && d == e * BinSize(bin)
    decreases n
  {
    if d == (n - 1) * BinSize(bin) {
      e := n - 1;
    } else {
      e := SlotNumber(bin, n - 1, d);
    }
  }

  lemma {:induction false} SlotByNumber(bin: nat, n: nat, e: nat)
    requires e < n
    ensures e * BinSize(bin) in SlotsBelow(bin, n)
    decreases n
  {
    if e < n - 1 {
      SlotByNumber(bin, n - 1, e);
    }
  }

  lemma MultipleStep(e: int, f: int, size: int)
    requires 0 <= e < f && 0 < size
    ensures 0 <= e * size && e * size + size <= f * size
  {
    assert (e + 1) * size <= f * size;
  }

  /** A slot lies inside its run. */
  lemma SlotInside(bin: nat, d: int)
    requires bin < BINS && d in Slots(bin)
    ensures 0 <= d && d + BinSize(bin) <= BinPages(bin) * PAGE_SIZE
  {
    BinFacts(bin);
    var e := SlotNumber(bin, BinElements(bin), d);
    MultipleStep(e, BinElements(bin), BinSize(bin));
  }

  /** Two slots of a run do not overlap. */
  lemma SlotsApart(bin: nat, c: int, d: int)
    requires bin < BINS && c in Slots(bin) && d in Slots(bin) && c < d
    ensures c + BinSize(bin) <= d
  {
    BinFacts(bin);
    var e := SlotNumber(bin, BinElements(bin), c);
    var f := SlotNumber(bin, BinElements(bin), d);
    if e < f {
      MultipleStep(e, f, BinSize(bin));
    } else if f < e {
      MultipleStep(f, e, BinSize(bin));
    }
  }

  lemma {:induction false} SlotsCount(bin: nat, n: nat)
    requires bin < BINS
    ensures |SlotsBelow(bin, n)| == n
    decreases n
  {
    if n > 0 {
      BinFacts(bin);
      SlotsCount(bin, n - 1);
      var d := (n - 1) * BinSize(bin);
      if d in SlotsBelow(bin, n - 1) {
        var e := SlotNumber(bin, n - 1, d);
        MultipleStep(e, n - 1, BinSize(bin));
      }
    }
  }

  // ---------- addresses ----------

  /** ZEND_MM_ALIGNED_BASE and ZEND_MM_ALIGNED_OFFSET for chunks. */
  function Base(a: int): int {
    a - a % CHUNK_SIZE
  }

  function Offset(a: int): nat {
    a % CHUNK_SIZE
  }

  function Page(a: int): (p: nat)
    ensures p < PAGES
  {
    a % CHUNK_SIZE / PAGE_SIZE
  }

  /** Splitting an address built from a chunk and an offset gives them back. */
  lemma SplitAddress(b: int, off: int)
    requires b % CHUNK_SIZE == 0 && 0 <= off < CHUNK_SIZE
    ensures Base(b + off) == b && Offset(b + off) == off && Page(b + off) == off / PAGE_SIZE
  {
  }

  lemma JoinAddress(a: int)
    ensures a == Base(a) + Offset(a) && Base(a) % CHUNK_SIZE == 0 && 0 <= Offset(a) < CHUNK_SIZE
    ensures Offset(a) == 0 <==> a == Base(a)
  {
  }

  // ---------- blocks of one chunk ----------

  datatype Kind = Small(bin: nat) | Large(pages: nat) | Huge(bytes: nat)

  /** Usable size of a block. */
  function Usable(k: Kind): nat {
    match k
    case Small(bin) => BinSize(bin)
    case Large(pages) => pages * PAGE_SIZE
    case Huge(bytes) => bytes
  }

  /** Offset `off` of chunk c is a slot of class bin. The first page holds the chunk header, not blocks. */
  ghost predicate SlotIn(c: Chunk, owner: seq<int>, off: int, bin: nat)
    requires WellSized(c) && |owner| == PAGES
  {
    && 0 <= off < CHUNK_SIZE && bin < BINS
    && var s := owner[off / PAGE_SIZE];
       && 0 < s < PAGES
       && c.info[s].Srun? && c.info[s].bin == bin
       && off - s * PAGE_SIZE in Slots(bin)
  }

  /** Offset `off` of chunk c starts a large run of n pages. */
  ghost predicate LargeIn(c: Chunk, owner: seq<int>, off: int, n: nat)
    requires WellSized(c) && |owner| == PAGES
  {
    && 0 < off < CHUNK_SIZE && off % PAGE_SIZE == 0
    && owner[off / PAGE_SIZE] == off / PAGE_SIZE
    && c.info[off / PAGE_SIZE] == Lrun(n)
  }

  /** Every byte of a slot is on a page of its run. */
  lemma SlotPages(c: Chunk, owner: seq<int>, off: int, bin: nat, x: int)
    requires Tiled(c, owner) && SlotIn(c, owner, off, bin)
    requires off <= x < off + BinSize(bin)
    ensures 0 <= x < CHUNK_SIZE && owner[x / PAGE_SIZE] == owner[off / PAGE_SIZE]
  {
    var s := owner[off / PAGE_SIZE];
    SlotInside(bin, off - s * PAGE_SIZE);
    assert owner[s] == s;
    assert s <= x / PAGE_SIZE < s + BinPages(bin);
  }

  /** The slots of a run, by offset in the chunk. */
  lemma SlotOfRun(c: Chunk, owner: seq<int>, s: int, d: int)
    requires Tiled(c, owner) && 0 < s < PAGES && c.info[s].Srun? && d in Slots(c.info[s].bin)
    ensures SlotIn(c, owner, s * PAGE_SIZE + d, c.info[s].bin)
    ensures owner[(s * PAGE_SIZE + d) / PAGE_SIZE] == s
  {
    var bin := c.info[s].bin;
    BinFacts(bin);
    SlotInside(bin, d);
    assert owner[s] == s;
    var p := (s * PAGE_SIZE + d) / PAGE_SIZE;
    assert s <= p < s + BinPages(bin) && owner[p] == s;
  }

  lemma LargePages(c: Chunk, owner: seq<int>, off: int, n: nat, x: int)
    requires Tiled(c, owner) && LargeIn(c, owner, off, n)
    requires off <= x < off + n * PAGE_SIZE
    ensures 0 <= x < CHUNK_SIZE && owner[x / PAGE_SIZE] == off / PAGE_SIZE
  {
    var s := off / PAGE_SIZE;
    assert s <= x / PAGE_SIZE < s + n;
  }

  /** What the page map entry of a pointer's own page says, with continuation pages of small runs. */
  lemma PageInfoOfSlot(c: Chunk, owner: seq<int>, off: int, bin: nat)
    requires Tiled(c, owner) && SlotIn(c, owner, off, bin)
    ensures var p := off / PAGE_SIZE;
            var s := owner[p];
            && 0 < s <= p < s + BinPages(bin)
            && (if p == s then c.info[p].Srun? && c.info[p].bin == bin else c.info[p] == Nrun(bin, p - s))
  {
    var p := off / PAGE_SIZE;
    BinFacts(bin);
    SlotPages(c, owner, off, bin, off);
    assert owner[owner[p]] == owner[p];
  }
}
