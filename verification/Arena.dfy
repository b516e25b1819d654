// The two compiled forms of the arena allocator, both as one stack of blocks.
module Arena {
  // Allocation pushes a block, and releasing to a checkpoint restores exactly what was there when it was taken.

  datatype Block = Block(at: int, size: nat)

  /** ZEND_MM_ALIGNED_SIZE. */
  function Aligned(size: nat): (r: nat)
    ensures size <= r < size + 8 && r % 8 == 0
  {
    (size + 7) / 8 * 8
  }

  const HEADER := 24

  // ---------- bump arenas ----------

  /** A chain of arenas, newest first: [base, end) with the header at the base and everything below ptr used. */
  datatype Chain = End | Link(base: int, ptr: int, end: int, prev: Chain)

  /** [lo, hi) overlaps no arena of the chain. */
  predicate Clear(c: Chain, lo: int, hi: int) {
    match c
    case End => true
    case Link(base, _, end, prev) => (hi <= base || end <= lo) && Clear(prev, lo, hi)
  }

  predicate ChainOk(c: Chain) {
    match c
    case End => true
    case Link(base, ptr, end, prev) =>
      0 < base && base + HEADER <= ptr <= end && Clear(prev, base, end) && ChainOk(prev)
  }

  /** The blocks fill [lo, hi) one after the other. */
  predicate Fill(blocks: seq<Block>, lo: int, hi: int) {
    if blocks == [] then lo == hi
    else var last := blocks[|blocks| - 1]; last.at + last.size == hi && lo <= last.at && Fill(blocks[..|blocks| - 1], lo, last.at)
  }

  /** The blocks of each arena, newest arena first. */
  predicate Layers(c: Chain, layers: seq<seq<Block>>) {
    match c
    case End => layers == []
    case Link(base, ptr, _, prev) => layers != [] && Fill(layers[0], base + HEADER, ptr) && Layers(prev, layers[1..])
  }

  /** All blocks in the order of their allocation. */
  function Stack(layers: seq<seq<Block>>): seq<Block> {
    if layers == [] then [] else Stack(layers[1..]) + layers[0]
  }

  /** The chain d has grown from c, which has been allocated from and had arenas put in front; l and m are
      their blocks. */
  ghost predicate Above(c: Chain, l: seq<seq<Block>>, d: Chain, m: seq<seq<Block>>)
    decreases d
  {
    && c.Link? && l != [] && d.Link? && m != []
    && ((d == c.(ptr := d.ptr) && c.ptr <= d.ptr && m[1..] == l[1..] && l[0] <= m[0]) || Above(c, l, d.prev, m[1..]))
  }

  lemma {:induction false} FillInside(blocks: seq<Block>, lo: int, hi: int, i: nat)
    requires Fill(blocks, lo, hi) && i < |blocks|
    ensures lo <= blocks[i].at && blocks[i].at + blocks[i].size <= hi
  {
    if i < |blocks| - 1 {
      FillInside(blocks[..|blocks| - 1], lo, blocks[|blocks| - 1].at, i);
    }
  }

  lemma {:induction false} FillApart(blocks: seq<Block>, lo: int, hi: int, i: nat, j: nat)
    requires Fill(blocks, lo, hi) && i < j < |blocks|
    ensures blocks[i].at + blocks[i].size <= blocks[j].at
  {
    if j < |blocks| - 1 {
      FillApart(blocks[..|blocks| - 1], lo, blocks[|blocks| - 1].at, i, j);
    } else {
      FillInside(blocks[..|blocks| - 1], lo, blocks[|blocks| - 1].at, i);
    }
  }

  lemma FillMore(blocks: seq<Block>, lo: int, hi: int, size: nat)
    requires Fill(blocks, lo, hi) && lo <= hi
    ensures Fill(blocks + [Block(hi, size)], lo, hi + size)
  {
    assert (blocks + [Block(hi, size)])[..|blocks|] == blocks;
  }

  /** A block of an arena that overlaps [lo, hi) nowhere does not either. */
  lemma {:induction false} ClearBlocks(c: Chain, layers: seq<seq<Block>>, lo: int, hi: int, i: nat)
    requires ChainOk(c) && Layers(c, layers) && Clear(c, lo, hi) && i < |Stack(layers)|
    ensures var b := Stack(layers)[i]; hi <= b.at || b.at + b.size <= lo
    decreases c
  {
    var below := Stack(layers[1..]);
    if i < |below| {
      ClearBlocks(c.prev, layers[1..], lo, hi, i);
    } else {
      FillInside(layers[0], c.base + HEADER, c.ptr, i - |below|);
    }
  }

  /** All blocks of the stack are apart. */
  lemma {:induction false} StackApart(c: Chain, layers: seq<seq<Block>>, i: nat, j: nat)
    requires ChainOk(c) && Layers(c, layers) && i < j < |Stack(layers)|
    ensures var a, b := Stack(layers)[i], Stack(layers)[j]; a.at + a.size <= b.at || b.at + b.size <= a.at
    decreases c
  {
    var below := Stack(layers[1..]);
    if j < |below| {
      StackApart(c.prev, layers[1..], i, j);
    } else {
      FillInside(layers[0], c.base + HEADER, c.ptr, j - |below|);
      if i < |below| {
        ClearBlocks(c.prev, layers[1..], c.base, c.end, i);
      } else {
        FillApart(layers[0], c.base + HEADER, c.ptr, i - |below|, j - |below|);
      }
    }
  }

  // ---------- what allocation does to earlier states ----------

  lemma AboveBump(c: Chain, l: seq<seq<Block>>, d: Chain, m: seq<seq<Block>>, to: int, b: Block)
    requires Above(c, l, d, m) && d.ptr <= to
    ensures Above(c, l, d.(ptr := to), [m[0] + [b]] + m[1..])
  {
    assert ([m[0] + [b]] + m[1..])[1..] == m[1..];
  }

  lemma AbovePush(c: Chain, l: seq<seq<Block>>, d: Chain, m: seq<seq<Block>>, base: int, ptr: int, end: int, bs: seq<Block>)
    requires Above(c, l, d, m)
    ensures Above(c, l, Link(base, ptr, end, d), [bs] + m)
  {
    assert ([bs] + m)[1..] == m;
  }

  /** Growth is transitive: a later checkpoint may be released first. */
  lemma {:induction false} AboveTwice(c: Chain, l: seq<seq<Block>>, d: Chain, m: seq<seq<Block>>, e: Chain, n: seq<seq<Block>>)
    requires Above(c, l, d, m) && Above(d, m, e, n)
    ensures Above(c, l, e, n)
    decreases e
  {
    if !(e == d.(ptr := e.ptr) && d.ptr <= e.ptr && n[1..] == m[1..] && m[0] <= n[0]) {
      AboveTwice(c, l, d, m, e.prev, n[1..]);
    }
  }

  /** What was allocated at the checkpoint is still there, at the bottom of the stack. */
  lemma {:induction false} AboveKeeps(c: Chain, l: seq<seq<Block>>, d: Chain, m: seq<seq<Block>>)
    requires Above(c, l, d, m)
    ensures Stack(l) <= Stack(m)
    decreases d
  {
    if d == c.(ptr := d.ptr) && c.ptr <= d.ptr && m[1..] == l[1..] && l[0] <= m[0] {
      assert Stack(m) == Stack(l) + m[0][|l[0]|..];
    } else {
      AboveKeeps(c, l, d.prev, m[1..]);
    }
  }

  /** The half-open test: an arena that is clear of the checkpoint's arena, even one right next to it, does
      not contain the checkpoint. */
  lemma {:induction false} TestSkips(c: Chain, l: seq<seq<Block>>, d: Chain, m: seq<seq<Block>>)
    requires ChainOk(c) && ChainOk(d) && Above(c, l, d, m)
    ensures (d.base < c.ptr <= d.end) <==> d == c.(ptr := d.ptr) && c.ptr <= d.ptr && m[1..] == l[1..] && l[0] <= m[0]
  {
    if !(d == c.(ptr := d.ptr) && c.ptr <= d.ptr && m[1..] == l[1..] && l[0] <= m[0]) {
      ClearAbove(c, l, d.prev, m[1..], d.base, d.end);
    }
  }

  lemma {:induction false} ClearAbove(c: Chain, l: seq<seq<Block>>, d: Chain, m: seq<seq<Block>>, lo: int, hi: int)
    requires Above(c, l, d, m) && Clear(d, lo, hi)
    ensures hi <= c.base || c.end <= lo
    decreases d
  {
    if !(d == c.(ptr := d.ptr) && c.ptr <= d.ptr && m[1..] == l[1..] && l[0] <= m[0]) {
      ClearAbove(c, l, d.prev, m[1..], lo, hi);
    }
  }

  /** An address past all arenas of the chain. */
  function Beyond(c: Chain): (a: int)
    ensures 0 < a
  {
    match c
    case End => 1
    case Link(_, _, end, prev) => if Beyond(prev) < end then end else Beyond(prev)
  }

  lemma {:induction false} BeyondClear(c: Chain, lo: int, hi: int)
    requires Beyond(c) <= lo
    ensures Clear(c, lo, hi)
  {
    if c.Link? {
      BeyondClear(c.prev, lo, hi);
    }
  }

  class Bump {
    var arena: Chain
    ghost var layers: seq<seq<Block>>

    ghost predicate Valid()
      reads this
    {
      arena.Link? && ChainOk(arena) && Layers(arena, layers)
    }

    /** emalloc: memory anywhere outside the arenas. */
    method Emalloc(bytes: nat) returns (a: int)
      ensures 0 < a && Clear(arena, a, a + bytes)
    {
      a := *;
      if a <= 0 || !Clear(arena, a, a + bytes) {
        a := Beyond(arena);
        BeyondClear(arena, a, a + bytes);
      }
    }

    /** zend_arena_create. */
    constructor (base: int, size: nat)
      requires 0 < base && HEADER <= size
      ensures Valid() && Stack(layers) == []
      ensures arena == Link(base, base + HEADER, base + size, End)
    {
      arena := Link(base, base + HEADER, base + size, End);
      layers := [[]];
    }

    /** zend_arena_alloc: the next bytes of the arena, or the first of a new one. */
    method Alloc(size: nat) returns (p: int)
      requires Valid()
      modifies this
      ensures Valid() && Stack(layers) == Stack(old(layers)) + [Block(p, Aligned(size))]
      ensures forall c, l :: Above(c, l, old(arena), old(layers)) ==> Above(c, l, arena, layers)
      ensures var a, n := old(arena), Aligned(size);
              if n <= a.end - a.ptr then p == a.ptr && arena == a.(ptr := a.ptr + n)
              else && arena.prev == a && p == arena.base + HEADER && arena.ptr == p + n
                   && arena.end - arena.base == if a.end - a.base < n + HEADER then n + HEADER else a.end - a.base
    {
      var n := Aligned(size);
      p := arena.ptr;
      if n <= arena.end - p {
        FillMore(layers[0], arena.base + HEADER, p, n);
        forall c, l | Above(c, l, arena, layers)
          ensures Above(c, l, arena.(ptr := p + n), [layers[0] + [Block(p, n)]] + layers[1..])
        {
          AboveBump(c, l, arena, layers, p + n, Block(p, n));
        }
        BumpStack(layers, Block(p, n));
        arena := arena.(ptr := p + n);
        layers := [layers[0] + [Block(p, n)]] + layers[1..];
      } else {
        var bytes := if n + HEADER > arena.end - arena.base then n + HEADER else arena.end - arena.base;
        var base := Emalloc(bytes);
        p := base + HEADER;
        FillMore([], base + HEADER, p, n);
        forall c, l | Above(c, l, arena, layers)
          ensures Above(c, l, Link(base, p + n, base + bytes, arena), [[Block(p, n)]] + layers)
        {
          AbovePush(c, l, arena, layers, base, p + n, base + bytes, [Block(p, n)]);
        }
        assert [] + [Block(p, n)] == [Block(p, n)];
        assert ([[Block(p, n)]] + layers)[1..] == layers;
        arena := Link(base, p + n, base + bytes, arena);
        layers := [[Block(p, n)]] + layers;
      }
    }

    /** zend_arena_checkpoint. */
    method Checkpoint() returns (p: int)
      requires Valid()
      ensures p == arena.ptr && Above(arena, layers, arena, layers)
    {
      p := arena.ptr;
    }

    /** zend_arena_release to a checkpoint taken when the chain was c with the blocks l. The arenas in front of it
        are given back, newest first. */
    method Release(checkpoint: int, ghost c: Chain, ghost l: seq<seq<Block>>) returns (freed: seq<int>)
      requires Valid() && Above(c, l, arena, layers) && checkpoint == c.ptr && ChainOk(c) && Layers(c, l)
      modifies this
      ensures Valid() && arena == c && layers == l
      ensures freed + Bases(c) == Bases(old(arena))
    {
      freed := [];
      TestSkips(c, l, arena, layers);
      while checkpoint > arena.end || checkpoint <= arena.base
        invariant Valid() && Above(c, l, arena, layers)
        invariant (arena.base < checkpoint <= arena.end) <==>
                  arena == c.(ptr := arena.ptr) && c.ptr <= arena.ptr && layers[1..] == l[1..] && l[0] <= layers[0]
        invariant freed + Bases(arena) == Bases(old(arena))
        decreases arena
      {
        freed := freed + [arena.base];
        arena := arena.prev;
        layers := layers[1..];
        TestSkips(c, l, arena, layers);
      }
      arena := arena.(ptr := checkpoint);
      layers := l;
    }

    /** zend_arena_destroy: all arenas of the chain are given back, newest first. */
    method Destroy() returns (freed: seq<int>)
      requires Valid()
      modifies this
      ensures arena.End? && freed == Bases(old(arena))
      ensures forall i, j :: 0 <= i < j < |freed| ==> freed[i] != freed[j]
    {
      forall i, j | 0 <= i < j < |Bases(arena)| ensures Bases(arena)[i] != Bases(arena)[j] {
        BasesDistinct(arena, i, j);
      }
      freed := [];
      while arena.Link?
        invariant freed + Bases(arena) == Bases(old(arena))
        decreases arena
      {
        freed := freed + [arena.base];
        arena := arena.prev;
      }
    }
  }

  /** The arenas of the chain, newest first. */
  function Bases(c: Chain): seq<int> {
    if c.End? then [] else [c.base] + Bases(c.prev)
  }

  /** No arena is in the chain twice. */
  lemma {:induction false} BasesDistinct(c: Chain, i: nat, j: nat)
    requires ChainOk(c) && i < j < |Bases(c)|
    ensures Bases(c)[i] != Bases(c)[j]
    decreases c
  {
    if i > 0 {
      BasesDistinct(c.prev, i - 1, j - 1);
    } else {
      BaseOutside(c.prev, c.base, c.end, j - 1);
    }
  }

  lemma {:induction false} BaseOutside(c: Chain, lo: int, hi: int, j: nat)
    requires ChainOk(c) && Clear(c, lo, hi) && lo < hi && j < |Bases(c)|
    ensures Bases(c)[j] != lo
    decreases c
  {
    if j > 0 {
      BaseOutside(c.prev, lo, hi, j - 1);
    }
  }

  lemma BumpStack(layers: seq<seq<Block>>, b: Block)
    requires layers != []
    ensures Stack([layers[0] + [b]] + layers[1..]) == Stack(layers) + [b]
  {
    assert ([layers[0] + [b]] + layers[1..])[1..] == layers[1..];
  }

  // ---------- tracked arenas ----------

  const TRACKED_SIZE := 1000

  /** A chain of arrays of block addresses, newest first. Each block is an allocation of its own. */
  datatype Tracks = NoTrack | Track(base: int, slots: seq<int>, prev: Tracks)

  /** Where the next slot of an array is. */
  function SlotAddress(t: Tracks): int
    requires t.Track?
  {
    t.base + HEADER + 8 * |t.slots|
  }

  const TRACK_BYTES := HEADER + 8 * TRACKED_SIZE

  predicate TrackClear(t: Tracks, lo: int, hi: int) {
    match t
    case NoTrack => true
    case Track(base, _, prev) => (hi <= base || base + TRACK_BYTES <= lo) && TrackClear(prev, lo, hi)
  }

  predicate TracksOk(t: Tracks) {
    match t
    case NoTrack => true
    case Track(base, slots, prev) =>
      0 < base && |slots| <= TRACKED_SIZE && TrackClear(prev, base, base + TRACK_BYTES) && TracksOk(prev)
  }

  /** All blocks in the order of their allocation. */
  function Blocks(t: Tracks): seq<int> {
    match t
    case NoTrack => []
    case Track(_, slots, prev) => Blocks(prev) + slots
  }

  /** The arrays of the chain, newest first. */
  function TrackBases(t: Tracks): seq<int> {
    match t
    case NoTrack => []
    case Track(base, _, prev) => [base] + TrackBases(prev)
  }

  function Depth(t: Tracks): nat {
    match t
    case NoTrack => 0
    case Track(_, _, prev) => 1 + Depth(prev)
  }

  /** d has grown from c. */
  ghost predicate Grown(c: Tracks, d: Tracks)
    decreases d
  {
    c.Track? && d.Track? && ((d == c.(slots := d.slots) && c.slots <= d.slots) || Grown(c, d.prev))
  }

  function Reverse(s: seq<int>): (r: seq<int>)
    ensures |r| == |s|
  {
    if s == [] then [] else [s[|s| - 1]] + Reverse(s[..|s| - 1])
  }

  lemma {:induction false} GrownKeeps(c: Tracks, d: Tracks)
    requires Grown(c, d)
    ensures Blocks(c) <= Blocks(d)
    decreases d
  {
    if d == c.(slots := d.slots) && c.slots <= d.slots {
      assert Blocks(d) == Blocks(c) + d.slots[|c.slots|..];
    } else {
      GrownKeeps(c, d.prev);
    }
  }

  lemma {:induction false} TrackApart(c: Tracks, d: Tracks, lo: int)
    requires TracksOk(c) && Grown(c, d) && TrackClear(d, lo, lo + TRACK_BYTES)
    ensures lo + TRACK_BYTES <= c.base || c.base + TRACK_BYTES <= lo
    decreases d
  {
    if !(d == c.(slots := d.slots) && c.slots <= d.slots) {
      TrackApart(c, d.prev, lo);
    }
  }

  /** The next slot of an array is where it was at the checkpoint only in that array, with as many slots. */
  lemma SlotIsCheckpoint(c: Tracks, d: Tracks)
    requires TracksOk(c) && TracksOk(d) && Grown(c, d)
    ensures SlotAddress(d) == SlotAddress(c) <==> d == c
  {
    if !(d == c.(slots := d.slots) && c.slots <= d.slots) {
      TrackApart(c, d.prev, d.base);
    }
  }

  lemma {:induction false} GrownDepth(c: Tracks, d: Tracks)
    requires Grown(c, d)
    ensures Depth(c) <= Depth(d)
    decreases d
  {
    if !(d == c.(slots := d.slots) && c.slots <= d.slots) {
      GrownDepth(c, d.prev);
    }
  }

  /** Taking back the last block. */
  lemma TakeBack(c: Tracks, d: Tracks)
    requires Grown(c, d) && d != c && d.slots != []
    ensures var e := d.(slots := d.slots[..|d.slots| - 1]);
            && Grown(c, e) && Blocks(d) == Blocks(e) + [d.slots[|d.slots| - 1]]
  {
    GrownDepth(c, d);
    if d.prev.Track? && Grown(c, d.prev) {
      GrownDepth(c, d.prev);
    }
    var e := d.(slots := d.slots[..|d.slots| - 1]);
    assert d.slots == e.slots + [d.slots[|d.slots| - 1]];
  }

  /** The blocks of d beyond the first n, last one first. */
  function Undo(d: Tracks, n: nat): seq<int> {
    if n <= |Blocks(d)| then Reverse(Blocks(d)[n..]) else []
  }

  lemma UndoOne(d: Tracks, e: Tracks, x: int, n: nat)
    requires Blocks(d) == Blocks(e) + [x] && n <= |Blocks(e)|
    ensures Undo(d, n) == [x] + Undo(e, n)
  {
    assert Blocks(d)[n..] == Blocks(e)[n..] + [x];
    assert (Blocks(e)[n..] + [x])[..|Blocks(e)| - n] == Blocks(e)[n..];
  }

  function BeyondTracks(t: Tracks): (a: int)
    ensures 0 < a
  {
    match t
    case NoTrack => 1
    case Track(base, _, prev) => if BeyondTracks(prev) < base + TRACK_BYTES then base + TRACK_BYTES else BeyondTracks(prev)
  }

  lemma {:induction false} BeyondTracksClear(t: Tracks, lo: int, hi: int)
    requires BeyondTracks(t) <= lo
    ensures TrackClear(t, lo, hi)
  {
    if t.Track? {
      BeyondTracksClear(t.prev, lo, hi);
    }
  }

  class Tracked {
    var arena: Tracks
    /** The blocks given back, in order. */
    ghost var freed: seq<int>

    ghost predicate Valid()
      reads this
    {
      arena.Track? && TracksOk(arena)
    }

    constructor (base: int)
      requires 0 < base
      ensures Valid() && Blocks(arena) == [] && freed == []
    {
      arena := Track(base, [], NoTrack);
      freed := [];
    }

    /** zend_arena_alloc: an allocation of its own, recorded in the array or in a new one. */
    method Alloc(block: int) returns (p: int)
      requires Valid()
      modifies this`arena
      ensures Valid() && p == block && Blocks(arena) == Blocks(old(arena)) + [p]
      ensures forall c :: Grown(c, old(arena)) ==> Grown(c, arena)
      ensures if |old(arena).slots| < TRACKED_SIZE then arena == old(arena).(slots := old(arena).slots + [p])
              else arena.prev == old(arena) && arena.slots == [p]
    {
      if |arena.slots| == TRACKED_SIZE {
        var base := *;
        if base <= 0 || !TrackClear(arena, base, base + TRACK_BYTES) {
          base := BeyondTracks(arena);
          BeyondTracksClear(arena, base, base + TRACK_BYTES);
        }
        arena := Track(base, [], arena);
      }
      p := block;
      arena := arena.(slots := arena.slots + [p]);
    }

    /** The last block of the newest array is given back. */
    method PopSlot(ghost c: Tracks)
      requires Valid() && Grown(c, arena) && TracksOk(c) && arena.slots != [] && SlotAddress(arena) != SlotAddress(c)
      modifies this
      ensures Valid() && Grown(c, arena) && Depth(arena) == Depth(old(arena)) && |arena.slots| == |old(arena).slots| - 1
      ensures TrackBases(arena) == TrackBases(old(arena))
      ensures freed + Undo(arena, |Blocks(c)|) == old(freed) + Undo(old(arena), |Blocks(c)|)
    {
      SlotIsCheckpoint(c, arena);
      TakeBack(c, arena);
      var last := |arena.slots| - 1;
      ghost var less := arena.(slots := arena.slots[..last]);
      GrownKeeps(c, less);
      UndoOne(arena, less, arena.slots[last], |Blocks(c)|);
      assert freed + ([arena.slots[last]] + Undo(less, |Blocks(c)|)) == freed + [arena.slots[last]] + Undo(less, |Blocks(c)|);
      freed := freed + [arena.slots[last]];
      arena := arena.(slots := arena.slots[..last]);
    }

    /** zend_arena_release to a checkpoint taken when the chain was c: the blocks allocated since are given
        back, last one first, and the arrays made since. */
    method Release(checkpoint: int, ghost c: Tracks) returns (arrays: seq<int>)
      requires Valid() && Grown(c, arena) && TracksOk(c) && checkpoint == SlotAddress(c)
      modifies this
      ensures Valid() && arena == c
      ensures Blocks(c) <= Blocks(old(arena)) && freed == old(freed) + Undo(old(arena), |Blocks(c)|)
      ensures arrays + TrackBases(c) == TrackBases(old(arena))
    {
      arrays := [];
      GrownKeeps(c, arena);
      SlotIsCheckpoint(c, arena);
      while SlotAddress(arena) != checkpoint
        invariant Valid() && Grown(c, arena) && (SlotAddress(arena) == checkpoint <==> arena == c)
        invariant freed + Undo(arena, |Blocks(c)|) == old(freed) + Undo(old(arena), |Blocks(c)|)
        invariant arrays + TrackBases(arena) == TrackBases(old(arena))
        decreases Depth(arena), |arena.slots|
      {
        if arena.slots == [] {
          arrays := arrays + [arena.base];
          assert Blocks(arena) == Blocks(arena.prev);
          arena := arena.prev;
        } else {
          PopSlot(c);
        }
        SlotIsCheckpoint(c, arena);
      }
      assert Blocks(c)[|Blocks(c)|..] == [];
    }

    /** The blocks of one array, first one first. */
    method FreeSlots(slots: seq<int>)
      modifies this`freed
      ensures freed == old(freed) + slots
    {
      var p := 0;
      while p < |slots|
        invariant 0 <= p <= |slots| && freed == old(freed) + slots[..p]
      {
        freed := freed + [slots[p]];
        p := p + 1;
      }
      assert slots[..p] == slots;
    }

    /** zend_arena_destroy: every block is given back exactly once. */
    method Destroy()
      requires Valid()
      modifies this
      ensures arena.NoTrack? && multiset(freed) == multiset(old(freed)) + multiset(Blocks(old(arena)))
    {
      while arena.Track?
        invariant multiset(freed) + multiset(Blocks(arena)) == multiset(old(freed)) + multiset(Blocks(old(arena)))
        decreases arena
      {
        FreeSlots(arena.slots);
        arena := arena.prev;
      }
    }
  }
}
