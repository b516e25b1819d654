// zend_mm_chunk_alloc_int: an aligned region from an operating system that maps regions anywhere.
module AlignedMap {
  // Addresses and sizes are counted in pages of the operating system.

  predicate Inside(p: int, a: int, n: int) {
    a <= p < a + n
  }

  function Region(a: int, n: int): set<int> {
    set p | a <= p < a + n && Inside(p, a, n)
  }

  class System {
    var mapped: set<int>
    ghost var refusals: nat

    constructor ()
      ensures mapped == {} && refusals == 0
    {
      mapped, refusals := {}, 0;
    }

    /** mmap: a region apart from all others, or 0. */
    method Map(n: nat) returns (p: int)
      modifies this
      ensures refusals == old(refusals) + if p == 0 then 1 else 0
      ensures p == 0 ==> mapped == old(mapped)
      ensures p != 0 ==> 0 < p && Region(p, n) !! old(mapped) && mapped == old(mapped) + Region(p, n)
    {
      p := *;
      if 0 < p && Region(p, n) !! mapped {
        mapped := mapped + Region(p, n);
      } else {
        p := 0;
        refusals := refusals + 1;
      }
    }

    /** munmap: whatever is mapped there is not any more. */
    method Unmap(a: int, n: nat)
      modifies this`mapped
      ensures mapped == old(mapped) - Region(a, n)
    {
      mapped := mapped - Region(a, n);
    }

    /** A region at a multiple of the alignment, if need be cut out of a longer one. A refusal leaves everything
        mapped, except that the code does not test whether the longer region was refused: it unmaps what is behind
        the region it did not get, and that is harmless exactly when nothing is mapped there. */
    method ChunkAllocInt(size: nat, alignment: nat) returns (p: int, ghost refusedLonger: bool)
      requires 1 <= size && 1 <= alignment
      modifies this
      ensures p == 0 <==> refusals > old(refusals)
      ensures p != 0 ==> p % alignment == 0 && Region(p, size) !! old(mapped) && mapped == old(mapped) + Region(p, size)
      ensures p == 0 && !refusedLonger ==> mapped == old(mapped)
      ensures refusedLonger ==> p == 0 && mapped == old(mapped) - Region(size, alignment - 1)
      ensures refusedLonger ==> (mapped == old(mapped) <==> old(mapped) !! Region(size, alignment - 1))
    {
      refusedLonger := false;
      p := Map(size);
      if p == 0 || p % alignment == 0 {
        return;
      }
      Unmap(p, size);
      assert mapped == old(mapped);
      p := Map(size + alignment - 1);
      refusedLonger := p == 0;
      p := Trim(p, size, alignment);
    }

    /** The pages in front of the first aligned one are given back, and those behind the region. */
    method Trim(a: int, size: nat, alignment: nat) returns (p: int)
      requires 0 <= a && 1 <= alignment
      modifies this`mapped
      ensures p % alignment == 0 && a <= p < a + alignment
      ensures mapped == old(mapped) - Region(a, p - a) - Region(p + size, a + alignment - 1 - p)
    {
      var offset, rest := a % alignment, alignment;
      p := a;
      if offset != 0 {
        offset := alignment - offset;
        Unmap(a, offset);
        NextMultiple(a, alignment);
        p := a + offset;
        rest := rest - offset;
      }
      if rest > 1 {
        Unmap(p + size, rest - 1);
      }
    }
  }

  lemma Scaled(k: int, n: nat)
    ensures 1 <= k ==> n <= k * n
    ensures k <= -1 ==> k * n + n <= 0
  {
  }

  lemma NextMultiple(a: nat, n: nat)
    requires 1 <= n && a % n != 0
    ensures (a + (n - a % n)) % n == 0
  {
    var b := a + (n - a % n);
    var k := a / n + 1 - b / n;
    assert a == n * (a / n) + a % n && b == n * (b / n) + b % n;
    assert b == n * (a / n + 1);
    assert k * n == b % n;
    Scaled(k, n);
  }
}
