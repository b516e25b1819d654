/** The 32-bit page map entries and what the allocator's accessors read back from them. */
module PageCodec {
  import opened Chunks

  const IS_LRUN: bv32 := 0x40000000
  const IS_SRUN: bv32 := 0x80000000
  const LRUN_PAGES_MASK: bv32 := 0x000003ff
  const BIN_MASK: bv32 := 0x0000001f
  const COUNTER_MASK: bv32 := 0x01ff0000

  /** The number n as a 32-bit word. */
  function Word32(n: nat): bv32 {
    if n == 0 then 0 else Word32(n - 1) + 1
  }

  // ---------- the words the code builds ----------

  function LrunWord(count: bv32): bv32 {
    IS_LRUN | count
  }

  function SrunWord(bin: bv32): bv32 {
    IS_SRUN | bin
  }

  function SrunExWord(bin: bv32, count: bv32): bv32 {
    IS_SRUN | bin | (count << 16)
  }

  function NrunWord(bin: bv32, offset: bv32): bv32 {
    IS_SRUN | IS_LRUN | bin | (offset << 16)
  }

  function Encode(i: PageInfo): bv32
    requires Encodable(i)
  {
    match i
    case Frun => 0
    case Lrun(pages) => LrunWord(Word32(pages))
    case Srun(bin, 0) => SrunWord(Word32(bin))
    case Srun(bin, counter) => SrunExWord(Word32(bin), Word32(counter))
    case Nrun(bin, offset) => NrunWord(Word32(bin), Word32(offset))
  }

  /** Every field fits its bits. */
  predicate Encodable(i: PageInfo) {
    match i
    case Frun => true
    case Lrun(pages) => pages < 1024
    case Srun(bin, counter) => bin < 32 && counter < 512
    case Nrun(bin, offset) => bin < 32 && offset < 512
  }

  /** The order of the tests in the code: SRUN first, then LRUN inside it for a continuation page. */
  function Decode(x: bv32): PageInfo {
    if x & IS_SRUN != 0 then
      var bin := (x & BIN_MASK) as nat;
      var field := ((x & COUNTER_MASK) >> 16) as nat;
      if x & IS_LRUN != 0 then Nrun(bin, field) else Srun(bin, field)
    else if x & IS_LRUN != 0 then
      Lrun((x & LRUN_PAGES_MASK) as nat)
    else
      Frun
  }

  // ---------- bit fields ----------

  lemma LrunFields(n: bv32)
    requires n < 1024
    ensures LrunWord(n) & IS_SRUN == 0 && LrunWord(n) & IS_LRUN != 0 && LrunWord(n) & LRUN_PAGES_MASK == n
  {
  }

  lemma SrunFields(b: bv32)
    requires b < 32
    ensures SrunWord(b) & IS_SRUN != 0 && SrunWord(b) & IS_LRUN == 0 && SrunWord(b) & BIN_MASK == b
    ensures (SrunWord(b) & COUNTER_MASK) >> 16 == 0
  {
  }

  /** The counter field keeps nine bits: 512 reads back as 0 and nothing else is disturbed. */
  lemma SrunExFields(b: bv32, n: bv32)
    requires b < 32 && n < 1024
    ensures SrunExWord(b, n) & IS_SRUN != 0 && SrunExWord(b, n) & IS_LRUN == 0 && SrunExWord(b, n) & BIN_MASK == b
    ensures (SrunExWord(b, n) & COUNTER_MASK) >> 16 == n & 511
  {
  }

  lemma NrunFields(b: bv32, n: bv32)
    requires b < 32 && n < 512
    ensures NrunWord(b, n) & IS_SRUN != 0 && NrunWord(b, n) & IS_LRUN != 0 && NrunWord(b, n) & BIN_MASK == b
    ensures (NrunWord(b, n) & COUNTER_MASK) >> 16 == n
  {
  }

  lemma ZeroFields()
    ensures 0 & IS_SRUN == 0 && 0 & IS_LRUN == 0
  {
  }

  // ---------- going to 32 bits and back ----------

  lemma AddOne(b: bv32)
    requires b as nat < 1024
    ensures (b + 1) as nat == b as nat + 1
  {
  }

  lemma {:induction false} ThereAndBack(n: nat)
    requires n < 1024
    ensures Word32(n) as nat == n
  {
    if n > 0 {
      ThereAndBack(n - 1);
      AddOne(Word32(n - 1));
    }
  }

  lemma Below1024(b: bv32)
    requires b as nat < 1024
    ensures b < 1024
  {
  }

  lemma Below512Value(b: bv32)
    requires b as nat < 512
    ensures b < 512
  {
  }

  lemma Below32(b: bv32)
    requires b as nat < 32
    ensures b < 32
  {
  }

  lemma Fits(n: nat)
    requires n < 1024
    ensures Word32(n) as nat == n && Word32(n) < 1024
    ensures n < 512 ==> Word32(n) < 512
    ensures n < 32 ==> Word32(n) < 32
  {
    var b := Word32(n);
    ThereAndBack(n);
    Below1024(b);
    if n < 512 {
      Below512Value(b);
    }
    if n < 32 {
      Below32(b);
    }
  }

  lemma LowNine(n: bv32, k: nat)
    requires k <= 512 && n as nat == k
    ensures (n & 511) as nat == k % 512
  {
    if k < 512 {
      assert n < 512;
      Below512(n);
    } else {
      assert n == 512;
    }
  }

  lemma Below512(n: bv32)
    requires n < 512
    ensures n & 511 == n
  {
  }

  // ---------- decoding each form ----------

  lemma DecodeLrun(n: bv32)
    requires n < 1024
    ensures Decode(LrunWord(n)) == Lrun(n as nat)
  {
    LrunFields(n);
  }

  lemma DecodeSrun(b: bv32)
    requires b < 32
    ensures Decode(SrunWord(b)) == Srun(b as nat, 0)
  {
    SrunFields(b);
  }

  lemma DecodeSrunEx(b: bv32, n: bv32)
    requires b < 32 && n < 1024
    ensures Decode(SrunExWord(b, n)) == Srun(b as nat, (n & 511) as nat)
  {
    SrunExFields(b, n);
  }

  lemma DecodeNrun(b: bv32, n: bv32)
    requires b < 32 && n < 512
    ensures Decode(NrunWord(b, n)) == Nrun(b as nat, n as nat)
  {
    NrunFields(b, n);
  }

  // ---------- round trips ----------

  /** Every page map entry the allocator writes is read back field by field. */
  lemma DecodeEncode(i: PageInfo)
    requires Encodable(i)
    ensures Decode(Encode(i)) == i
  {
    match i
    case Frun =>
      ZeroFields();
    case Lrun(pages) =>
      Fits(pages);
      DecodeLrun(Word32(pages));
    case Srun(bin, counter) =>
      Fits(bin);
      if counter == 0 {
        DecodeSrun(Word32(bin));
      } else {
        Fits(counter);
        Below512(Word32(counter));
        Widen(Word32(counter));
        DecodeSrunEx(Word32(bin), Word32(counter));
      }
    case Nrun(bin, offset) =>
      Fits(bin);
      Fits(offset);
      DecodeNrun(Word32(bin), Word32(offset));
  }

  lemma Widen(n: bv32)
    requires n < 512
    ensures n < 1024
  {
  }

  /** Writing a free counter of up to 512 leaves its value modulo 512: the 512 blocks of a bin-0 run read
      back as a counter of 0, for every other bin the counter is exact. */
  lemma CounterWrap(bin: nat, count: nat)
    requires bin < 32 && count <= 512
    ensures Decode(SrunExWord(Word32(bin), Word32(count))) == SrunEx(bin, count)
  {
    Fits(bin);
    Fits(count);
    DecodeSrunEx(Word32(bin), Word32(count));
    LowNine(Word32(count), count);
  }
}
