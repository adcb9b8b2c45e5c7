/** Word-addressed kernel memory and the encoding of dlmalloc chunk headers. */
module Memory {
  /** The head of a marker: both in-use bits and the size of a word. */
  const FENCEPOST_HEAD := 11

  /** One entry per 8-byte word, keyed by byte address. Unwritten words read as zero. */
  type Mem = map<int, int>

  /** Aligned to MALLOC_ALIGNMENT. */
  ghost predicate A16(x: int) { x % 16 == 0 }

  lemma Diff16(x: int, y: int)
    requires A16(x) && A16(y)
    ensures A16(x - y) && A16(x + y)
  {
  }

  lemma Mod16(x: int, y: int, z: int)
    requires A16(x) && A16(y) && A16(z)
    ensures A16(x + y - z)
  {
  }

  function Rd(m: Mem, a: int): int { if a in m then m[a] else 0 }

  /** A chunk as the boundary tags describe it. */
  datatype Chunk = Chunk(size: int, cinuse: bool, pinuse: bool)

  function HeadWord(c: Chunk): int {
    c.size + (if c.cinuse then 2 else 0) + (if c.pinuse then 1 else 0)
  }

  function ChunkSize(head: int): int { head - head % 8 }

  predicate CInuse(head: int) { head % 4 >= 2 }

  predicate PInuse(head: int) { head % 2 == 1 }

  lemma Mod8(k: int, r: int)
    requires 0 <= r < 8
    ensures (8 * k + r) % 8 == r
  {
  }

  lemma Mod4(k: int, r: int)
    requires 0 <= r < 4
    ensures (4 * k + r) % 4 == r
  {
  }

  lemma Mod2(k: int, r: int)
    requires 0 <= r < 2
    ensures (2 * k + r) % 2 == r
  {
  }

  /** The header macros read back the size and both in-use bits that were or'ed together. */
  lemma HeadDecodes(c: Chunk)
    requires A16(c.size)
    ensures ChunkSize(HeadWord(c)) == c.size
    ensures CInuse(HeadWord(c)) == c.cinuse
    ensures PInuse(HeadWord(c)) == c.pinuse
  {
    var k, r := c.size / 16, HeadWord(c) - c.size;
    assert HeadWord(c) == 16 * k + r;
    Mod8(2 * k, r);
    Mod4(4 * k, r);
    Mod2(if r < 2 then 8 * k else 8 * k + 1, if r < 2 then r else r - 2);
  }

  /** head |= PINUSE_BIT */
  function SetPinuse(head: int): int { if PInuse(head) then head else head + 1 }

  /** head &= ~PINUSE_BIT */
  function ClearPinuse(head: int): int { if PInuse(head) then head - 1 else head }

  lemma PinuseWrites(c: Chunk)
    requires A16(c.size)
    ensures SetPinuse(HeadWord(c)) == HeadWord(c.(pinuse := true))
    ensures ClearPinuse(HeadWord(c)) == HeadWord(c.(pinuse := false))
  {
    HeadDecodes(c);
  }

  /** head & PINUSE_BIT */
  function PinuseBit(head: int): int { if PInuse(head) then 1 else 0 }

  lemma PinuseSet(w: int)
    ensures PInuse(SetPinuse(w)) && PinuseBit(SetPinuse(w)) == 1
  {
  }
}
