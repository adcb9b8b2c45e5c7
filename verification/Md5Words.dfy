/** The 32-bit words of MD5 as bytes, low-order byte first. */
module Md5Words {
  import opened Octets

  type Word = bv32

  /** The cast of a byte to 32 bits. */
  function Wide(x: Byte): Word { x as bv32 }

  function Narrow(x: Byte): bv8 { x as bv8 }

  /** get_u32_le: word i of the bytes. */
  function WordAt(data: seq<Byte>, i: nat): Word
    requires 4 * i + 4 <= |data|
  {
    Wide(data[4 * i]) | (Wide(data[4 * i + 1]) << 8) | (Wide(data[4 * i + 2]) << 16) | (Wide(data[4 * i + 3]) << 24)
  }

  /** to_le_bytes. */
  function WordBytes(w: Word): (s: seq<Byte>)
    ensures |s| == 4
  {
    [(w & 0xff) as bv8 as int, ((w >> 8) & 0xff) as bv8 as int, ((w >> 16) & 0xff) as bv8 as int, ((w >> 24) & 0xff) as bv8 as int]
  }

  lemma SameWord(a: bv8, b: bv8, c: bv8, d: bv8, w: Word, x: Word, y: Word, z: Word)
    requires w == a as bv32 && x == b as bv32 && y == c as bv32 && z == d as bv32
    ensures w | (x << 8) | (y << 16) | (z << 24) == (a as bv32) | ((b as bv32) << 8) | ((c as bv32) << 16) | ((d as bv32) << 24)
  {
  }

  lemma FourValue(a: bv8, b: bv8, c: bv8, d: bv8)
    ensures ((a as bv32) | ((b as bv32) << 8) | ((c as bv32) << 16) | ((d as bv32) << 24)) as int
         == a as int + 256 * (b as int) + 65536 * (c as int) + 0x100_0000 * (d as int)
  {
  }

  lemma JoinedValue(a: bv8, b: bv8, c: bv8, d: bv8, w: Word, x: Word, y: Word, z: Word)
    requires w == a as bv32 && x == b as bv32 && y == c as bv32 && z == d as bv32
    ensures (w | (x << 8) | (y << 16) | (z << 24)) as int == a as int + 256 * (b as int) + 65536 * (c as int) + 0x100_0000 * (d as int)
  {
    SameWord(a, b, c, d, w, x, y, z);
    FourValue(a, b, c, d);
  }

  lemma Next(b: bv8)
    requires b != 255
    ensures (b + 1) as int == b as int + 1
  {
  }

  lemma {:induction false} ByteOf(x: Byte) returns (b: bv8)
    ensures b as int == x
  {
    if x == 0 {
      b := 0;
    } else {
      var c := ByteOf(x - 1);
      Next(c);
      b := c + 1;
    }
  }

  lemma Back(b: bv8)
    ensures Narrow(b as int) == b
  {
  }

  lemma ByteValue(x: Byte)
    ensures Narrow(x) as int == x
  {
    hide Narrow;
    var b := ByteOf(x);
    Back(b);
  }

  lemma ByteWide(x: Byte)
    ensures Narrow(x) as bv32 == Wide(x)
  {
  }

  lemma FourBytes(s: seq<Byte>, a: int, b: int, c: int, d: int)
    requires s == [a, b, c, d]
    ensures LeValue(s) == a + 256 * b + 65536 * c + 0x100_0000 * d
  {
    assert s[1..] == [b, c, d] && [b, c, d][1..] == [c, d] && [c, d][1..] == [d] && [d][1..] == [];
    assert LeValue([d]) == d && LeValue([c, d]) == c + 256 * d && LeValue([b, c, d]) == b + 256 * c + 65536 * d;
  }

  lemma WideValue(a: Byte, b: Byte, c: Byte, d: Byte)
    ensures (Wide(a) | (Wide(b) << 8) | (Wide(c) << 16) | (Wide(d) << 24)) as int == a as int + 256 * (b as int) + 65536 * (c as int) + 0x100_0000 * (d as int)
  {
    hide Wide, Narrow;
    ByteWide(a);
    ByteWide(b);
    ByteWide(c);
    ByteWide(d);
    JoinedValue(Narrow(a), Narrow(b), Narrow(c), Narrow(d), Wide(a), Wide(b), Wide(c), Wide(d));
    ByteValue(a);
    ByteValue(b);
    ByteValue(c);
    ByteValue(d);
  }

  /** Section 2: the value of a word read from four bytes is theirs, low-order byte first. */
  lemma WordValue(data: seq<Byte>, i: nat)
    requires 4 * i + 4 <= |data|
    ensures WordAt(data, i) as int == LeValue(data[4 * i..4 * i + 4])
  {
    hide LeValue, Wide;
    var a, b, c, d := data[4 * i], data[4 * i + 1], data[4 * i + 2], data[4 * i + 3];
    WideValue(a, b, c, d);
    FourBytes(data[4 * i..4 * i + 4], a, b, c, d);
  }

  lemma Parted(w: Word, a: bv8, b: bv8, c: bv8, d: bv8)
    requires a == (w & 0xff) as bv8 && b == ((w >> 8) & 0xff) as bv8 && c == ((w >> 16) & 0xff) as bv8 && d == ((w >> 24) & 0xff) as bv8
    ensures w == (a as bv32) | ((b as bv32) << 8) | ((c as bv32) << 16) | ((d as bv32) << 24)
  {
  }

  /** Section 3.5: the bytes a word is output as have its value, low-order byte first. */
  lemma BytesValue(w: Word)
    ensures LeValue(WordBytes(w)) == w as int
  {
    hide LeValue;
    var a, b, c, d := (w & 0xff) as bv8, ((w >> 8) & 0xff) as bv8, ((w >> 16) & 0xff) as bv8, ((w >> 24) & 0xff) as bv8;
    Parted(w, a, b, c, d);
    FourValue(a, b, c, d);
    FourBytes(WordBytes(w), a as int, b as int, c as int, d as int);
  }
}
