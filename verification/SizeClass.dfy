/** Tree-bin size classes: compute_tree_index and the ranges it must select. */
module SizeClass {
  const NTREEBINS := 32

  function Pow2(n: nat): (r: int)
    ensures r >= 1
  {
    if n == 0 then 1 else 2 * Pow2(n - 1)
  }

  /** The position of the highest set bit: 31 - __builtin_clz(x). */
  function Log2(x: int): (k: nat)
    requires x >= 1
    ensures Pow2(k) <= x < Pow2(k + 1)
  {
    if x == 1 then 0 else 1 + Log2(x / 2)
  }

  /** minsize_for_tree_index */
  function MinSize(i: nat): int {
    Pow2(i / 2 + 8) + (if i % 2 == 1 then Pow2(i / 2 + 7) else 0)
  }

  /** size belongs in tree bin i. */
  predicate InClass(size: int, i: nat) {
    i < NTREEBINS && MinSize(i) <= size && (i == NTREEBINS - 1 || size < MinSize(i + 1))
  }

  lemma Pow2Literals()
    ensures Pow2(7) == 128 && Pow2(8) == 256 && Pow2(16) == 0x1_0000 && Pow2(23) == 0x80_0000 && Pow2(24) == 0x100_0000
  {
    assert Pow2(4) == 16;
    assert Pow2(8) == 256;
    assert Pow2(12) == 4096;
    assert Pow2(16) == 0x1_0000;
    assert Pow2(20) == 0x10_0000;
  }

  lemma {:induction false} Pow2Add(a: nat, b: nat)
    ensures Pow2(a + b) == Pow2(a) * Pow2(b)
    decreases b
  {
    if b != 0 {
      Pow2Add(a, b - 1);
      assert Pow2(a) * Pow2(b) == 2 * (Pow2(a) * Pow2(b - 1));
    }
  }

  lemma {:induction false} Pow2Mono(a: nat, b: nat)
    requires a <= b
    ensures Pow2(a) <= Pow2(b)
    decreases b
  {
    if a < b { Pow2Mono(a, b - 1); }
  }

  lemma TopBitBound(x: int, k: nat)
    requires Pow2(k) <= x <= 0xFFFF
    ensures k < 16
  {
    Pow2Literals();
    if k >= 16 { Pow2Mono(16, k); }
  }

  /** compute_tree_index as gcc compiles it: the shifted size is held in 32 bits. */
  function TreeIndex(size: int): (i: nat)
    requires size >= 0
    ensures i < NTREEBINS
  {
    var x := (size / 256) % 0x1_0000_0000;
    if x == 0 then 0
    else if x > 0xFFFF then NTREEBINS - 1
    else
      var k := Log2(x);
      TopBitBound(x, k);
      2 * k + (size / Pow2(k + 7)) % 2
  }

  lemma Quotient(s: int, d: int, q: int)
    requires d > 0 && q * d <= s < (q + 1) * d
    ensures s / d == q
  {
    var r := s - q * d;
    assert s == q * d + r && 0 <= r < d;
    var z := s / d;
    assert s == z * d + s % d;
    assert z < q ==> (z + 1) * d <= q * d;
    assert z > q ==> (q + 1) * d <= z * d;
  }

  lemma {:induction false} MinSizeMono(i: nat, j: nat)
    requires i < j
    ensures MinSize(i) < MinSize(j)
    decreases j
  {
    if i < j - 1 { MinSizeMono(i, j - 1); }
    MinSizeStep(j - 1);
  }

  lemma MinSizeStep(i: nat)
    ensures MinSize(i) < MinSize(i + 1)
  {
    if i % 2 == 0 {
      assert (i + 1) / 2 == i / 2;
    } else {
      assert (i + 1) / 2 == i / 2 + 1;
    }
  }

  lemma ClassUnique(size: int, i: nat, j: nat)
    requires InClass(size, i) && InClass(size, j)
    ensures i == j
  {
    hide MinSize;
    if i + 1 < j { MinSizeMono(i + 1, j); }
    if j + 1 < i { MinSizeMono(j + 1, i); }
  }

  lemma Halves(k: nat)
    ensures MinSize(2 * k) == 2 * Pow2(k + 7)
    ensures MinSize(2 * k + 1) == 3 * Pow2(k + 7)
    ensures MinSize(2 * k + 2) == 4 * Pow2(k + 7)
  {
    assert (2 * k) / 2 == k && (2 * k + 1) / 2 == k && (2 * k + 2) / 2 == k + 1;
  }

  lemma NextBitOf(size: int, h: int)
    requires h > 0 && 2 * h <= size < 4 * h
    ensures (size / h) % 2 == if size < 3 * h then 0 else 1
  {
    Quotient(size, h, if size < 3 * h then 2 else 3);
  }

  /** The middle branch: k is the top bit of size / 256 and the next bit picks the half. */
  lemma HalfClass(size: int, k: nat)
    requires k < 16 && 2 * Pow2(k + 7) <= size < 4 * Pow2(k + 7)
    ensures InClass(size, 2 * k + (size / Pow2(k + 7)) % 2)
  {
    hide Pow2, MinSize;
    Halves(k);
    NextBitOf(size, Pow2(k + 7));
    if size < 3 * Pow2(k + 7) {
      assert InClass(size, 2 * k);
    } else {
      assert InClass(size, 2 * k + 1);
    }
  }

  lemma ScaleBounds(size: int, x: int, k: nat)
    requires 256 * x <= size < 256 * x + 256 && Pow2(k) <= x < Pow2(k + 1)
    ensures 2 * Pow2(k + 7) <= size < 4 * Pow2(k + 7)
  {
    hide Pow2;
    Pow2Literals();
    Pow2Add(k, 7);
    Pow2Double(k);
  }

  lemma Pow2Double(k: nat)
    ensures Pow2(k + 1) == 2 * Pow2(k)
  {
  }

  lemma ShiftedSize(size: int)
    requires 0 <= size < 0x100_0000_0000
    ensures (size / 256) % 0x1_0000_0000 == size / 256
    ensures 256 * (size / 256) <= size < 256 * (size / 256) + 256
  {
  }

  lemma LowClass(size: int, x: int)
    requires size >= 0 && x == (size / 256) % 0x1_0000_0000 && 256 * x <= size < 256 * x + 256 && 0 < x <= 0xFFFF
    ensures InClass(size, TreeIndex(size))
  {
    hide Pow2, MinSize, InClass;
    var k := Log2(x);
    TopBitBound(x, k);
    ScaleBounds(size, x, k);
    HalfClass(size, k);
    assert TreeIndex(size) == 2 * k + (size / Pow2(k + 7)) % 2;
  }

  lemma HighClass(size: int)
    requires size >= 0x100_0000
    ensures InClass(size, 31)
  {
    Pow2Literals();
    Halves(15);
  }

  /** For every size a chunk can have, compute_tree_index picks a class that holds it. */
  lemma TreeIndexClass(size: int)
    requires 256 <= size < 0x100_0000_0000
    ensures InClass(size, TreeIndex(size))
  {
    hide Pow2, MinSize, InClass;
    var x := size / 256;
    ShiftedSize(size);
    if x > 0xFFFF {
      HighClass(size);
      assert TreeIndex(size) == 31;
    } else {
      LowClass(size, x);
    }
  }

  /** No other class holds it. */
  lemma TreeIndexOnly(size: int, i: nat)
    requires 256 <= size < 0x100_0000_0000 && InClass(size, i)
    ensures i == TreeIndex(size)
  {
    hide TreeIndex;
    TreeIndexClass(size);
    ClassUnique(size, i, TreeIndex(size));
  }

  /** Exactly when the 32-bit intermediate still selects the right class. */
  lemma TreeIndexExact(size: int)
    requires size >= 256
    ensures InClass(size, TreeIndex(size)) <==>
            size < 0x100_0000_0000 || (size / 256) % 0x1_0000_0000 >= 0xC000
  {
    hide Pow2, MinSize, InClass;
    if size < 0x100_0000_0000 {
      TreeIndexClass(size);
    } else {
      HighClass(size);
      var x := (size / 256) % 0x1_0000_0000;
      LastClassBit(size, x);
      hide TreeIndex;
      if InClass(size, TreeIndex(size)) { ClassUnique(size, 31, TreeIndex(size)); }
    }
  }

  /** A request of a terabyte lands in the class of the smallest tree chunks. */
  lemma TerabyteMisfiled()
    ensures TreeIndex(0x100_0000_0000) == 0 && !InClass(0x100_0000_0000, TreeIndex(0x100_0000_0000))
  {
    hide Pow2, MinSize, InClass;
    assert 0x100_0000_0000 / 256 == 0x1_0000_0000;
    TreeIndexExact(0x100_0000_0000);
  }

  lemma LastClassBit(size: int, x: int)
    requires size >= 0 && x == (size / 256) % 0x1_0000_0000
    ensures TreeIndex(size) == 31 <==> x >= 0xC000
  {
    if 0 < x <= 0xFFFF {
      var k := Log2(x);
      TopBitBound(x, k);
      if k < 15 {
        Pow2Mono(k + 1, 15);
        TopBit15();
      } else {
        TopBit15();
        BitOfRest(size / 256 / 0x1_0000_0000, x, size % 256);
      }
    }
  }

  lemma TopBit15()
    ensures Pow2(15) == 0x8000 && Pow2(22) == 0x40_0000
  {
    Pow2Literals();
  }

  lemma BitOfRest(q: int, x: int, low: int)
    requires 0x8000 <= x <= 0xFFFF && 0 <= low < 256
    ensures ((q * 0x100_0000_0000 + x * 256 + low) / 0x40_0000) % 2 == if x >= 0xC000 then 1 else 0
  {
    var h := if x >= 0xC000 then 1 else 0;
    var n := q * 0x2_0000 + 1;
    assert 2 * n + h == q * 0x4_0000 + 2 + h;
    Quotient(q * 0x100_0000_0000 + x * 256 + low, 0x40_0000, 2 * n + h);
    EvenPlus(n, h);
  }

  lemma EvenPlus(n: int, h: int)
    requires h == 0 || h == 1
    ensures (2 * n + h) % 2 == h
  {
  }

  /** The portable computation of the top bit of a 16-bit word. */
  function PortableTopBit(x: bv32): bv32 {
    var n0 := ((x - 0x100) >> 16) & 8;
    var y1 := x << n0;
    var k1 := ((y1 - 0x1000) >> 16) & 4;
    var y2 := y1 << k1;
    var k2 := ((y2 - 0x4000) >> 16) & 2;
    var y3 := y2 << k2;
    14 - (n0 + k1 + k2) + (y3 >> 15)
  }

  /** On every word compute_tree_index gives it, the portable form is the clz form. */
  lemma PortableTopBitIsClz(x: bv32, k: nat)
    requires k < 16 && (x >> k) == 1
    ensures PortableTopBit(x) == k as bv32
  {
  }

  /** compute_bit2idx's portable shifts and masks. */
  function PortableBitIndex(x: bv32): bv32 {
    var y0 := x - 1;
    var k0 := (y0 >> 12) & 16;
    var y1 := y0 >> k0;
    var k1 := (y1 >> 5) & 8;
    var y2 := y1 >> k1;
    var k2 := (y2 >> 2) & 4;
    var y3 := y2 >> k2;
    var k3 := (y3 >> 1) & 2;
    var y4 := y3 >> k3;
    var k4 := y4 & 1;
    k0 + k1 + k2 + k3 + k4 + (y4 >> k4)
  }

  /** On a single bit it is the bit's index, like counting trailing zeros. */
  lemma PortableBitIndexIsCtz(k: bv32)
    requires k < 32
    ensures PortableBitIndex(1 << k) == k
  {
  }
}
