/** The 32-bit bin maps, as rows of bits, and the bit tricks dlmalloc searches them with. */
module Bitmap {
  /** Bit i of the word is w[i]. */
  type Word32 = w: seq<bool> | |w| == 32
    witness [false, false, false, false, false, false, false, false, false, false, false, false, false, false, false, false,
             false, false, false, false, false, false, false, false, false, false, false, false, false, false, false, false]

  function Zero(): Word32 { seq(32, j => false) }

  /** idx2bit(i): 1 << i */
  function Bit(i: nat): Word32 { seq(32, j => j == i) }

  function Or(a: Word32, b: Word32): Word32 { seq(32, j requires 0 <= j < 32 => a[j] || b[j]) }

  function And(a: Word32, b: Word32): Word32 { seq(32, j requires 0 <= j < 32 => a[j] && b[j]) }

  function Not(a: Word32): Word32 { seq(32, j requires 0 <= j < 32 => !a[j]) }

  /** a >> n */
  function Shr(a: Word32, n: nat): Word32 { seq(32, j requires 0 <= j < 32 => j + n < 32 && a[j + n]) }

  /** a << n */
  function Shl(a: Word32, n: nat): Word32 { seq(32, j requires 0 <= j < 32 => j - n >= 0 && a[j - n]) }

  /** Some bit below j is set. */
  predicate AnyBelow(a: Word32, j: nat)
    requires j <= 32
  {
    j > 0 && (a[j - 1] || AnyBelow(a, j - 1))
  }

  /** -a: invert and add one. The carry reaches bit j exactly when no lower bit of a is set. */
  function Neg(a: Word32): Word32 { seq(32, j requires 0 <= j < 32 => if AnyBelow(a, j) then !a[j] else a[j]) }

  predicate NonZero(a: Word32) { AnyBelow(a, 32) }

  function LeastBit(a: Word32): Word32 { And(a, Neg(a)) }

  function LeftBits(a: Word32): Word32 { Or(Shl(a, 1), Neg(Shl(a, 1))) }

  lemma {:induction false} AnyBelowMeans(a: Word32, j: nat)
    requires j <= 32
    ensures AnyBelow(a, j) <==> exists k :: 0 <= k < j && a[k]
  {
    if j > 0 { AnyBelowMeans(a, j - 1); }
  }

  /** __builtin_ctz: the index of the lowest set bit, found by scanning upward from n. */
  function CtzFrom(a: Word32, n: nat): (i: nat)
    requires n <= 32 && NonZero(a) && !AnyBelow(a, n)
    ensures n <= i < 32 && a[i] && !AnyBelow(a, i)
    decreases 32 - n
  {
    if a[n] then n else CtzFrom(a, n + 1)
  }

  function Ctz(a: Word32): (i: nat)
    requires NonZero(a)
    ensures i < 32 && a[i] && !AnyBelow(a, i)
  {
    CtzFrom(a, 0)
  }

  lemma {:induction false} CtzIs(a: Word32, n: nat, i: nat)
    requires NonZero(a) && n <= i < 32 && a[i] && !AnyBelow(a, i) && !AnyBelow(a, n)
    ensures CtzFrom(a, n) == i
    decreases i - n
  {
    if n < i {
      AnyBelowMeans(a, i);
      assert !a[n];
      CtzIs(a, n + 1, i);
    }
  }

  /** least_bit leaves just the lowest set bit, so compute_bit2idx names it. */
  lemma LeastIndex(a: Word32)
    requires NonZero(a)
    ensures LeastBit(a) == Bit(Ctz(a))
    ensures NonZero(LeastBit(a)) && Ctz(LeastBit(a)) == Ctz(a)
  {
    var i := Ctz(a);
    var b := LeastBit(a);
    forall j | 0 <= j < 32 ensures b[j] == (j == i) {
      AnyBelowMeans(a, j);
      AnyBelowMeans(a, i);
    }
    assert b == Bit(i);
    AnyBelowMeans(b, 32);
    AnyBelowMeans(b, i);
    CtzIs(b, 0, i);
  }

  /** left_bits(idx2bit(i)) selects the bins above i. */
  lemma LeftBitsAbove(i: nat, j: nat)
    requires i < 32 && j < 32
    ensures LeftBits(Bit(i))[j] <==> i < j
  {
    var s := Shl(Bit(i), 1);
    AnyBelowMeans(s, j);
    if i + 1 < j { assert s[i + 1]; }
  }
}
