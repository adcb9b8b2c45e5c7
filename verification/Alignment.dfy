/** Rounding to alignments: the arithmetic of memalign. */
module Alignment {
  import opened Trie

  lemma MulGap(a: int, x: int, y: int)
    requires a > 0 && x > y
    ensures a * x >= a * y + a
  {
    var d := x - y;
    MulPos(a, d);
    Spread(a, y, d);
  }

  lemma MulPos(a: int, d: int)
    requires a > 0 && d >= 1
    ensures a * d >= a
  {
  }

  lemma Spread(a: int, y: int, d: int)
    ensures a * (y + d) == a * y + a * d
  {
  }

  /** Quotient and remainder are determined by the equation they solve. */
  lemma DivUnique(x: int, a: int, q: int, r: int)
    requires a > 0 && x == a * q + r && 0 <= r < a
    ensures x / a == q && x % a == r
  {
    var e, s := x / a, x % a;
    assert x == a * e + s;
    if q > e { MulGap(a, q, e); }
    if e > q { MulGap(a, e, q); }
  }

  /** Rounding mp up lands at a multiple of the alignment, a multiple of 16 past the chunk start and within reach. */
  lemma RoundsUp(mp: int, a: int)
    requires a > 0 && mp % a != 0
    ensures var s := mp + a - 1 - (mp + a - 1) % a; s == a * (mp / a + 1) && mp < s < mp + a
  {
    var k, r := mp / a, mp % a;
    assert mp == a * k + r;
    assert a * (k + 1) == a * k + a;
    DivUnique(mp + a - 1, a, k + 1, r - 1);
  }

  lemma AlignSpot(mp: int, a: int, spot: int)
    requires a >= 32 && a % 32 == 0 && mp % 16 == 0 && mp % a != 0
    requires spot == mp + a - 1 - (mp + a - 1) % a - 16
    ensures (spot + 16) % a == 0 && (spot + a + 16) % a == 0
    ensures mp - 16 < spot < mp - 16 + a && (spot - (mp - 16)) % 16 == 0
  {
    RoundsUp(mp, a);
    var k := mp / a + 1;
    DivUnique(spot + 16, a, k, 0);
    assert a * (k + 1) == a * k + a;
    DivUnique(spot + a + 16, a, k + 1, 0);
    Sixteen(a, k, mp);
  }

  lemma Sixteen(a: int, k: int, mp: int)
    requires a % 32 == 0 && mp % 16 == 0
    ensures (a * k - mp) % 16 == 0
  {
    var j, i := a / 32, mp / 16;
    assert a * k == 16 * (2 * j * k);
    assert a * k - mp == 16 * (2 * j * k - i);
  }

  // ---------------------------------------------------------------- powers of two

  predicate IsPow2(n: int) {
    n == 1 || (n > 1 && n % 2 == 0 && IsPow2(n / 2))
  }

  /** n & (n - 1): n without its lowest set bit. */
  function ClearLowest(n: nat): nat {
    if n == 0 then 0 else if n % 2 == 1 then n - 1 else 2 * ClearLowest(n / 2)
  }

  /** The bit test memalign uses tells powers of two apart. */
  lemma {:induction false} Pow2Test(n: nat)
    requires n > 0
    ensures ClearLowest(n) == 0 <==> IsPow2(n)
  {
    if n % 2 == 0 { Pow2Test(n / 2); }
  }

  /** The least power of two that is at least n. */
  function CeilPow2(n: nat): (c: nat)
    ensures IsPow2(c) && n <= c && (n > 1 ==> c < 2 * n) && c >= 1
  {
    if n <= 1 then 1 else 2 * CeilPow2((n + 1) / 2)
  }

  /** Of two powers of two the smaller divides the larger, at least twice over if they differ. */
  lemma {:induction false} Pow2Order(a: int, b: int)
    requires IsPow2(a) && IsPow2(b) && a < b
    ensures 2 * a <= b && b % a == 0
  {
    if a > 1 {
      Pow2Order(a / 2, b / 2);
      var k := (b / 2) / (a / 2);
      assert b / 2 == (a / 2) * k;
      DivUnique(b, a, k, 0);
    }
  }

  lemma CeilUnique(n: nat, c: int)
    requires IsPow2(c) && n <= c && (c == 1 || c < 2 * n)
    ensures c == CeilPow2(n)
  {
    var d := CeilPow2(n);
    if c < d { Pow2Order(c, d); } else if d < c { Pow2Order(d, c); }
  }

  /** The doubling loop of memalign. */
  method RoundAlignment(alignment: int) returns (a: int)
    requires 32 <= alignment <= HALF
    ensures a == CeilPow2(alignment) && a <= HALF
  {
    a := 32;
    HalfPow2();
    while a < alignment
      invariant IsPow2(a) && 32 <= a <= HALF && (a == 32 || a < 2 * alignment)
      decreases alignment - a
    {
      Pow2Order(a, HALF);
      Double(a);
      a := 2 * a;
    }
    CeilUnique(alignment, a);
  }

  lemma Double(a: int)
    requires IsPow2(a)
    ensures IsPow2(2 * a)
  {
  }

  lemma Times256(a: int)
    requires IsPow2(a)
    ensures IsPow2(256 * a)
  {
    Double(a);
    Double(2 * a);
    Double(4 * a);
    Double(8 * a);
    Double(16 * a);
    Double(32 * a);
    Double(64 * a);
    Double(128 * a);
  }

  lemma HalfPow2()
    ensures IsPow2(HALF) && IsPow2(32)
  {
    Double(1);
    Double(2);
    Double(4);
    Double(8);
    Double(16);
    Double(32);
    Double(64);
    Times256(0x80);
    Times256(0x8000);
    Times256(0x80_0000);
    Times256(0x8000_0000);
    Times256(0x80_0000_0000);
    Times256(0x8000_0000_0000);
    Times256(0x80_0000_0000_0000);
  }

  /** The values a <<= 1 runs through in 64 bits. */
  function Doubled(k: nat): int { if k == 0 then 32 else 2 * Doubled(k - 1) % W }

  /** Above 2^63 no doubling ever reaches the alignment, so the loop does not end. */
  lemma {:induction false} NeverReached(alignment: int, k: nat)
    requires HALF < alignment
    ensures Doubled(k) < alignment
  {
    DoubledBound(k);
  }

  lemma Wraps(d: int)
    requires 0 <= d <= HALF
    ensures 2 * d % W == if d == HALF then 0 else 2 * d
  {
  }

  lemma {:induction false} DoubledBound(k: nat)
    ensures Doubled(k) == 0 || (IsPow2(Doubled(k)) && Doubled(k) <= HALF)
  {
    HalfPow2();
    if k > 0 {
      DoubledBound(k - 1);
      var d := Doubled(k - 1);
      hide IsPow2;
      Wraps(d);
      if 0 < d < HALF {
        Pow2Order(d, HALF);
        Double(d);
      }
    }
  }
}
