/** Bitwise-trie positions: 64-bit keys consumed from the top bit, and the slots they lead to. */
module Trie {
  import opened SizeClass

  const W := 0x1_0000_0000_0000_0000
  const HALF := 0x8000_0000_0000_0000

  predicate IsWord(k: int) { 0 <= k < W }

  /** (k >> 63) & 1 */
  function TopBit(k: int): int { if k >= HALF then 1 else 0 }

  /** k << 1 in 64 bits. */
  function Shl(k: int): int { if k >= HALF then 2 * k - W else 2 * k }

  function ShlN(k: int, d: nat): int { if d == 0 then k else Shl(ShlN(k, d - 1)) }

  /** Bit d of the key, counted from the top. */
  function KeyBit(k: int, d: nat): (b: int)
    ensures b == 0 || b == 1
  {
    TopBit(ShlN(k, d))
  }

  /** The slot at depth d on the path of key k; the root is 1 and slot n has children 2n and 2n + 1. */
  function Id(k: int, d: nat): (n: int)
    ensures n >= 1
  {
    if d == 0 then 1 else 2 * Id(k, d - 1) + KeyBit(k, d - 1)
  }

  lemma {:induction false} ShlNWord(k: int, d: nat)
    requires IsWord(k)
    ensures IsWord(ShlN(k, d))
  {
    if d != 0 { ShlNWord(k, d - 1); }
  }

  /** Equal slots lie at equal depths. */
  lemma {:induction false} IdDepth(k: int, d: nat, l: int, e: nat)
    requires Id(k, d) == Id(l, e)
    ensures d == e
  {
    if d != 0 && e != 0 {
      assert Id(k, d - 1) == Id(l, e - 1);
      IdDepth(k, d - 1, l, e - 1);
    }
  }

  /** Keys that share a slot share every slot and bit above it. */
  lemma {:induction false} IdAgree(k: int, l: int, d: nat, e: nat)
    requires e <= d && Id(k, d) == Id(l, d)
    ensures Id(k, e) == Id(l, e)
    ensures e < d ==> KeyBit(k, e) == KeyBit(l, e)
  {
    if e < d {
      assert Id(k, d - 1) == Id(l, d - 1) && KeyBit(k, d - 1) == KeyBit(l, d - 1);
      IdAgree(k, l, d - 1, e);
    }
  }

  lemma Twice(p: int, x: int)
    ensures 2 * p * x == 2 * (p * x)
  {
  }

  lemma SignOf(p: int, x: int)
    requires p > 0
    ensures p * x < 0 <==> x < 0
  {
  }

  /** The distance between two keys that share a slot at depth d shows up in their remaining bits. */
  lemma {:induction false} Remainder(k: int, l: int, d: nat)
    requires IsWord(k) && IsWord(l) && Id(k, d) == Id(l, d)
    ensures ShlN(k, d) - ShlN(l, d) == Pow2(d) * (k - l)
  {
    if d != 0 {
      IdAgree(k, l, d, d - 1);
      Remainder(k, l, d - 1);
      Twice(Pow2(d - 1), k - l);
    }
  }

  /** Among keys that share a slot, the one going left is smaller. */
  lemma LeftIsLess(k: int, l: int, d: nat)
    requires IsWord(k) && IsWord(l) && Id(k, d) == Id(l, d)
    requires KeyBit(k, d) == 0 && KeyBit(l, d) == 1
    ensures k < l
  {
    Remainder(k, l, d);
    SignOf(Pow2(d), k - l);
  }

  /** Sixty-four levels tell all keys apart. */
  lemma KeyEq(k: int, l: int)
    requires IsWord(k) && IsWord(l) && Id(k, 64) == Id(l, 64)
    ensures k == l
  {
    Remainder(k, l, 64);
    ShlNWord(k, 64);
    ShlNWord(l, 64);
    Pow2At64();
    assert k > l ==> Pow2(64) * (k - l) >= W;
    assert k < l ==> Pow2(64) * (l - k) >= W;
  }

  lemma Pow2At64()
    ensures Pow2(64) == W
  {
    Pow2Literals();
    Pow2Add(16, 16);
    Pow2Add(32, 32);
  }

  /** leftshift_for_tree_index */
  function LeftShift(i: nat): nat
    requires i < NTREEBINS
  {
    if i == NTREEBINS - 1 then 0 else 57 - i / 2
  }

  /** The search key of a size: size << leftshift_for_tree_index(i), in 64 bits. */
  function Key(size: int, i: nat): (k: int)
    requires size >= 0 && i < NTREEBINS
    ensures IsWord(k)
  {
    size * Pow2(LeftShift(i)) % W
  }

  /** Within a class the key is the scaled offset from the class minimum. */
  lemma KeyIsOffset(size: int, i: nat)
    requires InClass(size, i) && i < NTREEBINS - 1
    ensures Key(size, i) == (size - MinSize(i)) * Pow2(LeftShift(i))
  {
    var k, p := i / 2, Pow2(LeftShift(i));
    Halves(k);
    assert i == 2 * k || i == 2 * k + 1;
    var c := i - 2 * k + 2;
    var w := Pow2(k + 7);
    assert MinSize(i) == c * w && MinSize(i + 1) == (c + 1) * w;
    Pow2Add(k + 7, 57 - k);
    Pow2At64();
    Scaled(size - MinSize(i), w, p, c);
  }

  lemma Scaled(off: int, w: int, p: int, c: int)
    requires w * p == W && 0 <= off < w && p > 0 && c >= 0
    ensures 0 <= off * p < W
    ensures (off + c * w) * p % W == off * p
  {
    Products(off, w, p, c);
    ModShift(off * p, c);
  }

  lemma Products(off: int, w: int, p: int, c: int)
    requires 0 <= off < w && p > 0
    ensures 0 <= off * p < w * p && (off + c * w) * p == off * p + c * (w * p)
  {
    assert w * p == off * p + (w - off) * p;
  }

  lemma ModShift(x: int, c: int)
    requires 0 <= x < W && c >= 0
    ensures (x + c * W) % W == x
  {
  }

  /** Keys order sizes within a class. */
  lemma KeyMono(s: int, t: int, i: nat)
    requires InClass(s, i) && InClass(t, i) && s < W && t < W
    ensures s < t <==> Key(s, i) < Key(t, i)
    ensures s == t <==> Key(s, i) == Key(t, i)
  {
    if i == NTREEBINS - 1 {
      assert Key(s, i) == s && Key(t, i) == t;
    } else {
      KeyIsOffset(s, i);
      KeyIsOffset(t, i);
      Scale(s - MinSize(i), t - MinSize(i), Pow2(LeftShift(i)));
    }
  }

  lemma Scale(x: int, y: int, p: int)
    requires p > 0
    ensures x < y <==> x * p < y * p
    ensures x == y <==> x * p == y * p
  {
    if x < y { assert (y - x) * p > 0; }
    if x > y { assert (x - y) * p > 0; }
  }
}
