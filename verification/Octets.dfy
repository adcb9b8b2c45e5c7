/** Bytes, optional values, and numbers stored low-order byte first. */
module Octets {
  import Alignment

  type Byte = x: int | 0 <= x < 256

  datatype Option<T> = None | Some(value: T)

  const U32 := 0x1_0000_0000
  const U64 := 0x1_0000_0000_0000_0000

  /** The k low bytes of x, low-order byte first. */
  function LeBytes(x: nat, k: nat): (s: seq<Byte>)
    ensures |s| == k
  {
    if k == 0 then [] else [x % 256] + LeBytes(x / 256, k - 1)
  }

  lemma {:induction false} LeBytesInjective(x: nat, y: nat, k: nat)
    requires LeBytes(x, k) == LeBytes(y, k)
    ensures x % Pow256(k) == y % Pow256(k)
    decreases k
  {
    if k > 0 {
      assert LeBytes(x, k)[0] == x % 256 && LeBytes(y, k)[0] == y % 256;
      assert LeBytes(x, k)[1..] == LeBytes(x / 256, k - 1) && LeBytes(y, k)[1..] == LeBytes(y / 256, k - 1);
      LeBytesInjective(x / 256, y / 256, k - 1);
      ModSplit(x, Pow256(k - 1));
      ModSplit(y, Pow256(k - 1));
    }
  }

  function Pow256(k: nat): (p: nat)
    ensures p > 0
  {
    if k == 0 then 1 else 256 * Pow256(k - 1)
  }

  lemma ModSplit(x: nat, p: nat)
    requires p > 0
    ensures x % (256 * p) == 256 * ((x / 256) % p) + x % 256
  {
    var y := x / 256;
    var q, r := y / p, y % p;
    assert x == 256 * y + x % 256 && y == p * q + r;
    assert x == (256 * p) * q + (256 * r + x % 256) by { Regroup(p, q, r); }
    Alignment.DivUnique(x, 256 * p, q, 256 * r + x % 256);
  }

  lemma Regroup(p: nat, q: nat, r: nat)
    ensures 256 * (p * q + r) == (256 * p) * q + 256 * r
  {
    assert 256 * (p * q + r) == 256 * (p * q) + 256 * r;
    assert 256 * (p * q) == (256 * p) * q;
  }

  lemma {:induction false} LeBytesJoin(x: nat, y: nat, k: nat, j: nat)
    requires x < Pow256(k)
    ensures LeBytes(x, k) + LeBytes(y, j) == LeBytes(x + Pow256(k) * y, k + j)
    decreases k
  {
    if k > 0 {
      var p, z := Pow256(k - 1), x + Pow256(k) * y;
      Regroup(p, y, 0);
      var rest := x / 256 + p * y;
      assert z == 256 * rest + x % 256;
      Alignment.DivUnique(z, 256, rest, x % 256);
      LeBytesJoin(x / 256, y, k - 1, j);
      assert [x % 256] + (LeBytes(x / 256, k - 1) + LeBytes(y, j)) == [x % 256] + LeBytes(x / 256, k - 1) + LeBytes(y, j);
    }
  }

  lemma Powers()
    ensures Pow256(4) == U32 && Pow256(8) == U64
  {
    assert Pow256(1) == 256 && Pow256(2) == 65536 && Pow256(3) == 0x100_0000 && Pow256(4) == U32;
    assert Pow256(5) == 0x100_0000_0000 && Pow256(6) == 0x1_0000_0000_0000 && Pow256(7) == 0x100_0000_0000_0000;
  }

  /** The number a byte string stands for. */
  function LeValue(s: seq<Byte>): nat { if s == [] then 0 else s[0] + 256 * LeValue(s[1..]) }

  lemma {:induction false} LeRoundTrip(x: nat, k: nat)
    ensures LeValue(LeBytes(x, k)) == x % Pow256(k)
    decreases k
  {
    if k > 0 {
      assert LeBytes(x, k)[1..] == LeBytes(x / 256, k - 1);
      LeRoundTrip(x / 256, k - 1);
      ModSplit(x, Pow256(k - 1));
    }
  }
}
