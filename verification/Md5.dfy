/** MD5 over a stream: any split of a message into updates against the padded message of RFC 1321. */
module Md5 {
  import Alignment
  import opened Octets
  import opened Md5Rounds
  import opened Md5Words

  const INIT := Hash(0x67452301, 0xefcdab89, 0x98badcfe, 0x10325476)

  // ---------------------------------------------------------------- the reference

  /** The block function over a message of whole blocks. */
  function Fold(h: Hash, data: seq<Byte>): Hash
    requires |data| % 64 == 0
    decreases |data|
  {
    if data == [] then h else Fold(Compress(h, data[..64]), data[64..])
  }

  function Zeros(n: nat): seq<Byte> { seq(n, i => 0) }

  /** How many zero bytes follow the byte 0x80: as few as bring the length to 56 modulo 64. */
  function Gap(n: nat): nat { if n % 64 < 56 then 55 - n % 64 else 119 - n % 64 }

  /** The message, 0x80, zeros, and eight bytes for the bit count. */
  function Padded(msg: seq<Byte>, bits: nat): seq<Byte> { msg + [0x80] + Zeros(Gap(|msg|)) + LeBytes(bits, 8) }

  /** Sections 3.1 and 3.2: the bit count is taken modulo 2^64. */
  function RfcPadded(msg: seq<Byte>): seq<Byte> { Padded(msg, (8 * |msg|) % U64) }

  function Digest(h: Hash): seq<Byte> { WordBytes(h.a) + WordBytes(h.b) + WordBytes(h.c) + WordBytes(h.d) }

  /** Section 3.3 gives the four words as bytes: 01 23 45 67, 89 ab cd ef, fe dc ba 98, 76 54 32 10. */
  lemma InitialBytes()
    ensures Digest(INIT) == [0x01, 0x23, 0x45, 0x67, 0x89, 0xab, 0xcd, 0xef, 0xfe, 0xdc, 0xba, 0x98, 0x76, 0x54, 0x32, 0x10]
  {
  }

  /** Section 3.5: A, B, C and D in turn, each low-order byte first. */
  lemma DigestValue(h: Hash)
    ensures |Digest(h)| == 16 && LeValue(Digest(h)[..4]) == h.a as int && LeValue(Digest(h)[4..8]) == h.b as int
    ensures LeValue(Digest(h)[8..12]) == h.c as int && LeValue(Digest(h)[12..]) == h.d as int
  {
    hide WordBytes, LeValue;
    BytesValue(h.a);
    BytesValue(h.b);
    BytesValue(h.c);
    BytesValue(h.d);
    var s := Digest(h);
    assert s[..4] == WordBytes(h.a) && s[4..8] == WordBytes(h.b) && s[8..12] == WordBytes(h.c) && s[12..] == WordBytes(h.d);
  }

  /** The MD5 of a message. */
  function Md5Of(msg: seq<Byte>): seq<Byte> { PaddedWhole(msg, (8 * |msg|) % U64); Digest(Fold(INIT, RfcPadded(msg))) }

  lemma PaddedWhole(msg: seq<Byte>, bits: nat)
    ensures |Padded(msg, bits)| % 64 == 0 && |Padded(msg, bits)| <= |msg| + 72 && |msg| + 9 <= |Padded(msg, bits)|
  {
    var n, r := |msg|, |msg| % 64;
    assert n == 64 * (n / 64) + r;
    if r < 56 { MultipleOf64(n / 64 + 1, |Padded(msg, bits)|); } else { MultipleOf64(n / 64 + 2, |Padded(msg, bits)|); }
  }

  lemma MultipleOf64(k: nat, n: nat)
    requires n == 64 * k
    ensures n % 64 == 0
  {
  }

  // ---------------------------------------------------------------- whole blocks and the rest

  function Whole(data: seq<Byte>): (w: seq<Byte>)
    ensures |w| % 64 == 0 && |w| <= |data|
  {
    MultipleOf64(|data| / 64, |data| - |data| % 64);
    data[..|data| - |data| % 64]
  }

  function Rest(data: seq<Byte>): seq<Byte> { data[|data| - |data| % 64..] }

  lemma AddBlocks(n: nat, k: nat)
    requires n % 64 == 0
    ensures (n + k) % 64 == k % 64
  {
    assert n == 64 * (n / 64);
    assert (n + k) % 64 == k % 64;
  }

  lemma WholeAppend(m: seq<Byte>, d: seq<Byte>)
    requires |m| % 64 == 0
    ensures Whole(m + d) == m + Whole(d) && Rest(m + d) == Rest(d)
  {
    AddBlocks(|m|, |d|);
    assert Whole(m + d) == m + Whole(d);
    assert Rest(m + d) == Rest(d);
  }

  lemma WholeRest(m: seq<Byte>)
    ensures m == Whole(m) + Rest(m) && |Rest(m)| == |m| % 64
  {
  }

  lemma {:induction false} FoldJoin(h: Hash, a: seq<Byte>, b: seq<Byte>)
    requires |a| % 64 == 0 && |b| % 64 == 0
    ensures |a + b| % 64 == 0 && Fold(h, a + b) == Fold(Fold(h, a), b)
    decreases |a|
  {
    hide Compress;
    AddBlocks(|a|, |b|);
    if a == [] {
      assert a + b == b;
    } else {
      AddBlocks(64, |a| - 64);
      assert (a + b)[..64] == a[..64] && (a + b)[64..] == a[64..] + b;
      FoldJoin(Compress(h, a[..64]), a[64..], b);
    }
  }

  lemma FoldOne(h: Hash, b: seq<Byte>)
    requires |b| == 64
    ensures Fold(h, b) == Compress(h, b)
  {
    hide Compress;
    assert b[..64] == b && b[64..] == [];
    assert Fold(Compress(h, b), []) == Compress(h, b);
  }

  // ---------------------------------------------------------------- the length counters

  function Sum(parts: seq<nat>): nat { if parts == [] then 0 else Sum(parts[..|parts| - 1]) + parts[|parts| - 1] }

  /** What an update of n bytes after m adds to hi: a wrap of lo, and the part's own multiples of 2^29. */
  function Carry(m: nat, n: nat): nat { (if (m % U32 + n % U32) % U32 < m % U32 then 1 else 0) + (n % U32) / 0x2000_0000 }

  function Carried(parts: seq<nat>): nat {
    if parts == [] then 0 else
      var front := parts[..|parts| - 1];
      Carried(front) + Carry(Sum(front), parts[|parts| - 1])
  }

  /** The multiples of 2^29 the code counts, against those in the whole message. */
  predicate CarriesRight(parts: seq<nat>) { Carried(parts) % U32 == (Sum(parts) / 0x2000_0000) % U32 }

  lemma AppendPart(parts: seq<nat>, n: nat)
    ensures Sum(parts + [n]) == Sum(parts) + n && Carried(parts + [n]) == Carried(parts) + Carry(Sum(parts), n)
  {
    hide Carry;
    assert (parts + [n])[..|parts|] == parts;
  }

  const D29 := 0x2000_0000

  function Remainders(parts: seq<nat>, k: nat): nat
    requires k > 0
  {
    if parts == [] then 0 else Remainders(parts[..|parts| - 1], k) + parts[|parts| - 1] % k
  }

  function Quotients(parts: seq<nat>, k: nat): nat
    requires k > 0
  {
    if parts == [] then 0 else Quotients(parts[..|parts| - 1], k) + parts[|parts| - 1] / k
  }

  /**
   * Which splits of a message into updates are counted right, from the lengths alone: the whole 2^29s that the low 29
   * bits of the lengths make up together, and those above 2^32 of each, are as many, modulo 2^32, as the 2^32s that the
   * low 32 bits make up together.
   */
  predicate SplitsRight(parts: seq<nat>) { (Remainders(parts, D29) / D29 + 8 * Quotients(parts, U32)) % U32 == (Remainders(parts, U32) / U32) % U32 }

  /** What the loop of updates has counted by then: the wraps of lo and the multiples of 2^29 in each part. */
  lemma {:induction false} CarriedIs(parts: seq<nat>) returns (k: nat)
    ensures Remainders(parts, U32) == Remainders(parts, D29) + D29 * k && Sum(parts) == Remainders(parts, U32) + U32 * Quotients(parts, U32)
    ensures Carried(parts) == Remainders(parts, U32) / U32 + k
  {
    hide Carry;
    if parts == [] {
      k := 0;
    } else {
      var front, n := parts[..|parts| - 1], parts[|parts| - 1];
      var k0 := CarriedIs(front);
      k := k0 + (n % U32) / D29;
      LowPart(n);
      LoIs(Sum(front), Remainders(front, U32), Quotients(front, U32));
      OneWrap(Sum(front), Remainders(front, U32), n);
    }
  }

  lemma LowPart(n: nat)
    ensures n % U32 == n % D29 + D29 * ((n % U32) / D29) && n == n % U32 + U32 * (n / U32)
  {
    var m := n % U32;
    Alignment.DivUnique(n, D29, 8 * (n / U32) + m / D29, m % D29);
  }

  lemma LoIs(sum: nat, low: nat, q: nat)
    requires sum == low + U32 * q
    ensures sum % U32 == low % U32
  {
    Alignment.DivUnique(sum, U32, low / U32 + q, low % U32);
  }

  lemma OneWrap(m: nat, low: nat, n: nat)
    requires m % U32 == low % U32
    ensures Carry(m, n) == (low + n % U32) / U32 - low / U32 + (n % U32) / D29
  {
    var r, d := low % U32, n % U32;
    assert low + d == U32 * (low / U32) + (r + d);
    if r + d < U32 {
      Alignment.DivUnique(low + d, U32, low / U32, r + d);
    } else {
      Alignment.DivUnique(low + d, U32, low / U32 + 1, r + d - U32);
      assert (r + d) % U32 == r + d - U32;
    }
  }

  lemma Congruent(a: nat, b: nat, k: nat)
    ensures (a + k) % U32 == (b + k) % U32 <==> a % U32 == b % U32
  {
  }

  /** The code counts right exactly for those splits. */
  lemma CarriesRightExactly(parts: seq<nat>)
    ensures CarriesRight(parts) <==> SplitsRight(parts)
  {
    hide Sum, Carried, Remainders, Quotients;
    var k := CarriedIs(parts);
    var low, q := Remainders(parts, D29), Quotients(parts, U32);
    Alignment.DivUnique(Sum(parts), D29, low / D29 + k + 8 * q, low % D29);
    Congruent(Remainders(parts, U32) / U32, low / D29 + 8 * q, k);
  }

  lemma {:induction false} SmallParts(parts: seq<nat>)
    requires forall n {:trigger n in parts} :: n in parts ==> n < U32
    ensures Remainders(parts, U32) == Sum(parts) && Quotients(parts, U32) == 0
  {
    if parts != [] {
      var front := parts[..|parts| - 1];
      assert parts == front + [parts[|parts| - 1]];
      forall n | n in front ensures n < U32 { assert n in parts; }
      SmallParts(front);
      assert parts[|parts| - 1] in parts;
    }
  }

  lemma {:induction false} PartsWithin(parts: seq<nat>, n: nat)
    requires n in parts
    ensures n <= Sum(parts)
  {
    var front := parts[..|parts| - 1];
    assert parts == front + [parts[|parts| - 1]];
    if n in front { PartsWithin(front, n); }
  }

  lemma {:induction false} LowWithin(parts: seq<nat>)
    ensures Remainders(parts, D29) <= Sum(parts)
  {
    if parts != [] { LowWithin(parts[..|parts| - 1]); }
  }

  /** For updates below 2^32 bytes each, and for a message below 2^32 bytes, the condition is simpler. */
  lemma SplitsRightWhen(parts: seq<nat>)
    requires forall n {:trigger n in parts} :: n in parts ==> n < U32
    ensures SplitsRight(parts) <==> (Remainders(parts, D29) / D29) % U32 == (Sum(parts) / U32) % U32
    ensures Sum(parts) < U32 ==> (SplitsRight(parts) <==> Remainders(parts, D29) < D29)
  {
    hide Sum, Remainders, Quotients;
    SmallParts(parts);
    LowWithin(parts);
  }

  /** So any split of a message below 2^29 bytes is counted right, and so is one update below 2^32 bytes. */
  lemma WhenCarriesRight(parts: seq<nat>, n: nat)
    ensures Sum(parts) < D29 ==> SplitsRight(parts)
    ensures n < U32 ==> SplitsRight([n])
  {
    hide Sum, Remainders, Quotients;
    if Sum(parts) < D29 {
      forall m | m in parts ensures m < U32 { PartsWithin(parts, m); }
      LowWithin(parts);
      SplitsRightWhen(parts);
    }
    assert Sum([n]) == n && Remainders([n], D29) == n % D29 by { OneUpdate(n); }
    if n < U32 { SplitsRightWhen([n]); }
  }

  lemma OneUpdate(n: nat)
    ensures Sum([n]) == n && Remainders([n], D29) == n % D29
  {
    assert [n][..0] == [];
  }

  /** Two updates of 2^28 bytes are not: the bit count loses 2^32. */
  lemma CarriesWrong()
    ensures !SplitsRight([0x1000_0000, 0x1000_0000])
  {
    hide Remainders, Quotients;
    var h := 0x1000_0000;
    TwoUpdates(h, D29);
    TwoUpdates(h, U32);
  }

  lemma TwoUpdates(n: nat, k: nat)
    requires k > 0
    ensures Remainders([n, n], k) == n % k + n % k && Quotients([n, n], k) == n / k + n / k
  {
    assert [n, n][..1] == [n] && [n][..0] == [];
    assert Remainders([], k) == 0 && Quotients([], k) == 0;
    assert Remainders([n], k) == n % k && Quotients([n], k) == n / k;
  }

  // ---------------------------------------------------------------- the length field

  /** The bit count as coded: lo shifted left by three, and hi. */
  function CountField(lo: nat, hi: nat): nat { (lo * 8) % U32 + U32 * hi }

  lemma LowCount(n: nat)
    ensures ((n % U32) * 8) % U32 == 8 * (n % 0x2000_0000)
  {
    var q, r := n / 0x2000_0000, n % 0x2000_0000;
    var m := n % U32;
    assert n == U32 * (n / U32) + m;
    var k := m / 0x2000_0000;
    assert m == 0x2000_0000 * k + m % 0x2000_0000;
    Alignment.DivUnique(n, 0x2000_0000, 8 * (n / U32) + k, m % 0x2000_0000);
    Alignment.DivUnique(m * 8, U32, k, 8 * r);
  }

  lemma FullCount(n: nat)
    ensures (8 * n) % U64 == 8 * (n % 0x2000_0000) + U32 * ((n / 0x2000_0000) % U32)
  {
    var q, r := n / 0x2000_0000, n % 0x2000_0000;
    assert n == 0x2000_0000 * q + r && q == U32 * (q / U32) + q % U32;
    Alignment.DivUnique(8 * n, U64, q / U32, 8 * r + U32 * (q % U32));
  }

  /** The coded count is the right one exactly when hi holds the multiples of 2^29 in the message. */
  lemma CountExactly(n: nat, hi: nat)
    requires hi < U32
    ensures CountField(n % U32, hi) < U64
    ensures CountField(n % U32, hi) == (8 * n) % U64 <==> hi == (n / 0x2000_0000) % U32
  {
    LowCount(n);
    FullCount(n);
  }

  /** Different counts give different padded messages. */
  lemma PaddedExactly(msg: seq<Byte>, x: nat, y: nat)
    requires x < U64 && y < U64
    ensures Padded(msg, x) == Padded(msg, y) <==> x == y
  {
    var front := msg + [0x80] + Zeros(Gap(|msg|));
    if Padded(msg, x) == Padded(msg, y) {
      assert LeBytes(x, 8) == Padded(msg, x)[|front|..] && LeBytes(y, 8) == Padded(msg, y)[|front|..];
      LeBytesInjective(x, y, 8);
      Powers();
    }
  }

  lemma CountBytes(lo: nat, hi: nat)
    ensures LeBytes((lo * 8) % U32, 4) + LeBytes(hi, 4) == LeBytes(CountField(lo, hi), 8)
  {
    Powers();
    LeBytesJoin((lo * 8) % U32, hi, 4, 4);
  }

  // ---------------------------------------------------------------- the last blocks

  lemma OneLastBlock(msg: seq<Byte>, bits: nat)
    requires |msg| % 64 < 56
    ensures var b := Rest(msg) + [0x80] + Zeros(55 - |msg| % 64) + LeBytes(bits, 8);
            |b| == 64 && |Padded(msg, bits)| % 64 == 0 && Fold(INIT, Padded(msg, bits)) == Compress(Fold(INIT, Whole(msg)), b)
  {
    hide Fold, Compress;
    PaddedWhole(msg, bits);
    WholeRest(msg);
    var b := Rest(msg) + [0x80] + Zeros(55 - |msg| % 64) + LeBytes(bits, 8);
    assert Padded(msg, bits) == Whole(msg) + b;
    FoldJoin(INIT, Whole(msg), b);
    FoldOne(Fold(INIT, Whole(msg)), b);
  }

  lemma TwoLastBlocks(msg: seq<Byte>, bits: nat)
    requires |msg| % 64 >= 56
    ensures var b, e := Rest(msg) + [0x80] + Zeros(63 - |msg| % 64), Zeros(56) + LeBytes(bits, 8);
            && |b| == 64 == |e| && |Padded(msg, bits)| % 64 == 0
            && Fold(INIT, Padded(msg, bits)) == Compress(Compress(Fold(INIT, Whole(msg)), b), e)
  {
    hide Fold, Compress;
    PaddedWhole(msg, bits);
    WholeRest(msg);
    var b, e := Rest(msg) + [0x80] + Zeros(63 - |msg| % 64), Zeros(56) + LeBytes(bits, 8);
    assert Zeros(Gap(|msg|)) == Zeros(63 - |msg| % 64) + Zeros(56);
    assert Padded(msg, bits) == Whole(msg) + b + e;
    FoldJoin(INIT, Whole(msg), b);
    FoldOne(Fold(INIT, Whole(msg)), b);
    FoldJoin(INIT, Whole(msg) + b, e);
    FoldOne(Compress(Fold(INIT, Whole(msg)), b), e);
  }

  // ---------------------------------------------------------------- the context

  lemma UsedIs(n: nat)
    ensures (n % U32) % 64 == n % 64
  {
    var q, m := n / U32, n % U32;
    assert n == U32 * q + m && m == 64 * (m / 64) + m % 64;
    Alignment.DivUnique(n, 64, 0x400_0000 * q + m / 64, m % 64);
  }

  lemma LoAdvances(n: nat, k: nat)
    ensures (n % U32 + k % U32) % U32 == (n + k) % U32
  {
    var m := n % U32 + k % U32;
    assert n + k == U32 * (n / U32 + k / U32) + m && m == U32 * (m / U32) + m % U32;
    Alignment.DivUnique(n + k, U32, n / U32 + k / U32 + m / U32, m % U32);
  }

  /** Hash and buffer once msg has gone in: its whole blocks are folded, the rest waits in the buffer. */
  ghost predicate Absorbed(h: Hash, buffer: seq<Byte>, msg: seq<Byte>) {
    |buffer| == 64 && h == Fold(INIT, Whole(msg)) && buffer[..|msg| % 64] == Rest(msg)
  }

  /** The counters once msg has gone in, in parts of the given lengths. */
  ghost predicate Counted(lo: nat, hi: nat, msg: seq<Byte>, parts: seq<nat>) {
    Sum(parts) == |msg| && lo == |msg| % U32 && hi == Carried(parts) % U32
  }

  lemma Nothing(buffer: seq<Byte>)
    requires |buffer| == 64
    ensures Absorbed(INIT, buffer, []) && Counted(0, 0, [], [])
  {
    hide Fold;
    assert Whole([]) == [] && Rest([]) == [] && buffer[..0] == [];
    EmptyFold(INIT);
  }

  lemma CountedAppend(lo: nat, hi: nat, msg: seq<Byte>, parts: seq<nat>, data: seq<Byte>, lo': nat, hi': nat)
    requires Counted(lo, hi, msg, parts) && lo' == (lo + |data| % U32) % U32
    requires hi' == (hi + (if lo' < lo then 1 else 0) + (|data| % U32) / 0x2000_0000) % U32
    ensures Counted(lo', hi', msg + data, parts + [|data|])
  {
    LoAdvances(|msg|, |data|);
    AppendPart(parts, |data|);
    var k := Carry(|msg|, |data|);
    assert k == (if lo' < lo then 1 else 0) + (|data| % U32) / 0x2000_0000;
    HiAdvances(Carried(parts), k);
  }

  lemma HiAdvances(c: nat, k: nat)
    ensures (c % U32 + k) % U32 == (c + k) % U32
  {
    var m := c % U32 + k;
    assert c + k == U32 * (c / U32) + m && m == U32 * (m / U32) + m % U32;
    Alignment.DivUnique(c + k, U32, c / U32 + m / U32, m % U32);
  }

  lemma FillOnly(msg: seq<Byte>, data: seq<Byte>)
    requires |msg| % 64 + |data| < 64
    ensures Whole(msg + data) == Whole(msg) && Rest(msg + data) == Rest(msg) + data && |msg + data| % 64 == |msg| % 64 + |data|
  {
    WholeRest(msg);
    assert msg + data == Whole(msg) + (Rest(msg) + data);
    WholeAppend(Whole(msg), Rest(msg) + data);
  }

  /** Completing the partial block with the first k bytes, then whole blocks, then what is left. */
  lemma FillAndGoOn(msg: seq<Byte>, data: seq<Byte>, k: nat)
    requires k <= |data| && (|msg| % 64 + k == 64 || (|msg| % 64 == 0 && k == 0))
    ensures var b := Rest(msg) + data[..k];
            && |b| % 64 == 0 && Rest(msg + data) == Rest(data[k..]) && |msg + data| % 64 == |data[k..]| % 64
            && Fold(INIT, Whole(msg + data)) == Fold(Fold(Fold(INIT, Whole(msg)), b), Whole(data[k..]))
  {
    hide Fold;
    WholeRest(msg);
    var b, m := Rest(msg) + data[..k], Whole(msg) + (Rest(msg) + data[..k]);
    FoldJoin(INIT, Whole(msg), b);
    assert msg + data == m + data[k..];
    WholeAppend(m, data[k..]);
    FoldJoin(INIT, m, Whole(data[k..]));
    AddBlocks(|m|, |data[k..]|);
  }

  class Context {
    var h: Hash
    var lo: nat
    var hi: nat
    const buffer: array<Byte>
    const block: array<Word>
    /** All bytes so far, and the lengths of the updates they came in. */
    ghost var msg: seq<Byte>
    ghost var parts: seq<nat>

    ghost predicate Shaped() { buffer.Length == 64 && block.Length == 16 }

    ghost predicate Valid() reads this, buffer { Shaped() && Absorbed(h, buffer[..], msg) && Counted(lo, hi, msg, parts) }

    /** md5_init on a fresh context. */
    constructor ()
      ensures Valid() && msg == [] && parts == [] && fresh(buffer) && fresh(block)
    {
      h, lo, hi, msg, parts := INIT, 0, 0, [], [];
      buffer := new Byte[64](i => 0);
      block := new Word[16](i => 0);
      new;
      hide Absorbed, Counted;
      Nothing(buffer[..]);
    }

    /** copy_from_slice into the buffer. */
    method Put(at: nat, data: seq<Byte>)
      requires Shaped() && at + |data| <= 64
      modifies buffer
      ensures buffer[..] == old(buffer[..])[..at] + data + old(buffer[..])[at + |data|..]
    {
      forall i | 0 <= i < |data| { buffer[at + i] := data[i]; }
      assert buffer[..][..at] == old(buffer[..])[..at] && buffer[..][at..at + |data|] == data;
      assert buffer[..][at + |data|..] == old(buffer[..])[at + |data|..];
      assert buffer[..] == buffer[..][..at] + buffer[..][at..at + |data|] + buffer[..][at + |data|..];
    }

    /** One chunk: decode the sixteen words, run the rounds. */
    method Chunk(chunk: seq<Byte>)
      requires Shaped() && |chunk| == 64
      modifies this`h, block
      ensures h == Compress(old(h), chunk)
    {
      hide Mixed, WordAt;
      for i := 0 to 16
        invariant h == old(h) && forall j {:trigger block[j]} :: 0 <= j < i ==> block[j] == WordAt(chunk, j)
      {
        block[i] := WordAt(chunk, i);
      }
      var x := block[..];
      assert x == Words(chunk);
      h := Rounds(h, x);
    }

    /** body: every whole 64-byte chunk of the data in turn. */
    method Body(data: seq<Byte>)
      requires Shaped()
      modifies this`h, block
      ensures h == Fold(old(h), Whole(data))
    {
      hide Compress, Fold;
      var i := 0;
      EmptyFold(h);
      while i + 64 <= |data|
        invariant i % 64 == 0 && i <= |data| && h == Fold(old(h), data[..i])
      {
        Chunk(data[i..i + 64]);
        AddBlocks(i, 64);
        assert data[..i + 64] == data[..i] + data[i..i + 64];
        FoldJoin(old(h), data[..i], data[i..i + 64]);
        FoldOne(Fold(old(h), data[..i]), data[i..i + 64]);
        i := i + 64;
      }
      AddBlocks(i, |data| - i);
      assert data[..i] == Whole(data);
    }

    /** Data that does not complete the partial block only fills it. */
    method Fill(used: nat, data: seq<Byte>)
      requires Shaped() && Absorbed(h, buffer[..], msg) && used == |msg| % 64 && used + |data| < 64
      modifies buffer
      ensures Absorbed(h, buffer[..], msg + data)
    {
      hide Fold;
      Put(used, data);
      FillOnly(msg, data);
      assert buffer[..][..used + |data|] == Rest(msg) + data;
    }

    /** Complete the partial block, if there is one, from the front of the data. */
    method Complete(used: nat, data: seq<Byte>) returns (offset: nat)
      requires Shaped() && Absorbed(h, buffer[..], msg) && used == |msg| % 64 && (used != 0 ==> used + |data| >= 64)
      modifies this`h, buffer, block
      ensures offset <= |data| && (used + offset == 64 || (used == 0 && offset == 0))
      ensures |Rest(msg) + data[..offset]| % 64 == 0 && h == Fold(Fold(INIT, Whole(msg)), Rest(msg) + data[..offset])
    {
      hide Fold;
      WholeRest(msg);
      offset := 0;
      EmptyFold(h);
      assert used == 0 ==> Rest(msg) + data[..0] == [];
      if used != 0 {
        offset := 64 - used;
        ghost var b := Rest(msg) + data[..offset];
        Put(used, data[..offset]);
        assert buffer[..] == b;
        assert Whole(b) == b;
        Body(buffer[..]);
      }
    }

    /** Fold the whole blocks of what is left and keep the rest. */
    method Finish(data: seq<Byte>)
      requires Shaped()
      modifies this`h, buffer, block
      ensures h == Fold(old(h), Whole(data)) && buffer[..][..|data| % 64] == Rest(data)
    {
      hide Fold;
      EmptyFold(h);
      var blocks := |data| - |data| % 64;
      assert Whole(data) == data[..blocks] && Whole(data[..blocks]) == data[..blocks] by { MultipleOf64(|data| / 64, blocks); }
      if blocks > 0 {
        Body(data[..blocks]);
      }
      Put(0, data[blocks..]);
    }

    /** md5_update: the context holds the message with the new data appended, however it was split. */
    method Update(data: seq<Byte>)
      requires Valid()
      modifies this, buffer, block
      ensures Valid() && msg == old(msg) + data && parts == old(parts) + [|data|]
    {
      hide Fold, Counted, Whole, Rest;
      var used := Used();
      Count(|data|, data);
      if used != 0 && |data| < 64 - used {
        Fill(used, data);
      } else {
        var offset := Complete(used, data);
        Finish(data[offset..]);
        FillAndGoOn(msg, data, offset);
      }
      msg, parts := msg + data, parts + [|data|];
    }

    /** The bytes waiting in the buffer: the low six bits of lo. */
    method Used() returns (used: nat)
      requires Valid()
      ensures used == |msg| % 64 && lo < U32 && hi < U32
    {
      UsedIs(|msg|);
      used := lo % 64;
    }

    /** The counter arithmetic at the head of md5_update: lo and hi count the message with the new data as one more part. */
    method Count(n: nat, ghost data: seq<Byte>)
      requires Counted(lo, hi, msg, parts) && n == |data|
      modifies this`lo, this`hi
      ensures Counted(lo, hi, msg + data, parts + [n])
    {
      var savedLo := lo;
      lo := (lo + n % U32) % U32;
      ghost var wrapped := if lo < savedLo then 1 else 0;
      if lo < savedLo { hi := (hi + 1) % U32; }
      assert hi == (old(hi) + wrapped) % U32;
      var more := (n % U32) / 0x2000_0000;
      hi := (hi + more) % U32;
      HiAdvances(old(hi) + wrapped, more);
      hide Counted;
      CountedAppend(old(lo), old(hi), msg, parts, data, lo, hi);
    }

    /** Zero a range of the buffer. */
    method Clear(from: nat, to: nat)
      requires Shaped() && from <= to <= 64
      modifies buffer
      ensures buffer[..] == old(buffer[..])[..from] + Zeros(to - from) + old(buffer[..])[to..]
    {
      Put(from, Zeros(to - from));
    }

    /**
     * The padding of md5_final: 0x80 and zeros up to the place of the count, with a block in between if the count does
     * not fit. A partial block of 56 bytes asks for the empty range 57..56, on which the code panics.
     */
    method Pad(used: nat) returns (ok: bool)
      requires Shaped() && Absorbed(h, buffer[..], msg) && used == |msg| % 64
      modifies this`h, buffer, block
      ensures ok <==> used != 56
      ensures used < 56 ==> h == old(h) && buffer[..][..56] == Rest(msg) + [0x80] + Zeros(55 - used)
      ensures used > 56 ==> buffer[..][..56] == Zeros(56) && |Rest(msg) + [0x80] + Zeros(63 - used)| == 64
                            && h == Compress(old(h), Rest(msg) + [0x80] + Zeros(63 - used))
    {
      hide Fold, Compress;
      WholeRest(msg);
      Put(used, [0x80]);
      assert buffer[..][..used + 1] == Rest(msg) + [0x80];
      var available := 64 - used;
      if available < 8 {
        Clear(used + 1, 64);
        ghost var b := Rest(msg) + [0x80] + Zeros(63 - used);
        assert buffer[..] == b && Whole(b) == b;
        Body(buffer[..]);
        FoldOne(old(h), b);
        Clear(0, 64);
      } else if used + 1 > 56 {
        return false;
      } else {
        Clear(used + 1, 56);
      }
      ok := true;
    }

    /** Put the count in place and run the last block. */
    method Close(ghost front: seq<Byte>)
      requires Shaped() && |front| == 56 && buffer[..][..56] == front && hi < U32
      modifies this`h, buffer, block
      ensures |front + LeBytes(CountField(lo, hi), 8)| == 64 && h == Compress(old(h), front + LeBytes(CountField(lo, hi), 8))
    {
      hide Fold, Compress, LeBytes, CountField;
      CountBytes(lo, hi);
      Put(56, LeBytes((lo * 8) % U32, 4));
      Put(60, LeBytes(hi, 4));
      ghost var b := front + LeBytes(CountField(lo, hi), 8);
      assert buffer[..] == b && Whole(b) == b;
      Body(buffer[..]);
      FoldOne(old(h), b);
    }

    /**
     * md5_final. It panics exactly when the message ends 56 bytes into a block; otherwise the digest is that of the
     * blocks fed, which are the padded message of RFC 1321 exactly when the message was split right.
     */
    method Final() returns (out: Option<seq<Byte>>, ghost fed: seq<Byte>)
      requires Valid()
      modifies this, buffer, block
      ensures out == None <==> |old(msg)| % 64 == 56
      ensures |fed| % 64 == 0 && (out.Some? ==> out.value == Digest(Fold(INIT, fed)))
      ensures fed == RfcPadded(old(msg)) <==> SplitsRight(old(parts))
      ensures out.Some? && SplitsRight(old(parts)) ==> out.value == Md5Of(old(msg))
      ensures out.Some? ==> lo == 0 && hi == 0 && h == Hash(0, 0, 0, 0) && buffer[..] == Zeros(64)
    {
      hide Fold, Compress, Digest, LeBytes, CountField, Padded, SplitsRight, Gap;
      var used := Used();
      ghost var bits := CountField(lo, hi);
      fed := Padded(msg, bits);
      FedExactly(lo, hi, msg, parts);
      var ok := Pad(used);
      if !ok { return None, fed; }
      if used < 56 { OneLastBlock(msg, bits); } else { TwoLastBlocks(msg, bits); }
      Close(if used < 56 then Rest(msg) + [0x80] + Zeros(55 - used) else Zeros(56));
      out := Some(Digest(h));
      h, lo, hi := Hash(0, 0, 0, 0), 0, 0;
      Clear(0, 64);
    }
  }

  lemma EmptyFold(h: Hash)
    ensures Fold(h, []) == h
  {
  }

  lemma FedExactly(lo: nat, hi: nat, msg: seq<Byte>, parts: seq<nat>)
    requires Counted(lo, hi, msg, parts)
    ensures |Padded(msg, CountField(lo, hi))| % 64 == 0
    ensures Padded(msg, CountField(lo, hi)) == RfcPadded(msg) <==> SplitsRight(parts)
  {
    hide Padded, CountField, SplitsRight;
    CarriesRightExactly(parts);
    CountExactly(|msg|, hi);
    PaddedWhole(msg, CountField(lo, hi));
    PaddedExactly(msg, CountField(lo, hi), (8 * |msg|) % U64);
  }

  /** A message cut into updates, then final: the MD5 of the message, if it was split right; below 2^29 bytes it always is. */
  method HashInParts(pieces: seq<seq<Byte>>) returns (out: Option<seq<Byte>>)
    ensures SplitsRight(Lengths(pieces)) || |Flat(pieces)| < 0x2000_0000 ==>
              out == if |Flat(pieces)| % 64 == 56 then None else Some(Md5Of(Flat(pieces)))
  {
    hide Md5Of;
    var ctx := new Context();
    for i := 0 to |pieces|
      invariant ctx.Valid() && fresh(ctx) && fresh(ctx.buffer) && fresh(ctx.block) && ctx.msg == Flat(pieces[..i])
      invariant ctx.parts == Lengths(pieces[..i])
    {
      ctx.Update(pieces[i]);
      assert pieces[..i + 1][..i] == pieces[..i];
    }
    assert pieces[..|pieces|] == pieces;
    ghost var msg, parts := ctx.msg, ctx.parts;
    WhenCarriesRight(parts, 0);
    ghost var fed;
    out, fed := ctx.Final();
  }

  function Lengths(pieces: seq<seq<Byte>>): seq<nat> {
    if pieces == [] then [] else Lengths(pieces[..|pieces| - 1]) + [|pieces[|pieces| - 1]|]
  }

  function Flat(pieces: seq<seq<Byte>>): seq<Byte> {
    if pieces == [] then [] else Flat(pieces[..|pieces| - 1]) + pieces[|pieces| - 1]
  }

  /** md5_simple before its hexadecimal printing: one update, so right for every length below 2^32. */
  method Simple(data: seq<Byte>) returns (out: Option<seq<Byte>>)
    ensures |data| < U32 ==> out == if |data| % 64 == 56 then None else Some(Md5Of(data))
  {
    hide Md5Of;
    var ctx := new Context();
    ctx.Update(data);
    assert ctx.msg == data && ctx.parts == [|data|];
    WhenCarriesRight([], |data|);
    ghost var fed;
    out, fed := ctx.Final();
  }
}
