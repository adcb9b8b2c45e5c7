/** The initial user stack: argument and environment strings on the heap, and above the stack pointer what points to them. */
module UserStack {
  import Alignment
  import opened Octets

  type Mem = map<nat, Byte>
  type CString = seq<Byte>

  const PAGE_SIZE := 4096

  predicate ByteIs(mem: Mem, x: nat, v: Byte) { x in mem && mem[x] == v }

  ghost predicate Holds(mem: Mem, a: nat, data: seq<Byte>) {
    forall i {:trigger data[i]} :: 0 <= i < |data| ==> ByteIs(mem, a + i, data[i])
  }

  /** Nothing outside [lo, hi) changed. */
  ghost predicate Kept(mem: Mem, mem': Mem, lo: nat, hi: nat) {
    forall x {:trigger x in mem'} :: x in mem && !(lo <= x < hi) ==> x in mem' && mem'[x] == mem[x]
  }

  /** Words of eight bytes, low-order byte first, one after the other from a. */
  ghost predicate WordsAt(mem: Mem, a: nat, ws: seq<nat>) {
    forall i {:trigger ws[i]} :: 0 <= i < |ws| ==> Holds(mem, a + 8 * i, LeBytes(ws[i], 8))
  }

  /** The value read back from eight bytes. */
  function WordIn(mem: Mem, a: nat): nat { LeValue(seq(8, i => if a + i in mem then mem[a + i] else 0)) }

  lemma ReadsBack(mem: Mem, a: nat, ws: seq<nat>, i: nat)
    requires WordsAt(mem, a, ws) && i < |ws|
    ensures WordIn(mem, a + 8 * i) == ws[i] % U64
  {
    var b, p := LeBytes(ws[i], 8), a + 8 * i;
    var r: seq<Byte> := seq(8, k => if p + k in mem then mem[p + k] else 0);
    forall k | 0 <= k < 8 ensures r[k] == b[k] { assert ByteIs(mem, p + k, b[k]); }
    assert r == b;
    LeRoundTrip(ws[i], 8);
    Powers();
  }

  lemma HoldsKept(mem: Mem, mem': Mem, lo: nat, hi: nat, a: nat, data: seq<Byte>)
    requires Holds(mem, a, data) && Kept(mem, mem', lo, hi) && (a + |data| <= lo || hi <= a)
    ensures Holds(mem', a, data)
  {
    forall i | 0 <= i < |data| ensures ByteIs(mem', a + i, data[i]) {
      assert ByteIs(mem, a + i, data[i]);
      assert a + i in mem';
    }
  }

  lemma WordsKept(mem: Mem, mem': Mem, lo: nat, hi: nat, a: nat, ws: seq<nat>)
    requires WordsAt(mem, a, ws) && Kept(mem, mem', lo, hi) && (a + 8 * |ws| <= lo || hi <= a)
    ensures WordsAt(mem', a, ws)
  {
    hide Holds, Kept, LeBytes;
    forall i | 0 <= i < |ws| ensures Holds(mem', a + 8 * i, LeBytes(ws[i], 8)) { HoldsKept(mem, mem', lo, hi, a + 8 * i, LeBytes(ws[i], 8)); }
  }

  lemma KeptTwice(m0: Mem, m1: Mem, m2: Mem, lo: nat, mid: nat, hi: nat)
    requires Kept(m0, m1, mid, hi) && Kept(m1, m2, lo, mid) && lo <= mid <= hi
    ensures Kept(m0, m2, lo, hi)
  {
    forall x | x in m0 && !(lo <= x < hi) ensures x in m2 && m2[x] == m0[x] { assert x in m1; }
  }

  // ---------------------------------------------------------------- strings

  /** Bytes taken by the first i strings, each with its NUL. */
  function Prefix(strings: seq<CString>, i: nat): nat
    requires i <= |strings|
  {
    if i == 0 then 0 else Prefix(strings, i - 1) + |strings[i - 1]| + 1
  }

  lemma {:induction false} PrefixGrows(strings: seq<CString>, i: nat, j: nat)
    requires i < j <= |strings|
    ensures Prefix(strings, i) + |strings[i]| + 1 <= Prefix(strings, j)
  {
    if j > i + 1 { PrefixGrows(strings, i, j - 1); }
  }

  /** Every one of the first n strings is in memory from start on, NUL-terminated. */
  ghost predicate Stored(mem: Mem, start: nat, strings: seq<CString>, n: nat) {
    forall i {:trigger strings[i]} :: 0 <= i < |strings| && i < n ==> Holds(mem, start + Prefix(strings, i), strings[i] + [0])
  }

  lemma PrefixStart(strings: seq<CString>)
    ensures Prefix(strings, 0) == 0
  {
  }

  lemma PrefixStep(strings: seq<CString>, i: nat)
    requires i < |strings|
    ensures Prefix(strings, i + 1) == Prefix(strings, i) + (|strings[i]| + 1)
  {
  }

  lemma StoredNone(mem: Mem, start: nat, strings: seq<CString>)
    ensures Stored(mem, start, strings, 0)
  {
  }

  lemma StoredOneMore(mem: Mem, start: nat, strings: seq<CString>, i: nat)
    requires i < |strings| && Stored(mem, start, strings, i) && Holds(mem, start + Prefix(strings, i), strings[i] + [0])
    ensures Stored(mem, start, strings, i + 1)
  {
    hide Holds, Prefix;
  }

  lemma StoredKept(mem: Mem, mem': Mem, lo: nat, hi: nat, start: nat, strings: seq<CString>, n: nat)
    requires Stored(mem, start, strings, n) && n <= |strings| && Kept(mem, mem', lo, hi) && (start + Prefix(strings, n) <= lo || hi <= start)
    ensures Stored(mem', start, strings, n)
  {
    hide Holds, Kept, Prefix;
    forall i | 0 <= i < |strings| && i < n ensures Holds(mem', start + Prefix(strings, i), strings[i] + [0]) {
      PrefixGrows(strings, i, n);
      HoldsKept(mem, mem', lo, hi, start + Prefix(strings, i), strings[i] + [0]);
    }
  }

  /** The address of every string. */
  function Pointers(start: nat, strings: seq<CString>): seq<nat> {
    seq(|strings|, i requires 0 <= i < |strings| => start + Prefix(strings, i))
  }

  lemma WordsCons(mem: Mem, a: nat, v: nat, ws: seq<nat>)
    requires WordsAt(mem, a + 8, ws) && Holds(mem, a, LeBytes(v, 8))
    ensures WordsAt(mem, a, [v] + ws)
  {
    hide Holds, LeBytes;
    forall i | 0 <= i < |[v] + ws| ensures Holds(mem, a + 8 * i, LeBytes(([v] + ws)[i], 8)) {
      if i > 0 { assert Holds(mem, a + 8 + 8 * (i - 1), LeBytes(ws[i - 1], 8)); }
    }
  }

  // ---------------------------------------------------------------- the auxiliary vector

  datatype Phdr = Phdr(load: bool, vaddr: nat)

  datatype Image = Image(phdrs: seq<Phdr>, dynamic: bool, phoff: nat, phentsize: nat, entry: nat, atBase: nat, executableBase: nat)

  function Pair(key: nat, value: nat): seq<nat> { [key, value] }

  /** AT_PHDR, AT_FLAGS and so on up to AT_NULL, each key followed by its value. */
  function Auxv(elf: Image, phdrBase: nat, random: nat): seq<nat> {
    Pair(3, elf.executableBase + phdrBase + elf.phoff) + (Pair(16, 0) + (Pair(8, 0) + (Pair(7, elf.atBase)
    + (Pair(9, elf.executableBase + elf.entry) + (Pair(4, elf.phentsize) + (Pair(5, |elf.phdrs|) + (Pair(23, 0)
    + (Pair(6, PAGE_SIZE) + (Pair(25, random) + Pair(0, 0))))))))))
  }

  // ---------------------------------------------------------------- how a program reads it

  /** Over the words from a to the first NULL, and past it; the stack ends at top. */
  function PastNull(mem: Mem, a: nat, top: nat): nat
    decreases top - a
  {
    if a >= top || WordIn(mem, a) == 0 then a + 8 else PastNull(mem, a + 8, top)
  }

  /** The value of the first pair with the key, in the pairs from a to the one whose key is 0. */
  function AuxValue(mem: Mem, a: nat, top: nat, key: nat): Option<nat>
    decreases top - a
  {
    if a + 16 > top || WordIn(mem, a) == 0 then None
    else if WordIn(mem, a) == key then Some(WordIn(mem, a + 8))
    else AuxValue(mem, a + 16, top, key)
  }

  /** How many pairs there are before it. */
  function AuxCount(mem: Mem, a: nat, top: nat): nat
    decreases top - a
  {
    if a + 16 > top || WordIn(mem, a) == 0 then 0 else 1 + AuxCount(mem, a + 16, top)
  }

  /** Where the pairs start: behind argc, as many words as it says and their NULL, and the environment with its NULL. */
  function AuxStart(mem: Mem, rsp: nat, top: nat): nat { PastNull(mem, rsp + 8 * (WordIn(mem, rsp) + 2), top) }

  /** Every word from a on is the address of a NUL-terminated copy of its string, and a NULL follows. */
  ghost predicate Strung(mem: Mem, a: nat, strings: seq<CString>) {
    && (forall i {:trigger strings[i]} :: 0 <= i < |strings| ==> WordIn(mem, a + 8 * i) != 0 && Holds(mem, WordIn(mem, a + 8 * i), strings[i] + [0]))
    && WordIn(mem, a + 8 * |strings|) == 0
  }

  /** What a program finds under every key, and that the list ends after ten pairs with key 0. */
  ghost predicate AuxReads(mem: Mem, a: nat, top: nat, elf: Image, phdrBase: nat, random: nat) {
    && AuxValue(mem, a, top, 3) == Some((elf.executableBase + phdrBase + elf.phoff) % U64)
    && AuxValue(mem, a, top, 4) == Some(elf.phentsize % U64)
    && AuxValue(mem, a, top, 5) == Some(|elf.phdrs| % U64)
    && AuxValue(mem, a, top, 6) == Some(4096)
    && AuxValue(mem, a, top, 7) == Some(elf.atBase % U64)
    && AuxValue(mem, a, top, 8) == Some(0)
    && AuxValue(mem, a, top, 9) == Some((elf.executableBase + elf.entry) % U64)
    && AuxValue(mem, a, top, 16) == Some(0)
    && AuxValue(mem, a, top, 23) == Some(0)
    && AuxValue(mem, a, top, 25) == Some(random % U64)
    && AuxCount(mem, a, top) == 10 && WordIn(mem, a + 160) == 0
  }

  lemma {:induction false} PastNullIs(mem: Mem, a: nat, top: nat, n: nat)
    requires (forall i {:trigger WordIn(mem, a + 8 * i)} :: 0 <= i < n ==> WordIn(mem, a + 8 * i) != 0) && WordIn(mem, a + 8 * n) == 0 && a + 8 * n < top
    ensures PastNull(mem, a, top) == a + 8 * (n + 1)
    decreases n
  {
    hide WordIn;
    if n > 0 {
      assert WordIn(mem, a + 8 * 0) != 0;
      forall i | 0 <= i < n - 1 ensures WordIn(mem, a + 8 + 8 * i) != 0 {
        assert WordIn(mem, a + 8 * (i + 1)) != 0;
        assert a + 8 + 8 * i == a + 8 * (i + 1);
      }
      assert a + 8 + 8 * (n - 1) == a + 8 * n;
      PastNullIs(mem, a + 8, top, n - 1);
    }
  }

  /** Pairs with these keys, in this order, and none of them 0. */
  ghost predicate Keyed(mem: Mem, a: nat, keys: seq<nat>) {
    forall i {:trigger keys[i]} :: 0 <= i < |keys| ==> keys[i] != 0 && WordIn(mem, a + 16 * i) == keys[i]
  }

  lemma KeyedRest(mem: Mem, a: nat, keys: seq<nat>)
    requires Keyed(mem, a, keys) && keys != []
    ensures WordIn(mem, a) == keys[0] && Keyed(mem, a + 16, keys[1..])
  {
    hide WordIn;
    assert WordIn(mem, a + 16 * 0) == keys[0];
    forall i | 0 <= i < |keys| - 1 ensures keys[1..][i] != 0 && WordIn(mem, a + 16 + 16 * i) == keys[1..][i] {
      assert keys[1..][i] == keys[i + 1] && a + 16 + 16 * i == a + 16 * (i + 1);
    }
  }

  lemma {:induction false} AuxAt(mem: Mem, a: nat, top: nat, keys: seq<nat>, j: nat)
    requires Keyed(mem, a, keys) && j < |keys| && a + 16 * |keys| <= top && forall i {:trigger keys[i]} :: 0 <= i < j ==> keys[i] != keys[j]
    ensures AuxValue(mem, a, top, keys[j]) == Some(WordIn(mem, a + 16 * j + 8))
    decreases j
  {
    hide WordIn, Keyed;
    KeyNotZero(mem, a, keys);
    KeyedRest(mem, a, keys);
    if j > 0 {
      AuxAt(mem, a + 16, top, keys[1..], j - 1);
      assert a + 16 + 16 * (j - 1) + 8 == a + 16 * j + 8;
    }
  }

  lemma KeyNotZero(mem: Mem, a: nat, keys: seq<nat>)
    requires Keyed(mem, a, keys) && keys != []
    ensures keys[0] != 0
  {
  }

  lemma {:induction false} AuxCounted(mem: Mem, a: nat, top: nat, keys: seq<nat>)
    requires Keyed(mem, a, keys) && a + 16 * |keys| <= top && WordIn(mem, a + 16 * |keys|) == 0
    ensures AuxCount(mem, a, top) == |keys|
    decreases |keys|
  {
    hide WordIn, Keyed;
    if keys != [] {
      KeyNotZero(mem, a, keys);
      KeyedRest(mem, a, keys);
      assert a + 16 + 16 * |keys[1..]| == a + 16 * |keys|;
      AuxCounted(mem, a + 16, top, keys[1..]);
    }
  }

  const KEYS: seq<nat> := [3, 16, 8, 7, 9, 4, 5, 23, 6, 25]

  lemma AuxWords(mem: Mem, a: nat, elf: Image, phdrBase: nat, random: nat, i: nat)
    requires WordsAt(mem, a, Auxv(elf, phdrBase, random)) && i < 22
    ensures |Auxv(elf, phdrBase, random)| == 22 && WordIn(mem, a + 8 * i) == Auxv(elf, phdrBase, random)[i] % U64
  {
    hide WordsAt, WordIn;
    ReadsBack(mem, a, Auxv(elf, phdrBase, random), i);
  }

  lemma AuxKeyed(mem: Mem, a: nat, elf: Image, phdrBase: nat, random: nat)
    requires WordsAt(mem, a, Auxv(elf, phdrBase, random))
    ensures Keyed(mem, a, KEYS) && WordIn(mem, a + 160) == 0
  {
    hide WordsAt, WordIn;
    forall i | 0 <= i < 10 ensures KEYS[i] != 0 && WordIn(mem, a + 16 * i) == KEYS[i] {
      AuxWords(mem, a, elf, phdrBase, random, 2 * i);
      assert a + 8 * (2 * i) == a + 16 * i;
    }
    AuxWords(mem, a, elf, phdrBase, random, 20);
  }

  lemma AuxFound(mem: Mem, a: nat, top: nat, elf: Image, phdrBase: nat, random: nat, j: nat)
    requires WordsAt(mem, a, Auxv(elf, phdrBase, random)) && a + 176 <= top && j < 10
    ensures |Auxv(elf, phdrBase, random)| == 22 && AuxValue(mem, a, top, KEYS[j]) == Some(Auxv(elf, phdrBase, random)[2 * j + 1] % U64)
  {
    hide WordsAt, WordIn, AuxValue, Keyed, Auxv;
    AuxKeyed(mem, a, elf, phdrBase, random);
    assert forall i {:trigger KEYS[i]} :: 0 <= i < j ==> KEYS[i] != KEYS[j];
    AuxAt(mem, a, top, KEYS, j);
    AuxWords(mem, a, elf, phdrBase, random, 2 * j + 1);
    assert a + 8 * (2 * j + 1) == a + 16 * j + 8;
  }

  lemma AuxvReads(mem: Mem, a: nat, top: nat, elf: Image, phdrBase: nat, random: nat)
    requires WordsAt(mem, a, Auxv(elf, phdrBase, random)) && a + 176 <= top
    ensures AuxReads(mem, a, top, elf, phdrBase, random)
  {
    hide WordsAt, WordIn, AuxValue, AuxCount, Keyed;
    AuxFound(mem, a, top, elf, phdrBase, random, 0);
    AuxFound(mem, a, top, elf, phdrBase, random, 1);
    AuxFound(mem, a, top, elf, phdrBase, random, 2);
    AuxFound(mem, a, top, elf, phdrBase, random, 3);
    AuxFound(mem, a, top, elf, phdrBase, random, 4);
    AuxFound(mem, a, top, elf, phdrBase, random, 5);
    AuxFound(mem, a, top, elf, phdrBase, random, 6);
    AuxFound(mem, a, top, elf, phdrBase, random, 7);
    AuxFound(mem, a, top, elf, phdrBase, random, 8);
    AuxFound(mem, a, top, elf, phdrBase, random, 9);
    AuxKeyed(mem, a, elf, phdrBase, random);
    AuxCounted(mem, a, top, KEYS);
  }

  lemma PointersStrung(mem: Mem, a: nat, start: nat, strings: seq<CString>, rest: seq<nat>)
    requires WordsAt(mem, a, Pointers(start, strings) + ([0] + rest)) && Stored(mem, start, strings, |strings|)
    requires start > 0 && start + Prefix(strings, |strings|) < U64
    ensures Strung(mem, a, strings) && WordsAt(mem, a + 8 * (|strings| + 1), rest)
  {
    hide WordsAt, WordIn, Holds, Prefix;
    var ws, n := Pointers(start, strings) + ([0] + rest), |strings|;
    forall i | 0 <= i < n ensures WordIn(mem, a + 8 * i) != 0 && Holds(mem, WordIn(mem, a + 8 * i), strings[i] + [0]) {
      ReadsBack(mem, a, ws, i);
      PrefixGrows(strings, i, n);
      assert ws[i] == start + Prefix(strings, i);
    }
    ReadsBack(mem, a, ws, n);
    WordsBeyond(mem, a, ws, n + 1);
    assert ws[n + 1..] == rest;
  }

  lemma WordsBeyond(mem: Mem, a: nat, ws: seq<nat>, k: nat)
    requires WordsAt(mem, a, ws) && k <= |ws|
    ensures WordsAt(mem, a + 8 * k, ws[k..])
  {
    hide Holds, LeBytes;
    forall i | 0 <= i < |ws[k..]| ensures Holds(mem, a + 8 * k + 8 * i, LeBytes(ws[k..][i], 8)) {
      assert ws[k..][i] == ws[k + i] && a + 8 * k + 8 * i == a + 8 * (k + i);
    }
  }

  lemma EnvironmentEnds(mem: Mem, a: nat, top: nat, envv: seq<CString>)
    requires Strung(mem, a, envv) && a + 8 * |envv| < top
    ensures PastNull(mem, a, top) == a + 8 * (|envv| + 1)
  {
    hide WordIn, Holds, PastNull;
    forall i | 0 <= i < |envv| ensures WordIn(mem, a + 8 * i) != 0 { assert envv[i] == envv[i]; }
    PastNullIs(mem, a, top, |envv|);
  }

  /** What a program finds from its stack pointer up: argc, its arguments, its environment, and where the pairs start. */
  ghost predicate ReadsUp(mem: Mem, rsp: nat, top: nat, argv: seq<CString>, envv: seq<CString>) {
    && WordIn(mem, rsp) == |argv| && Strung(mem, rsp + 8, argv) && Strung(mem, rsp + 8 * (|argv| + 2), envv)
    && AuxStart(mem, rsp, top) == rsp + 8 * (|argv| + |envv| + 3)
  }

  lemma ReadEnvironment(mem: Mem, e: nat, top: nat, envs: nat, envv: seq<CString>, elf: Image, phdrBase: nat, random: nat)
    requires WordsAt(mem, e, Pointers(envs, envv) + ([0] + Auxv(elf, phdrBase, random))) && e + 8 * (|envv| + 23) == top
    requires Stored(mem, envs, envv, |envv|) && (envv != [] ==> envs > 0 && envs + Prefix(envv, |envv|) < U64)
    ensures Strung(mem, e, envv) && PastNull(mem, e, top) == e + 8 * (|envv| + 1)
    ensures AuxReads(mem, e + 8 * (|envv| + 1), top, elf, phdrBase, random)
  {
    hide WordsAt, WordIn, Stored, Strung, Prefix, Auxv, AuxReads, PastNull, Pointers;
    var aux := Auxv(elf, phdrBase, random);
    if envv == [] { NoneStrung(mem, e, envs, aux); } else { PointersStrung(mem, e, envs, envv, aux); }
    EnvironmentEnds(mem, e, top, envv);
    AuxvReads(mem, e + 8 * (|envv| + 1), top, elf, phdrBase, random);
  }

  lemma ReadArguments(mem: Mem, rsp: nat, args: nat, argv: seq<CString>, rest: seq<nat>)
    requires WordsAt(mem, rsp, [|argv|] + (Pointers(args, argv) + ([0] + rest))) && Stored(mem, args, argv, |argv|)
    requires args > 0 && args + Prefix(argv, |argv|) < U64 && |argv| < U64
    ensures WordIn(mem, rsp) == |argv| && Strung(mem, rsp + 8, argv) && WordsAt(mem, rsp + 8 * (|argv| + 2), rest)
  {
    hide WordsAt, WordIn, Stored, Strung, Prefix, Auxv, AuxReads, PastNull, Pointers;
    var ws := [|argv|] + (Pointers(args, argv) + ([0] + rest));
    ReadsBack(mem, rsp, ws, 0);
    assert rsp + 8 * 0 == rsp;
    WordsBeyond(mem, rsp, ws, 1);
    OneOff(|argv|, Pointers(args, argv) + ([0] + rest));
    PointersStrung(mem, rsp + 8, args, argv, rest);
    assert rsp + 8 + 8 * (|argv| + 1) == rsp + 8 * (|argv| + 2);
  }

  lemma OneOff(x: nat, s: seq<nat>)
    ensures ([x] + s)[1..] == s
  {
  }

  lemma ReadUp(mem: Mem, rsp: nat, top: nat, args: nat, argv: seq<CString>, envs: nat, envv: seq<CString>, elf: Image, phdrBase: nat, random: nat)
    requires WordsAt(mem, rsp, Vector(args, argv, envs, envv, Auxv(elf, phdrBase, random)))
    requires Stored(mem, args, argv, |argv|) && Stored(mem, envs, envv, |envv|) && rsp + 8 * (|argv| + |envv| + 25) == top <= U64
    requires args > 0 && args + Prefix(argv, |argv|) < U64 && (envv != [] ==> envs > 0 && envs + Prefix(envv, |envv|) < U64)
    ensures ReadsUp(mem, rsp, top, argv, envv) && AuxReads(mem, AuxStart(mem, rsp, top), top, elf, phdrBase, random)
  {
    hide WordsAt, WordIn, Stored, Strung, Prefix, Auxv, AuxReads, PastNull, Pointers;
    ReadArguments(mem, rsp, args, argv, Pointers(envs, envv) + ([0] + Auxv(elf, phdrBase, random)));
    ReadEnvironment(mem, rsp + 8 * (|argv| + 2), top, envs, envv, elf, phdrBase, random);
  }

  lemma NoneStrung(mem: Mem, a: nat, start: nat, rest: seq<nat>)
    requires WordsAt(mem, a, Pointers(start, []) + ([0] + rest))
    ensures Strung(mem, a, []) && WordsAt(mem, a + 8, rest)
  {
    hide WordsAt, WordIn;
    var ws := [0] + rest;
    assert Pointers(start, []) + ws == ws;
    ReadsBack(mem, a, ws, 0);
    assert a + 8 * 0 == a;
    WordsBeyond(mem, a, ws, 1);
    assert ws[1..] == rest;
  }

  /** The addresses of the PT_LOAD headers, in order. */
  function LoadAddrs(phdrs: seq<Phdr>): seq<nat> {
    if phdrs == [] then [] else
      var front, p := LoadAddrs(phdrs[..|phdrs| - 1]), phdrs[|phdrs| - 1];
      if p.load then front + [p.vaddr] else front
  }

  /** What is left of a list after its last zero. */
  function AfterZero(s: seq<nat>): seq<nat> {
    if s == [] || s[|s| - 1] == 0 then [] else AfterZero(s[..|s| - 1]) + [s[|s| - 1]]
  }

  predicate IsLeast(s: seq<nat>, x: nat) { x in s && forall y {:trigger y in s} :: y in s ==> x <= y }

  /** The loop for the lowest load address: 0 doubles as "none yet", so the least is over what follows the last zero. */
  method LowestVaddr(phdrs: seq<Phdr>) returns (lowest: nat)
    ensures if AfterZero(LoadAddrs(phdrs)) == [] then lowest == 0 else IsLeast(AfterZero(LoadAddrs(phdrs)), lowest) && lowest > 0
  {
    lowest := 0;
    for i := 0 to |phdrs|
      invariant var s := AfterZero(LoadAddrs(phdrs[..i])); if s == [] then lowest == 0 else IsLeast(s, lowest) && lowest > 0
    {
      assert phdrs[..i + 1][..i] == phdrs[..i];
      ghost var s, v := LoadAddrs(phdrs[..i]), phdrs[i].vaddr;
      if phdrs[i].load {
        assert (s + [v])[..|s|] == s;
        assert v in AfterZero(s) + [v];
        assert forall y {:trigger y in AfterZero(s) + [v]} :: y in AfterZero(s) + [v] <==> y in AfterZero(s) || y == v;
        if lowest == 0 || phdrs[i].vaddr < lowest { lowest := phdrs[i].vaddr; }
      }
    }
    assert phdrs[..|phdrs|] == phdrs;
  }

  /** That is the lowest load address exactly when no address 0 is followed by another one. */
  lemma LowestExactly(s: seq<nat>, x: nat)
    requires s != [] && if AfterZero(s) == [] then x == 0 else IsLeast(AfterZero(s), x) && x > 0
    ensures IsLeast(s, x) <==> (AfterZero(s) == [] || 0 !in s)
  {
    AfterZeroParts(s);
    if AfterZero(s) == [] { assert s[|s| - 1] == 0; }
  }

  /** A first segment at 0 is overlooked. */
  lemma LowestMissed()
    ensures AfterZero([0, 4096]) == [4096] && IsLeast(AfterZero([0, 4096]), 4096) && !IsLeast([0, 4096], 4096)
  {
    assert [0, 4096][..1] == [0];
    assert [0][..0] == [];
    assert 0 in [0, 4096];
  }

  lemma {:induction false} AfterZeroParts(s: seq<nat>)
    ensures forall y {:trigger y in s} :: y in AfterZero(s) ==> y in s && y > 0
    ensures 0 !in s ==> AfterZero(s) == s
  {
    if s != [] && s[|s| - 1] != 0 {
      var front := s[..|s| - 1];
      AfterZeroParts(front);
      assert s == front + [s[|s| - 1]];
      forall y | y in AfterZero(s) ensures y in s && y > 0 { assert y in front || y == s[|s| - 1]; }
    }
  }

  // ---------------------------------------------------------------- building it

  class UserImage {
    var mem: Mem
    var rsp: nat
    var heapEnd: nat

    constructor (rsp: nat, heapEnd: nat)
      ensures this.rsp == rsp && this.heapEnd == heapEnd && mem == map[]
    {
      this.rsp, this.heapEnd, mem := rsp, heapEnd, map[];
    }

    /** memcpy into the task's memory. */
    method Copy(a: nat, data: seq<Byte>)
      modifies this`mem
      ensures Holds(mem, a, data) && Kept(old(mem), mem, a, a + |data|)
    {
      for i := 0 to |data|
        invariant forall j {:trigger data[j]} :: 0 <= j < i ==> ByteIs(mem, a + j, data[j])
        invariant forall x {:trigger x in mem} :: x in old(mem) && !(a <= x < a + i) ==> x in mem && mem[x] == old(mem)[x]
      {
        mem := mem[a + i := data[i]];
      }
    }

    /** push_to_stack: one more word below the words already there. */
    method Push(v: nat, ghost ws: seq<nat>)
      requires rsp >= 8 && WordsAt(mem, rsp, ws)
      modifies this`mem, this`rsp
      ensures rsp == old(rsp) - 8 && WordsAt(mem, rsp, [v] + ws) && Kept(old(mem), mem, rsp, old(rsp))
    {
      hide Holds, Kept, WordsAt, LeBytes;
      rsp := rsp - 8;
      Copy(rsp, LeBytes(v, 8));
      WordsKept(old(mem), mem, rsp, rsp + 8, rsp + 8, ws);
      WordsCons(mem, rsp, v, ws);
    }

    method PushPair(key: nat, value: nat, ghost ws: seq<nat>)
      requires rsp >= 16 && WordsAt(mem, rsp, ws)
      modifies this`mem, this`rsp
      ensures rsp == old(rsp) - 16 && WordsAt(mem, rsp, Pair(key, value) + ws) && Kept(old(mem), mem, rsp, old(rsp))
    {
      hide Kept, WordsAt;
      Push(value, ws);
      ghost var m1, r1 := mem, rsp;
      Push(key, [value] + ws);
      assert [key] + ([value] + ws) == Pair(key, value) + ws;
      KeptTwice(old(mem), m1, mem, rsp, r1, old(rsp));
    }

    /** strlength over the bytes of a string and its NUL. */
    method StrLength(s: CString) returns (n: nat)
      requires 0 !in s
      ensures n == |s|
    {
      n := 0;
      while (s + [0])[n] != 0
        invariant n <= |s|
        decreases |s| - n
      {
        n := n + 1;
      }
    }

    /** stack_store_ptr_style: the strings one after the other in newly added heap. */
    method StoreStrings(strings: seq<CString>) returns (start: nat, ellapsed: nat)
      requires Strings(strings)
      modifies this`mem, this`heapEnd
      ensures start == old(heapEnd) && ellapsed == Prefix(strings, |strings|) && heapEnd == start + ellapsed
      ensures Stored(mem, start, strings, |strings|) && Kept(old(mem), mem, start, heapEnd)
    {
      hide Holds, Kept, Stored, Prefix;
      var argSpace := Measure(strings);
      start := heapEnd;
      heapEnd := heapEnd + argSpace;
      ellapsed := 0;
      PrefixStart(strings);
      KeptSame(mem, start);
      StoredNone(mem, start, strings);
      for i := 0 to |strings|
        invariant ellapsed == Prefix(strings, i) && heapEnd == start + argSpace && Stored(mem, start, strings, i)
        invariant Kept(old(mem), mem, start, start + ellapsed)
      {
        var len := StrLength(strings[i]);
        ghost var m := mem;
        Copy(start + ellapsed, strings[i] + [0]);
        StoredKept(m, mem, start + ellapsed, start + ellapsed + (len + 1), start, strings, i);
        StoredOneMore(mem, start, strings, i);
        KeptOnwards(old(mem), m, mem, start, start + ellapsed, start + ellapsed + (len + 1));
        PrefixStep(strings, i);
        ellapsed := ellapsed + (len + 1);
      }
    }

    /** The space the strings need. */
    method Measure(strings: seq<CString>) returns (argSpace: nat)
      requires Strings(strings)
      ensures argSpace == Prefix(strings, |strings|)
    {
      hide Prefix;
      PrefixStart(strings);
      argSpace := 0;
      for i := 0 to |strings|
        invariant argSpace == Prefix(strings, i)
      {
        PrefixStep(strings, i);
        var len := StrLength(strings[i]);
        argSpace := argSpace + (len + 1);
      }
    }

    /** The reverse loops: with the strings' lengths taken off the end, each pointer comes out as start plus a prefix sum. */
    method PushPointers(start: nat, ellapsed: nat, strings: seq<CString>, ghost ws: seq<nat>)
      requires Strings(strings)
      requires rsp >= 8 * |strings| && WordsAt(mem, rsp, ws) && ellapsed == Prefix(strings, |strings|)
      modifies this`mem, this`rsp
      ensures rsp == old(rsp) - 8 * |strings| && WordsAt(mem, rsp, Pointers(start, strings) + ws) && Kept(old(mem), mem, rsp, old(rsp))
    {
      hide Kept, WordsAt;
      var used, i := 0, |strings|;
      ghost var ps := Pointers(start, strings);
      assert ps[i..] + ws == ws;
      KeptSame(mem, rsp);
      while i > 0
        invariant 0 <= i <= |strings| && used == Prefix(strings, |strings|) - Prefix(strings, i) && rsp == old(rsp) - 8 * (|strings| - i)
        invariant WordsAt(mem, rsp, ps[i..] + ws) && Kept(old(mem), mem, rsp, old(rsp))
      {
        i := i - 1;
        var len := StrLength(strings[i]);
        used := used + (len + 1);
        ghost var m, r := mem, rsp;
        Push(start + ellapsed - used, ps[i + 1..] + ws);
        assert [ps[i]] + (ps[i + 1..] + ws) == ps[i..] + ws;
        KeptTwice(old(mem), m, mem, rsp, r, old(rsp));
      }
      assert ps[0..] + ws == ps + ws;
    }

    /** The auxiliary vector, last entry first. */
    method PushAuxv(elf: Image, phdrBase: nat, random: nat)
      requires rsp >= 176
      modifies this`mem, this`rsp
      ensures rsp == old(rsp) - 176 && WordsAt(mem, rsp, Auxv(elf, phdrBase, random)) && Kept(old(mem), mem, rsp, old(rsp))
      ensures AuxReads(mem, rsp, old(rsp), elf, phdrBase, random)
    {
      hide Kept, WordsAt, Pair, AuxReads;
      ghost var ws := PushLastPairs(elf, random);
      ws := AddPair(9, elf.executableBase + elf.entry, ws, old(mem), old(rsp));
      ws := AddPair(7, elf.atBase, ws, old(mem), old(rsp));
      ws := AddPair(8, 0, ws, old(mem), old(rsp));
      ws := AddPair(16, 0, ws, old(mem), old(rsp));
      ws := AddPair(3, elf.executableBase + phdrBase + elf.phoff, ws, old(mem), old(rsp));
      AuxvReads(mem, rsp, old(rsp), elf, phdrBase, random);
    }

    /** Its last six entries. */
    method PushLastPairs(elf: Image, random: nat) returns (ghost ws: seq<nat>)
      requires rsp >= 96
      modifies this`mem, this`rsp
      ensures ws == Pair(4, elf.phentsize) + (Pair(5, |elf.phdrs|) + (Pair(23, 0) + (Pair(6, PAGE_SIZE) + (Pair(25, random) + Pair(0, 0)))))
      ensures rsp == old(rsp) - 96 && WordsAt(mem, rsp, ws) && Kept(old(mem), mem, rsp, old(rsp))
    {
      hide Kept, WordsAt, Pair;
      NoWords(mem, rsp);
      PushPair(0, 0, []);
      ws := Pair(0, 0);
      assert Pair(0, 0) + [] == ws;
      ws := AddPair(25, random, ws, old(mem), old(rsp));
      ws := AddPair(6, PAGE_SIZE, ws, old(mem), old(rsp));
      ws := AddPair(23, 0, ws, old(mem), old(rsp));
      ws := AddPair(5, |elf.phdrs|, ws, old(mem), old(rsp));
      ws := AddPair(4, elf.phentsize, ws, old(mem), old(rsp));
    }

    method AddPair(key: nat, value: nat, ghost ws: seq<nat>, ghost m0: Mem, ghost top: nat) returns (ghost ws': seq<nat>)
      requires rsp >= 16 && WordsAt(mem, rsp, ws) && Kept(m0, mem, rsp, top) && rsp <= top
      modifies this`mem, this`rsp
      ensures rsp == old(rsp) - 16 && ws' == Pair(key, value) + ws && WordsAt(mem, rsp, ws') && Kept(m0, mem, rsp, top)
    {
      hide Kept, WordsAt;
      PushPair(key, value, ws);
      ws' := Pair(key, value) + ws;
      KeptTwice(m0, old(mem), mem, rsp, old(rsp), top);
    }

    /** Both pointer arrays with their NULLs, and argc. */
    method PushVectors(args: nat, argSpace: nat, argv: seq<CString>, envs: nat, envSpace: nat, envv: seq<CString>, ghost aux: seq<nat>)
      requires Strings(argv) && Strings(envv) && argSpace == Prefix(argv, |argv|) && envSpace == Prefix(envv, |envv|)
      requires rsp >= 8 * (|argv| + |envv| + 3) && WordsAt(mem, rsp, aux)
      modifies this`mem, this`rsp
      ensures rsp == old(rsp) - 8 * (|argv| + |envv| + 3) && WordsAt(mem, rsp, Vector(args, argv, envs, envv, aux))
      ensures Kept(old(mem), mem, rsp, old(rsp))
    {
      hide Kept, WordsAt, Prefix;
      Push(0, aux);
      ghost var ws, m, r := [0] + aux, mem, rsp;
      if envSpace > 0 {
        PushPointers(envs, envSpace, envv, ws);
        KeptTwice(old(mem), m, mem, rsp, r, old(rsp));
      } else {
        NoStrings(envv);
        assert Pointers(envs, envv) + ws == ws;
      }
      ws, m, r := Pointers(envs, envv) + ws, mem, rsp;
      Push(0, ws);
      KeptTwice(old(mem), m, mem, rsp, r, old(rsp));
      ws, m, r := [0] + ws, mem, rsp;
      PushPointers(args, argSpace, argv, ws);
      KeptTwice(old(mem), m, mem, rsp, r, old(rsp));
      ws, m, r := Pointers(args, argv) + ws, mem, rsp;
      Push(|argv|, ws);
      KeptTwice(old(mem), m, mem, rsp, r, old(rsp));
    }

    /**
     * stack_generate_user once the stack pages are mapped: reading upward from the final stack pointer gives argc, the
     * argument pointers, NULL, the environment pointers, NULL and the auxiliary vector, and every pointer addresses a
     * NUL-terminated copy of its string. The psABI wants that pointer on a 16-byte boundary: from an aligned top it is
     * there exactly for an odd number of strings.
     */
    method Generate(argv: seq<CString>, envv: seq<CString>, elf: Image, random: seq<Byte>) returns (args: nat, envs: nat, lowest: nat)
      requires Strings(argv) && Strings(envv) && |random| == 16
      requires heapEnd + 16 + Prefix(argv, |argv|) + Prefix(envv, |envv|) + 8 * (|argv| + |envv| + 25) <= rsp
      modifies this
      ensures rsp == old(rsp) - 8 * (|argv| + |envv| + 25) && heapEnd == old(heapEnd) + 16 + Prefix(argv, |argv|) + Prefix(envv, |envv|)
      ensures if AfterZero(LoadAddrs(elf.phdrs)) == [] then lowest == 0 else IsLeast(AfterZero(LoadAddrs(elf.phdrs)), lowest)
      ensures args == old(heapEnd) + 16 && (envv != [] ==> envs == args + Prefix(argv, |argv|))
      ensures WordsAt(mem, rsp, Vector(args, argv, envs, envv, Auxv(elf, if elf.dynamic then 0 else lowest, old(heapEnd))))
      ensures Stored(mem, args, argv, |argv|) && Stored(mem, envs, envv, |envv|) && Holds(mem, old(heapEnd), random)
      ensures KeptBoth(old(mem), mem, old(heapEnd), heapEnd, rsp, old(rsp))
      ensures old(rsp) <= U64 ==> ReadsUp(mem, rsp, old(rsp), argv, envv)
      ensures old(rsp) <= U64 ==> AuxReads(mem, AuxStart(mem, rsp, old(rsp)), old(rsp), elf, if elf.dynamic then 0 else lowest, old(heapEnd))
      ensures rsp % 16 == 0 <==> old(rsp) % 16 == if (|argv| + |envv|) % 2 == 1 then 0 else 8
    {
      hide Kept, WordsAt, Stored, Holds, Prefix, Auxv, Vector, KeptBoth, ReadsUp, AuxReads, AuxStart;
      ghost var H, top, end := heapEnd, rsp, heapEnd + 16 + Prefix(argv, |argv|) + Prefix(envv, |envv|);
      ghost var bottom := rsp - 8 * (|argv| + |envv| + 25);
      var randomStart := heapEnd;
      heapEnd := heapEnd + 16;
      KeptNothing(mem, H, end, bottom, top);
      Copy(randomStart, random);
      KeptBothThen(old(mem), old(mem), mem, H, end, bottom, top, H, H + 16);
      lowest := LowestVaddr(elf.phdrs);
      ghost var aux := Auxv(elf, if elf.dynamic then 0 else lowest, randomStart);
      ghost var m, r := mem, rsp;
      PushAuxv(elf, if elf.dynamic then 0 else lowest, randomStart);
      AuxvLength(elf, if elf.dynamic then 0 else lowest, randomStart);
      KeptBothThen(old(mem), m, mem, H, end, bottom, top, rsp, r);
      HoldsKept(m, mem, rsp, r, H, random);
      var argSpace, envSpace;
      m := mem;
      args, argSpace := StoreStrings(argv);
      KeptBothThen(old(mem), m, mem, H, end, bottom, top, args, heapEnd);
      HoldsKept(m, mem, args, heapEnd, H, random);
      WordsKept(m, mem, args, heapEnd, rsp, aux);
      envs, envSpace := 0, 0;
      NoStringsStored(mem, envs, envv);
      if |envv| > 0 {
        m := mem;
        envs, envSpace := StoreStrings(envv);
        KeptBothThen(old(mem), m, mem, H, end, bottom, top, envs, heapEnd);
        HoldsKept(m, mem, envs, heapEnd, H, random);
        WordsKept(m, mem, envs, heapEnd, rsp, aux);
        StoredKept(m, mem, envs, heapEnd, args, argv, |argv|);
      }
      m, r := mem, rsp;
      PushVectors(args, argSpace, argv, envs, envSpace, envv, aux);
      KeptBothThen(old(mem), m, mem, H, end, bottom, top, rsp, r);
      HoldsKept(m, mem, rsp, r, H, random);
      StoredKept(m, mem, rsp, r, args, argv, |argv|);
      if |envv| > 0 { StoredKept(m, mem, rsp, r, envs, envv, |envv|); } else { NoStringsStored(mem, envs, envv); }
      AlignedExactly(top, rsp, |argv| + |envv|);
      if top <= U64 { ReadUp(mem, rsp, top, args, argv, envs, envv, elf, if elf.dynamic then 0 else lowest, H); }
    }
  }

  ghost predicate Strings(strings: seq<CString>) { forall i {:trigger strings[i]} :: 0 <= i < |strings| ==> 0 !in strings[i] }

  /** What the x86-64 psABI, section 3.4.1, puts at the stack pointer of a new process. */
  function Vector(args: nat, argv: seq<CString>, envs: nat, envv: seq<CString>, aux: seq<nat>): seq<nat> {
    [|argv|] + (Pointers(args, argv) + ([0] + (Pointers(envs, envv) + ([0] + aux))))
  }

  ghost predicate KeptBoth(mem: Mem, mem': Mem, lo: nat, hi: nat, lo2: nat, hi2: nat) {
    forall x {:trigger x in mem'} :: x in mem && !(lo <= x < hi) && !(lo2 <= x < hi2) ==> x in mem' && mem'[x] == mem[x]
  }

  lemma KeptNothing(mem: Mem, lo: nat, hi: nat, lo2: nat, hi2: nat)
    ensures KeptBoth(mem, mem, lo, hi, lo2, hi2)
  {
  }

  lemma KeptBothThen(m0: Mem, m1: Mem, m2: Mem, lo: nat, hi: nat, lo2: nat, hi2: nat, a: nat, b: nat)
    requires KeptBoth(m0, m1, lo, hi, lo2, hi2) && Kept(m1, m2, a, b) && ((lo <= a && b <= hi) || (lo2 <= a && b <= hi2))
    ensures KeptBoth(m0, m2, lo, hi, lo2, hi2)
  {
    forall x | x in m0 && !(lo <= x < hi) && !(lo2 <= x < hi2) ensures x in m2 && m2[x] == m0[x] { assert x in m1; }
  }

  lemma NoWords(mem: Mem, a: nat)
    ensures WordsAt(mem, a, [])
  {
  }

  lemma AuxvLength(elf: Image, phdrBase: nat, random: nat)
    ensures |Auxv(elf, phdrBase, random)| == 22
  {
  }

  lemma NoStrings(strings: seq<CString>)
    requires Prefix(strings, |strings|) == 0
    ensures strings == []
  {
    if strings != [] { PrefixGrows(strings, 0, |strings|); }
  }

  lemma NoStringsStored(mem: Mem, start: nat, strings: seq<CString>)
    ensures strings == [] ==> Prefix(strings, |strings|) == 0 && Stored(mem, start, strings, |strings|)
  {
  }

  lemma AlignedExactly(top: nat, rsp: nat, strings: nat)
    requires rsp == top - 8 * (strings + 25)
    ensures rsp % 16 == 0 <==> top % 16 == if strings % 2 == 1 then 0 else 8
  {
    var k := (strings + 25) / 2;
    if strings % 2 == 1 {
      Alignment.DivUnique(top, 16, rsp / 16 + k, rsp % 16);
    } else {
      assert top == rsp + 8 + 16 * k;
      if rsp % 16 < 8 {
        Alignment.DivUnique(top, 16, rsp / 16 + k, rsp % 16 + 8);
      } else {
        Alignment.DivUnique(top, 16, rsp / 16 + k + 1, rsp % 16 - 8);
      }
    }
  }

  lemma KeptSame(mem: Mem, a: nat)
    ensures Kept(mem, mem, a, a)
  {
  }

  lemma KeptOnwards(m0: Mem, m1: Mem, m2: Mem, lo: nat, mid: nat, hi: nat)
    requires Kept(m0, m1, lo, mid) && Kept(m1, m2, mid, hi) && lo <= mid <= hi
    ensures Kept(m0, m2, lo, hi)
  {
    forall x | x in m0 && !(lo <= x < hi) ensures x in m2 && m2[x] == m0[x] { assert x in m1; }
  }
}
