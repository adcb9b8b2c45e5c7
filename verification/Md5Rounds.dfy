/** MD5's block function: the unrolled steps of the code against the rounds of section 3.4 of RFC 1321. */
module Md5Rounds {
  import opened Md5Words
  import opened Octets

  datatype Hash = Hash(a: Word, b: Word, c: Word, d: Word)

  // ---------------------------------------------------------------- the auxiliary functions, as coded

  function F(x: Word, y: Word, z: Word): Word { z ^ (x & (y ^ z)) }

  function G(x: Word, y: Word, z: Word): Word { y ^ (z & (x ^ y)) }

  function H(x: Word, y: Word, z: Word): Word { x ^ y ^ z }

  function H2(x: Word, y: Word, z: Word): Word { x ^ (y ^ z) }

  function I(x: Word, y: Word, z: Word): Word { y ^ (x | !z) }

  /** Addition of words, modulo 2^32. */
  function Add(x: Word, y: Word): Word { x + y }

  /** rotate_left on 32 bits. */
  function RotateLeft(w: Word, s: nat): Word
    requires s < 32
  {
    w.RotateLeft(s)
  }

  function Turn(sum: Word, b: Word, s: nat): Word
    requires s < 32
  {
    Add(RotateLeft(sum, s), b)
  }

  /** The new value of the register a of one step. */
  function Step(f: Word, a: Word, b: Word, x: Word, t: Word, s: nat): Word
    requires s < 32
  {
    Turn(a + f + x + t, b, s)
  }

  // ---------------------------------------------------------------- the reference

  /** The auxiliary function of step i, as section 3.4 writes it. */
  function Aux(i: nat, x: Word, y: Word, z: Word): Word {
    if i < 16 then (x & y) | (!x & z) else if i < 32 then (x & z) | (y & !z) else if i < 48 then x ^ y ^ z else y ^ (x | !z)
  }

  /** Which message word step i uses. */
  function WordOf(i: nat): nat {
    if i < 16 then i % 16 else if i < 32 then (5 * i + 1) % 16 else if i < 48 then (3 * i + 5) % 16 else (7 * i) % 16
  }

  const SHIFTS: seq<seq<nat>> := [[7, 12, 17, 22], [5, 9, 14, 20], [4, 11, 16, 23], [6, 10, 15, 21]]

  function ShiftOf(i: nat): (s: nat)
    requires i < 64
    ensures s < 32
  {
    SHIFTS[i / 16][i % 4]
  }

  const SINES1: seq<Word> := [0xd76aa478, 0xe8c7b756, 0x242070db, 0xc1bdceee, 0xf57c0faf, 0x4787c62a, 0xa8304613, 0xfd469501, 0x698098d8, 0x8b44f7af, 0xffff5bb1, 0x895cd7be, 0x6b901122, 0xfd987193, 0xa679438e, 0x49b40821]
  const SINES2: seq<Word> := [0xf61e2562, 0xc040b340, 0x265e5a51, 0xe9b6c7aa, 0xd62f105d, 0x02441453, 0xd8a1e681, 0xe7d3fbc8, 0x21e1cde6, 0xc33707d6, 0xf4d50d87, 0x455a14ed, 0xa9e3e905, 0xfcefa3f8, 0x676f02d9, 0x8d2a4c8a]
  const SINES3: seq<Word> := [0xfffa3942, 0x8771f681, 0x6d9d6122, 0xfde5380c, 0xa4beea44, 0x4bdecfa9, 0xf6bb4b60, 0xbebfbc70, 0x289b7ec6, 0xeaa127fa, 0xd4ef3085, 0x04881d05, 0xd9d4d039, 0xe6db99e5, 0x1fa27cf8, 0xc4ac5665]
  const SINES4: seq<Word> := [0xf4292244, 0x432aff97, 0xab9423a7, 0xfc93a039, 0x655b59c3, 0x8f0ccc92, 0xffeff47d, 0x85845dd1, 0x6fa87e4f, 0xfe2ce6e0, 0xa3014314, 0x4e0811a1, 0xf7537e82, 0xbd3af235, 0x2ad7d2bb, 0xeb86d391]

  /** The table of sines. */
  function SineOf(i: nat): Word
    requires i < 64
  {
    if i < 16 then SINES1[i] else if i < 32 then SINES2[i - 16] else if i < 48 then SINES3[i - 32] else SINES4[i - 48]
  }

  /** The circular shift of section 2: the bits that leave on the left come back on the right. */
  function Rotated(w: Word, s: nat): Word
    requires s < 32
  {
    (w << s) | (w >> (32 - s))
  }

  function Shifted(b: Word, sum: Word, s: nat): Word
    requires s < 32
  {
    Add(b, Rotated(sum, s))
  }

  /** The operation of section 3.4: b + ((a + f + X[k] + T[i]) <<< s). */
  function Operation(f: Word, a: Word, b: Word, x: Word, t: Word, s: nat): Word
    requires s < 32
  {
    Shifted(b, a + f + x + t, s)
  }

  /** One step in registers that turn round: the new value goes to b, the others move along. */
  function RfcStep(h: Hash, block: seq<Word>, i: nat): Hash
    requires |block| == 16 && i < 64
  {
    Hash(h.d, Operation(Aux(i, h.b, h.c, h.d), h.a, h.b, block[WordOf(i)], SineOf(i), ShiftOf(i)), h.b, h.c)
  }

  function RfcSteps(h: Hash, block: seq<Word>, n: nat): Hash
    requires |block| == 16 && n <= 64
  {
    if n == 0 then h else RfcStep(RfcSteps(h, block, n - 1), block, n - 1)
  }

  /** The additions at the end of a block, modulo 2^32. */
  function Plus(h: Hash, g: Hash): Hash { Hash(Add(h.a, g.a), Add(h.b, g.b), Add(h.c, g.c), Add(h.d, g.d)) }

  /** The sixteen words of a block. */
  function Words(data: seq<Byte>): seq<Word>
    requires |data| == 64
  {
    seq(16, i requires 0 <= i < 16 => WordAt(data, i))
  }

  /** All 64 steps, then the additions. */
  function Mixed(h: Hash, block: seq<Word>): Hash
    requires |block| == 16
  {
    Plus(RfcSteps(h, block, 64), h)
  }

  /** The block function of section 3.4. */
  function Compress(h: Hash, data: seq<Byte>): Hash
    requires |data| == 64
  {
    Mixed(h, Words(data))
  }

  // ---------------------------------------------------------------- the code computes it

  /** The short forms of the first two functions are the ones RFC 1321 defines. */
  lemma ShortForms(x: Word, y: Word, z: Word)
    ensures F(x, y, z) == (x & y) | (!x & z) && G(x, y, z) == (x & z) | (y & !z) && H2(x, y, z) == H(x, y, z)
  {
  }

  lemma CodedAux(i: nat, x: Word, y: Word, z: Word)
    ensures i < 16 ==> F(x, y, z) == Aux(i, x, y, z)
    ensures 16 <= i < 32 ==> G(x, y, z) == Aux(i, x, y, z)
    ensures 32 <= i < 48 ==> H(x, y, z) == Aux(i, x, y, z) && H2(x, y, z) == Aux(i, x, y, z)
    ensures 48 <= i ==> I(x, y, z) == Aux(i, x, y, z)
  {
    hide F, G, H2;
    ShortForms(x, y, z);
  }

  lemma Turned1(w: Word, s: nat)
    requires s in SHIFTS[0]
    ensures RotateLeft(w, s) == Rotated(w, s)
  {
    if s == 7 { } else if s == 12 { } else if s == 17 { } else { assert s == 22; }
  }

  lemma Turned2(w: Word, s: nat)
    requires s in SHIFTS[1]
    ensures RotateLeft(w, s) == Rotated(w, s)
  {
    if s == 5 { } else if s == 9 { } else if s == 14 { } else { assert s == 20; }
  }

  lemma Turned3(w: Word, s: nat)
    requires s in SHIFTS[2]
    ensures RotateLeft(w, s) == Rotated(w, s)
  {
    if s == 4 { } else if s == 11 { } else if s == 16 { } else { assert s == 23; }
  }

  lemma Turned4(w: Word, s: nat)
    requires s in SHIFTS[3]
    ensures RotateLeft(w, s) == Rotated(w, s)
  {
    if s == 6 { } else if s == 10 { } else if s == 15 { } else { assert s == 21; }
  }

  /** The machine's rotation is the circular shift of section 2, at each amount the rounds use. */
  lemma TurnedBy(w: Word, i: nat)
    requires i < 64
    ensures RotateLeft(w, ShiftOf(i)) == Rotated(w, ShiftOf(i))
  {
    hide Rotated, RotateLeft;
    var s := ShiftOf(i);
    if i < 16 { Turned1(w, s); } else if i < 32 { Turned2(w, s); } else if i < 48 { Turned3(w, s); } else { Turned4(w, s); }
  }

  lemma Commuted(x: Word, y: Word)
    ensures Add(x, y) == Add(y, x)
  {
  }

  lemma SameTurn(sum: Word, b: Word, i: nat)
    requires i < 64
    ensures Turn(sum, b, ShiftOf(i)) == Shifted(b, sum, ShiftOf(i))
  {
    hide Add, Rotated, RotateLeft, ShiftOf;
    TurnedBy(sum, i);
    Commuted(RotateLeft(sum, ShiftOf(i)), b);
  }

  /** The coded step is the operation of section 3.4. */
  lemma CodedStep(i: nat, f: Word, a: Word, b: Word, x: Word, t: Word, s: nat)
    requires i < 64 && s == ShiftOf(i)
    ensures Step(f, a, b, x, t, s) == Operation(f, a, b, x, t, s)
  {
    hide Turn, Shifted, ShiftOf;
    SameTurn(a + f + x + t, b, i);
  }

  /** Four steps in a row bring every register back to its place. */
  function Quad(h: Hash, block: seq<Word>, i: nat): Hash
    requires |block| == 16 && i + 4 <= 64
  {
    var a := Operation(Aux(i, h.b, h.c, h.d), h.a, h.b, block[WordOf(i)], SineOf(i), ShiftOf(i));
    var d := Operation(Aux(i + 1, a, h.b, h.c), h.d, a, block[WordOf(i + 1)], SineOf(i + 1), ShiftOf(i + 1));
    var c := Operation(Aux(i + 2, d, a, h.b), h.c, d, block[WordOf(i + 2)], SineOf(i + 2), ShiftOf(i + 2));
    var b := Operation(Aux(i + 3, c, d, a), h.b, c, block[WordOf(i + 3)], SineOf(i + 3), ShiftOf(i + 3));
    Hash(a, b, c, d)
  }

  lemma FourSteps(h: Hash, block: seq<Word>, i: nat)
    requires |block| == 16 && i + 4 <= 64
    ensures RfcSteps(h, block, i + 4) == Quad(RfcSteps(h, block, i), block, i)
  {
    hide Operation, Aux, WordOf, SineOf, ShiftOf;
    var h0 := RfcSteps(h, block, i);
    var h1 := RfcStep(h0, block, i);
    assert RfcSteps(h, block, i + 1) == h1;
    var h2 := RfcStep(h1, block, i + 1);
    assert RfcSteps(h, block, i + 2) == h2;
    var h3 := RfcStep(h2, block, i + 2);
    assert RfcSteps(h, block, i + 3) == h3;
    assert RfcSteps(h, block, i + 4) == RfcStep(h3, block, i + 3);
  }

  lemma Indices1()
    ensures WordOf(0) == 0 && WordOf(1) == 1 && WordOf(2) == 2 && WordOf(3) == 3
            && WordOf(4) == 4 && WordOf(5) == 5 && WordOf(6) == 6 && WordOf(7) == 7
            && WordOf(8) == 8 && WordOf(9) == 9 && WordOf(10) == 10 && WordOf(11) == 11
            && WordOf(12) == 12 && WordOf(13) == 13 && WordOf(14) == 14 && WordOf(15) == 15
    ensures ShiftOf(0) == 7 && ShiftOf(1) == 12 && ShiftOf(2) == 17 && ShiftOf(3) == 22
            && ShiftOf(4) == 7 && ShiftOf(5) == 12 && ShiftOf(6) == 17 && ShiftOf(7) == 22
            && ShiftOf(8) == 7 && ShiftOf(9) == 12 && ShiftOf(10) == 17 && ShiftOf(11) == 22
            && ShiftOf(12) == 7 && ShiftOf(13) == 12 && ShiftOf(14) == 17 && ShiftOf(15) == 22
  {
  }

  lemma Sines1()
    ensures SineOf(0) == 0xd76aa478 && SineOf(1) == 0xe8c7b756 && SineOf(2) == 0x242070db && SineOf(3) == 0xc1bdceee
            && SineOf(4) == 0xf57c0faf && SineOf(5) == 0x4787c62a && SineOf(6) == 0xa8304613 && SineOf(7) == 0xfd469501
            && SineOf(8) == 0x698098d8 && SineOf(9) == 0x8b44f7af && SineOf(10) == 0xffff5bb1 && SineOf(11) == 0x895cd7be
            && SineOf(12) == 0x6b901122 && SineOf(13) == 0xfd987193 && SineOf(14) == 0xa679438e && SineOf(15) == 0x49b40821
  {
  }

  /** The first round, unrolled as coded. */
  method Round1(h: Hash, block: seq<Word>, ghost start: Hash) returns (r: Hash)
    requires |block| == 16 && h == RfcSteps(start, block, 0)
    ensures r == RfcSteps(start, block, 16)
  {
    hide F, G, H, H2, I, Aux, Step, Operation, RfcSteps, WordOf, SineOf, ShiftOf;
    Indices1();
    Sines1();
    var a, b, c, d := h.a, h.b, h.c, h.d;
    CodedAux(0, b, c, d);
    CodedStep(0, F(b, c, d), a, b, block[0], 0xd76aa478, 7);
    a := Step(F(b, c, d), a, b, block[0], 0xd76aa478, 7);
    CodedAux(1, a, b, c);
    CodedStep(1, F(a, b, c), d, a, block[1], 0xe8c7b756, 12);
    d := Step(F(a, b, c), d, a, block[1], 0xe8c7b756, 12);
    CodedAux(2, d, a, b);
    CodedStep(2, F(d, a, b), c, d, block[2], 0x242070db, 17);
    c := Step(F(d, a, b), c, d, block[2], 0x242070db, 17);
    CodedAux(3, c, d, a);
    CodedStep(3, F(c, d, a), b, c, block[3], 0xc1bdceee, 22);
    b := Step(F(c, d, a), b, c, block[3], 0xc1bdceee, 22);
    FourSteps(start, block, 0);
    assert Hash(a, b, c, d) == RfcSteps(start, block, 4);
    CodedAux(4, b, c, d);
    CodedStep(4, F(b, c, d), a, b, block[4], 0xf57c0faf, 7);
    a := Step(F(b, c, d), a, b, block[4], 0xf57c0faf, 7);
    CodedAux(5, a, b, c);
    CodedStep(5, F(a, b, c), d, a, block[5], 0x4787c62a, 12);
    d := Step(F(a, b, c), d, a, block[5], 0x4787c62a, 12);
    CodedAux(6, d, a, b);
    CodedStep(6, F(d, a, b), c, d, block[6], 0xa8304613, 17);
    c := Step(F(d, a, b), c, d, block[6], 0xa8304613, 17);
    CodedAux(7, c, d, a);
    CodedStep(7, F(c, d, a), b, c, block[7], 0xfd469501, 22);
    b := Step(F(c, d, a), b, c, block[7], 0xfd469501, 22);
    FourSteps(start, block, 4);
    assert Hash(a, b, c, d) == RfcSteps(start, block, 8);
    CodedAux(8, b, c, d);
    CodedStep(8, F(b, c, d), a, b, block[8], 0x698098d8, 7);
    a := Step(F(b, c, d), a, b, block[8], 0x698098d8, 7);
    CodedAux(9, a, b, c);
    CodedStep(9, F(a, b, c), d, a, block[9], 0x8b44f7af, 12);
    d := Step(F(a, b, c), d, a, block[9], 0x8b44f7af, 12);
    CodedAux(10, d, a, b);
    CodedStep(10, F(d, a, b), c, d, block[10], 0xffff5bb1, 17);
    c := Step(F(d, a, b), c, d, block[10], 0xffff5bb1, 17);
    CodedAux(11, c, d, a);
    CodedStep(11, F(c, d, a), b, c, block[11], 0x895cd7be, 22);
    b := Step(F(c, d, a), b, c, block[11], 0x895cd7be, 22);
    FourSteps(start, block, 8);
    assert Hash(a, b, c, d) == RfcSteps(start, block, 12);
    CodedAux(12, b, c, d);
    CodedStep(12, F(b, c, d), a, b, block[12], 0x6b901122, 7);
    a := Step(F(b, c, d), a, b, block[12], 0x6b901122, 7);
    CodedAux(13, a, b, c);
    CodedStep(13, F(a, b, c), d, a, block[13], 0xfd987193, 12);
    d := Step(F(a, b, c), d, a, block[13], 0xfd987193, 12);
    CodedAux(14, d, a, b);
    CodedStep(14, F(d, a, b), c, d, block[14], 0xa679438e, 17);
    c := Step(F(d, a, b), c, d, block[14], 0xa679438e, 17);
    CodedAux(15, c, d, a);
    CodedStep(15, F(c, d, a), b, c, block[15], 0x49b40821, 22);
    b := Step(F(c, d, a), b, c, block[15], 0x49b40821, 22);
    FourSteps(start, block, 12);
    assert Hash(a, b, c, d) == RfcSteps(start, block, 16);
    r := Hash(a, b, c, d);
  }

  lemma Indices2()
    ensures WordOf(16) == 1 && WordOf(17) == 6 && WordOf(18) == 11 && WordOf(19) == 0
            && WordOf(20) == 5 && WordOf(21) == 10 && WordOf(22) == 15 && WordOf(23) == 4
            && WordOf(24) == 9 && WordOf(25) == 14 && WordOf(26) == 3 && WordOf(27) == 8
            && WordOf(28) == 13 && WordOf(29) == 2 && WordOf(30) == 7 && WordOf(31) == 12
    ensures ShiftOf(16) == 5 && ShiftOf(17) == 9 && ShiftOf(18) == 14 && ShiftOf(19) == 20
            && ShiftOf(20) == 5 && ShiftOf(21) == 9 && ShiftOf(22) == 14 && ShiftOf(23) == 20
            && ShiftOf(24) == 5 && ShiftOf(25) == 9 && ShiftOf(26) == 14 && ShiftOf(27) == 20
            && ShiftOf(28) == 5 && ShiftOf(29) == 9 && ShiftOf(30) == 14 && ShiftOf(31) == 20
  {
  }

  lemma Sines2()
    ensures SineOf(16) == 0xf61e2562 && SineOf(17) == 0xc040b340 && SineOf(18) == 0x265e5a51 && SineOf(19) == 0xe9b6c7aa
            && SineOf(20) == 0xd62f105d && SineOf(21) == 0x02441453 && SineOf(22) == 0xd8a1e681 && SineOf(23) == 0xe7d3fbc8
            && SineOf(24) == 0x21e1cde6 && SineOf(25) == 0xc33707d6 && SineOf(26) == 0xf4d50d87 && SineOf(27) == 0x455a14ed
            && SineOf(28) == 0xa9e3e905 && SineOf(29) == 0xfcefa3f8 && SineOf(30) == 0x676f02d9 && SineOf(31) == 0x8d2a4c8a
  {
  }

  /** The second round, unrolled as coded. */
  method Round2(h: Hash, block: seq<Word>, ghost start: Hash) returns (r: Hash)
    requires |block| == 16 && h == RfcSteps(start, block, 16)
    ensures r == RfcSteps(start, block, 32)
  {
    hide F, G, H, H2, I, Aux, Step, Operation, RfcSteps, WordOf, SineOf, ShiftOf;
    Indices2();
    Sines2();
    var a, b, c, d := h.a, h.b, h.c, h.d;
    CodedAux(16, b, c, d);
    CodedStep(16, G(b, c, d), a, b, block[1], 0xf61e2562, 5);
    a := Step(G(b, c, d), a, b, block[1], 0xf61e2562, 5);
    CodedAux(17, a, b, c);
    CodedStep(17, G(a, b, c), d, a, block[6], 0xc040b340, 9);
    d := Step(G(a, b, c), d, a, block[6], 0xc040b340, 9);
    CodedAux(18, d, a, b);
    CodedStep(18, G(d, a, b), c, d, block[11], 0x265e5a51, 14);
    c := Step(G(d, a, b), c, d, block[11], 0x265e5a51, 14);
    CodedAux(19, c, d, a);
    CodedStep(19, G(c, d, a), b, c, block[0], 0xe9b6c7aa, 20);
    b := Step(G(c, d, a), b, c, block[0], 0xe9b6c7aa, 20);
    FourSteps(start, block, 16);
    assert Hash(a, b, c, d) == RfcSteps(start, block, 20);
    CodedAux(20, b, c, d);
    CodedStep(20, G(b, c, d), a, b, block[5], 0xd62f105d, 5);
    a := Step(G(b, c, d), a, b, block[5], 0xd62f105d, 5);
    CodedAux(21, a, b, c);
    CodedStep(21, G(a, b, c), d, a, block[10], 0x02441453, 9);
    d := Step(G(a, b, c), d, a, block[10], 0x02441453, 9);
    CodedAux(22, d, a, b);
    CodedStep(22, G(d, a, b), c, d, block[15], 0xd8a1e681, 14);
    c := Step(G(d, a, b), c, d, block[15], 0xd8a1e681, 14);
    CodedAux(23, c, d, a);
    CodedStep(23, G(c, d, a), b, c, block[4], 0xe7d3fbc8, 20);
    b := Step(G(c, d, a), b, c, block[4], 0xe7d3fbc8, 20);
    FourSteps(start, block, 20);
    assert Hash(a, b, c, d) == RfcSteps(start, block, 24);
    CodedAux(24, b, c, d);
    CodedStep(24, G(b, c, d), a, b, block[9], 0x21e1cde6, 5);
    a := Step(G(b, c, d), a, b, block[9], 0x21e1cde6, 5);
    CodedAux(25, a, b, c);
    CodedStep(25, G(a, b, c), d, a, block[14], 0xc33707d6, 9);
    d := Step(G(a, b, c), d, a, block[14], 0xc33707d6, 9);
    CodedAux(26, d, a, b);
    CodedStep(26, G(d, a, b), c, d, block[3], 0xf4d50d87, 14);
    c := Step(G(d, a, b), c, d, block[3], 0xf4d50d87, 14);
    CodedAux(27, c, d, a);
    CodedStep(27, G(c, d, a), b, c, block[8], 0x455a14ed, 20);
    b := Step(G(c, d, a), b, c, block[8], 0x455a14ed, 20);
    FourSteps(start, block, 24);
    assert Hash(a, b, c, d) == RfcSteps(start, block, 28);
    CodedAux(28, b, c, d);
    CodedStep(28, G(b, c, d), a, b, block[13], 0xa9e3e905, 5);
    a := Step(G(b, c, d), a, b, block[13], 0xa9e3e905, 5);
    CodedAux(29, a, b, c);
    CodedStep(29, G(a, b, c), d, a, block[2], 0xfcefa3f8, 9);
    d := Step(G(a, b, c), d, a, block[2], 0xfcefa3f8, 9);
    CodedAux(30, d, a, b);
    CodedStep(30, G(d, a, b), c, d, block[7], 0x676f02d9, 14);
    c := Step(G(d, a, b), c, d, block[7], 0x676f02d9, 14);
    CodedAux(31, c, d, a);
    CodedStep(31, G(c, d, a), b, c, block[12], 0x8d2a4c8a, 20);
    b := Step(G(c, d, a), b, c, block[12], 0x8d2a4c8a, 20);
    FourSteps(start, block, 28);
    assert Hash(a, b, c, d) == RfcSteps(start, block, 32);
    r := Hash(a, b, c, d);
  }

  lemma Indices3()
    ensures WordOf(32) == 5 && WordOf(33) == 8 && WordOf(34) == 11 && WordOf(35) == 14
            && WordOf(36) == 1 && WordOf(37) == 4 && WordOf(38) == 7 && WordOf(39) == 10
            && WordOf(40) == 13 && WordOf(41) == 0 && WordOf(42) == 3 && WordOf(43) == 6
            && WordOf(44) == 9 && WordOf(45) == 12 && WordOf(46) == 15 && WordOf(47) == 2
    ensures ShiftOf(32) == 4 && ShiftOf(33) == 11 && ShiftOf(34) == 16 && ShiftOf(35) == 23
            && ShiftOf(36) == 4 && ShiftOf(37) == 11 && ShiftOf(38) == 16 && ShiftOf(39) == 23
            && ShiftOf(40) == 4 && ShiftOf(41) == 11 && ShiftOf(42) == 16 && ShiftOf(43) == 23
            && ShiftOf(44) == 4 && ShiftOf(45) == 11 && ShiftOf(46) == 16 && ShiftOf(47) == 23
  {
  }

  lemma Sines3()
    ensures SineOf(32) == 0xfffa3942 && SineOf(33) == 0x8771f681 && SineOf(34) == 0x6d9d6122 && SineOf(35) == 0xfde5380c
            && SineOf(36) == 0xa4beea44 && SineOf(37) == 0x4bdecfa9 && SineOf(38) == 0xf6bb4b60 && SineOf(39) == 0xbebfbc70
            && SineOf(40) == 0x289b7ec6 && SineOf(41) == 0xeaa127fa && SineOf(42) == 0xd4ef3085 && SineOf(43) == 0x04881d05
            && SineOf(44) == 0xd9d4d039 && SineOf(45) == 0xe6db99e5 && SineOf(46) == 0x1fa27cf8 && SineOf(47) == 0xc4ac5665
  {
  }

  /** The third round, unrolled as coded. */
  method Round3(h: Hash, block: seq<Word>, ghost start: Hash) returns (r: Hash)
    requires |block| == 16 && h == RfcSteps(start, block, 32)
    ensures r == RfcSteps(start, block, 48)
  {
    hide F, G, H, H2, I, Aux, Step, Operation, RfcSteps, WordOf, SineOf, ShiftOf;
    Indices3();
    Sines3();
    var a, b, c, d := h.a, h.b, h.c, h.d;
    CodedAux(32, b, c, d);
    CodedStep(32, H(b, c, d), a, b, block[5], 0xfffa3942, 4);
    a := Step(H(b, c, d), a, b, block[5], 0xfffa3942, 4);
    CodedAux(33, a, b, c);
    CodedStep(33, H2(a, b, c), d, a, block[8], 0x8771f681, 11);
    d := Step(H2(a, b, c), d, a, block[8], 0x8771f681, 11);
    CodedAux(34, d, a, b);
    CodedStep(34, H(d, a, b), c, d, block[11], 0x6d9d6122, 16);
    c := Step(H(d, a, b), c, d, block[11], 0x6d9d6122, 16);
    CodedAux(35, c, d, a);
    CodedStep(35, H2(c, d, a), b, c, block[14], 0xfde5380c, 23);
    b := Step(H2(c, d, a), b, c, block[14], 0xfde5380c, 23);
    FourSteps(start, block, 32);
    assert Hash(a, b, c, d) == RfcSteps(start, block, 36);
    CodedAux(36, b, c, d);
    CodedStep(36, H(b, c, d), a, b, block[1], 0xa4beea44, 4);
    a := Step(H(b, c, d), a, b, block[1], 0xa4beea44, 4);
    CodedAux(37, a, b, c);
    CodedStep(37, H2(a, b, c), d, a, block[4], 0x4bdecfa9, 11);
    d := Step(H2(a, b, c), d, a, block[4], 0x4bdecfa9, 11);
    CodedAux(38, d, a, b);
    CodedStep(38, H(d, a, b), c, d, block[7], 0xf6bb4b60, 16);
    c := Step(H(d, a, b), c, d, block[7], 0xf6bb4b60, 16);
    CodedAux(39, c, d, a);
    CodedStep(39, H2(c, d, a), b, c, block[10], 0xbebfbc70, 23);
    b := Step(H2(c, d, a), b, c, block[10], 0xbebfbc70, 23);
    FourSteps(start, block, 36);
    assert Hash(a, b, c, d) == RfcSteps(start, block, 40);
    CodedAux(40, b, c, d);
    CodedStep(40, H(b, c, d), a, b, block[13], 0x289b7ec6, 4);
    a := Step(H(b, c, d), a, b, block[13], 0x289b7ec6, 4);
    CodedAux(41, a, b, c);
    CodedStep(41, H2(a, b, c), d, a, block[0], 0xeaa127fa, 11);
    d := Step(H2(a, b, c), d, a, block[0], 0xeaa127fa, 11);
    CodedAux(42, d, a, b);
    CodedStep(42, H(d, a, b), c, d, block[3], 0xd4ef3085, 16);
    c := Step(H(d, a, b), c, d, block[3], 0xd4ef3085, 16);
    CodedAux(43, c, d, a);
    CodedStep(43, H2(c, d, a), b, c, block[6], 0x04881d05, 23);
    b := Step(H2(c, d, a), b, c, block[6], 0x04881d05, 23);
    FourSteps(start, block, 40);
    assert Hash(a, b, c, d) == RfcSteps(start, block, 44);
    CodedAux(44, b, c, d);
    CodedStep(44, H(b, c, d), a, b, block[9], 0xd9d4d039, 4);
    a := Step(H(b, c, d), a, b, block[9], 0xd9d4d039, 4);
    CodedAux(45, a, b, c);
    CodedStep(45, H2(a, b, c), d, a, block[12], 0xe6db99e5, 11);
    d := Step(H2(a, b, c), d, a, block[12], 0xe6db99e5, 11);
    CodedAux(46, d, a, b);
    CodedStep(46, H(d, a, b), c, d, block[15], 0x1fa27cf8, 16);
    c := Step(H(d, a, b), c, d, block[15], 0x1fa27cf8, 16);
    CodedAux(47, c, d, a);
    CodedStep(47, H2(c, d, a), b, c, block[2], 0xc4ac5665, 23);
    b := Step(H2(c, d, a), b, c, block[2], 0xc4ac5665, 23);
    FourSteps(start, block, 44);
    assert Hash(a, b, c, d) == RfcSteps(start, block, 48);
    r := Hash(a, b, c, d);
  }

  lemma Indices4()
    ensures WordOf(48) == 0 && WordOf(49) == 7 && WordOf(50) == 14 && WordOf(51) == 5
            && WordOf(52) == 12 && WordOf(53) == 3 && WordOf(54) == 10 && WordOf(55) == 1
            && WordOf(56) == 8 && WordOf(57) == 15 && WordOf(58) == 6 && WordOf(59) == 13
            && WordOf(60) == 4 && WordOf(61) == 11 && WordOf(62) == 2 && WordOf(63) == 9
    ensures ShiftOf(48) == 6 && ShiftOf(49) == 10 && ShiftOf(50) == 15 && ShiftOf(51) == 21
            && ShiftOf(52) == 6 && ShiftOf(53) == 10 && ShiftOf(54) == 15 && ShiftOf(55) == 21
            && ShiftOf(56) == 6 && ShiftOf(57) == 10 && ShiftOf(58) == 15 && ShiftOf(59) == 21
            && ShiftOf(60) == 6 && ShiftOf(61) == 10 && ShiftOf(62) == 15 && ShiftOf(63) == 21
  {
  }

  lemma Sines4()
    ensures SineOf(48) == 0xf4292244 && SineOf(49) == 0x432aff97 && SineOf(50) == 0xab9423a7 && SineOf(51) == 0xfc93a039
            && SineOf(52) == 0x655b59c3 && SineOf(53) == 0x8f0ccc92 && SineOf(54) == 0xffeff47d && SineOf(55) == 0x85845dd1
            && SineOf(56) == 0x6fa87e4f && SineOf(57) == 0xfe2ce6e0 && SineOf(58) == 0xa3014314 && SineOf(59) == 0x4e0811a1
            && SineOf(60) == 0xf7537e82 && SineOf(61) == 0xbd3af235 && SineOf(62) == 0x2ad7d2bb && SineOf(63) == 0xeb86d391
  {
  }

  /** The fourth round, unrolled as coded. */
  method Round4(h: Hash, block: seq<Word>, ghost start: Hash) returns (r: Hash)
    requires |block| == 16 && h == RfcSteps(start, block, 48)
    ensures r == RfcSteps(start, block, 64)
  {
    hide F, G, H, H2, I, Aux, Step, Operation, RfcSteps, WordOf, SineOf, ShiftOf;
    Indices4();
    Sines4();
    var a, b, c, d := h.a, h.b, h.c, h.d;
    CodedAux(48, b, c, d);
    CodedStep(48, I(b, c, d), a, b, block[0], 0xf4292244, 6);
    a := Step(I(b, c, d), a, b, block[0], 0xf4292244, 6);
    CodedAux(49, a, b, c);
    CodedStep(49, I(a, b, c), d, a, block[7], 0x432aff97, 10);
    d := Step(I(a, b, c), d, a, block[7], 0x432aff97, 10);
    CodedAux(50, d, a, b);
    CodedStep(50, I(d, a, b), c, d, block[14], 0xab9423a7, 15);
    c := Step(I(d, a, b), c, d, block[14], 0xab9423a7, 15);
    CodedAux(51, c, d, a);
    CodedStep(51, I(c, d, a), b, c, block[5], 0xfc93a039, 21);
    b := Step(I(c, d, a), b, c, block[5], 0xfc93a039, 21);
    FourSteps(start, block, 48);
    assert Hash(a, b, c, d) == RfcSteps(start, block, 52);
    CodedAux(52, b, c, d);
    CodedStep(52, I(b, c, d), a, b, block[12], 0x655b59c3, 6);
    a := Step(I(b, c, d), a, b, block[12], 0x655b59c3, 6);
    CodedAux(53, a, b, c);
    CodedStep(53, I(a, b, c), d, a, block[3], 0x8f0ccc92, 10);
    d := Step(I(a, b, c), d, a, block[3], 0x8f0ccc92, 10);
    CodedAux(54, d, a, b);
    CodedStep(54, I(d, a, b), c, d, block[10], 0xffeff47d, 15);
    c := Step(I(d, a, b), c, d, block[10], 0xffeff47d, 15);
    CodedAux(55, c, d, a);
    CodedStep(55, I(c, d, a), b, c, block[1], 0x85845dd1, 21);
    b := Step(I(c, d, a), b, c, block[1], 0x85845dd1, 21);
    FourSteps(start, block, 52);
    assert Hash(a, b, c, d) == RfcSteps(start, block, 56);
    CodedAux(56, b, c, d);
    CodedStep(56, I(b, c, d), a, b, block[8], 0x6fa87e4f, 6);
    a := Step(I(b, c, d), a, b, block[8], 0x6fa87e4f, 6);
    CodedAux(57, a, b, c);
    CodedStep(57, I(a, b, c), d, a, block[15], 0xfe2ce6e0, 10);
    d := Step(I(a, b, c), d, a, block[15], 0xfe2ce6e0, 10);
    CodedAux(58, d, a, b);
    CodedStep(58, I(d, a, b), c, d, block[6], 0xa3014314, 15);
    c := Step(I(d, a, b), c, d, block[6], 0xa3014314, 15);
    CodedAux(59, c, d, a);
    CodedStep(59, I(c, d, a), b, c, block[13], 0x4e0811a1, 21);
    b := Step(I(c, d, a), b, c, block[13], 0x4e0811a1, 21);
    FourSteps(start, block, 56);
    assert Hash(a, b, c, d) == RfcSteps(start, block, 60);
    CodedAux(60, b, c, d);
    CodedStep(60, I(b, c, d), a, b, block[4], 0xf7537e82, 6);
    a := Step(I(b, c, d), a, b, block[4], 0xf7537e82, 6);
    CodedAux(61, a, b, c);
    CodedStep(61, I(a, b, c), d, a, block[11], 0xbd3af235, 10);
    d := Step(I(a, b, c), d, a, block[11], 0xbd3af235, 10);
    CodedAux(62, d, a, b);
    CodedStep(62, I(d, a, b), c, d, block[2], 0x2ad7d2bb, 15);
    c := Step(I(d, a, b), c, d, block[2], 0x2ad7d2bb, 15);
    CodedAux(63, c, d, a);
    CodedStep(63, I(c, d, a), b, c, block[9], 0xeb86d391, 21);
    b := Step(I(c, d, a), b, c, block[9], 0xeb86d391, 21);
    FourSteps(start, block, 60);
    assert Hash(a, b, c, d) == RfcSteps(start, block, 64);
    r := Hash(a, b, c, d);
  }

  lemma NoSteps(h: Hash, block: seq<Word>)
    requires |block| == 16
    ensures RfcSteps(h, block, 0) == h
  {
  }

  /** All four rounds and the final additions. */
  method Rounds(h: Hash, block: seq<Word>) returns (r: Hash)
    requires |block| == 16
    ensures r == Mixed(h, block)
  {
    hide RfcSteps, Add;
    NoSteps(h, block);
    r := Round1(h, block, h);
    r := Round2(r, block, h);
    r := Round3(r, block, h);
    r := Round4(r, block, h);
    r := Hash(Add(r.a, h.a), Add(r.b, h.b), Add(r.c, h.c), Add(r.d, h.d));
  }
}
