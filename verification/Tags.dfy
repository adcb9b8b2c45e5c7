/** Boundary tags in memory, the free and live chunks they describe, and the payloads around them. */
module Tags {
  import opened Memory
  import opened Tiles
  import opened SmallBins
  import opened FreeIndex

  /** The head word of p says what C says, and a free chunk's size is repeated in its foot. */
  ghost predicate TagAt(m: Mem, C: Tiling, p: int)
    requires p in C
  {
    && Rd(m, p + 8) == HeadWord(C[p])
    && (!C[p].cinuse ==> Rd(m, p + C[p].size) == C[p].size)
  }

  ghost predicate Tagged(m: Mem, C: Tiling) {
    forall p {:trigger TagAt(m, C, p)} :: p in C ==> TagAt(m, C, p)
  }

  /** top's head carries its size with pinuse set; the overhead chunk behind it has pinuse clear. */
  ghost predicate TopTagged(m: Mem, top: int, topsize: int) {
    Rd(m, top + 8) == topsize + 1 && Rd(m, top + topsize + 8) == TOP_FOOT
  }

  /** A fencepost follows the record that closes a retired segment. */
  ghost predicate FenceAfter(m: Mem, C: Tiling, r: int)
    requires r in C
  {
    Rd(m, r + C[r].size + 8) == FENCEPOST_HEAD
  }

  ghost predicate Fenced(m: Mem, C: Tiling, A: Arena) {
    forall r {:trigger FenceAfter(m, C, r)} :: r in A.records && r in C ==> FenceAfter(m, C, r)
  }

  /** The free chunks of C other than those in ex, with their sizes. */
  ghost function FreeExcept(C: Tiling, ex: set<int>): Stock {
    map p | p in C && !C[p].cinuse && p !in ex :: C[p].size
  }

  /** The chunks the caller holds, with their sizes. */
  ghost function Live(C: Tiling): map<int, int> { map p | p in C && C[p].cinuse :: C[p].size }

  /** The payload of chunk q, which runs through the foot word of its successor, is the same in both memories. */
  ghost predicate PayloadKept(m: Mem, m': Mem, q: int, size: int) {
    forall a {:trigger Rd(m', a)} :: q + 16 <= a < q + size + 8 ==> Rd(m', a) == Rd(m, a)
  }

  ghost predicate Undisturbed(m: Mem, m': Mem, L: map<int, int>) {
    forall q {:trigger PayloadKept(m, m', q, L[q])} :: q in L ==> PayloadKept(m, m', q, L[q])
  }

  lemma UndisturbedTwice(m: Mem, m1: Mem, m': Mem, L: map<int, int>, L1: map<int, int>)
    requires Undisturbed(m, m1, L) && Undisturbed(m1, m', L1)
    requires forall q {:trigger q in L1} :: q in L1 ==> q in L && L[q] == L1[q]
    ensures Undisturbed(m, m', L1)
  {
    forall q | q in L1 ensures PayloadKept(m, m', q, L1[q]) {
      assert PayloadKept(m, m1, q, L[q]) && PayloadKept(m1, m', q, L1[q]);
      forall a | q + 16 <= a < q + L1[q] + 8 ensures Rd(m', a) == Rd(m, a) { assert Rd(m1, a) == Rd(m, a); }
    }
  }

  /** The static malloc_state lies outside every grant. */
  ghost predicate Away(A: Arena, gm: int) { gm + STATE_SIZE <= A.lo || A.hi <= gm }

  // ---------------------------------------------------------------- index steps leave tags and payloads alone

  lemma FreePlaced(C: Tiling, ex: set<int>, A: Arena, gm: int)
    requires Tiled(C, A) && Away(A, gm)
    ensures Placed(FreeExcept(C, ex), A.lo, A.hi, gm)
  {
    var B := FreeExcept(C, ex);
    forall p | p in B ensures InPlace(B, p, A.lo, A.hi) { assert TileOk(C, p, A); }
    forall p, q | p in B && q in B ensures Disjoint(B, p, q) { assert Before(C, p, q); }
  }

  lemma OutsideHead(C: Tiling, B: Stock, A: Arena, gm: int, q: int)
    requires Tiled(C, A) && Away(A, gm) && q in C
    requires forall p {:trigger B[p]} :: p in B ==> p in C && B[p] == C[p].size
    ensures Outside(B, gm, q + 8)
  {
    assert TileOk(C, q, A);
    forall p | p in B ensures q + 8 < p + 16 || p + B[p] <= q + 8 { assert Before(C, p, q); }
  }

  lemma OutsideFoot(C: Tiling, B: Stock, A: Arena, gm: int, q: int)
    requires Tiled(C, A) && Away(A, gm) && q in C
    requires forall p {:trigger B[p]} :: p in B ==> p in C && B[p] == C[p].size
    ensures Outside(B, gm, q + C[q].size)
  {
    assert TileOk(C, q, A);
    forall p | p in B ensures q + C[q].size < p + 16 || p + B[p] <= q + C[q].size {
      assert Before(C, p, q) && Before(C, q, p);
    }
  }

  lemma OutsideTop(C: Tiling, B: Stock, A: Arena, gm: int, a: int)
    requires Tiled(C, A) && A.top <= a < A.top + A.topsize + TOP_FOOT && Away(A, gm)
    requires forall p {:trigger B[p]} :: p in B ==> p in C && B[p] == C[p].size
    ensures Outside(B, gm, a)
  {
    forall p | p in B ensures a < p + 16 || p + B[p] <= a { assert TileOk(C, p, A); }
  }

  lemma OutsidePayload(C: Tiling, B: Stock, A: Arena, gm: int, q: int, a: int)
    requires Tiled(C, A) && Away(A, gm) && q in C && C[q].cinuse
    requires forall p {:trigger B[p]} :: p in B ==> p in C && B[p] == C[p].size && !C[p].cinuse
    requires q + 16 <= a < q + C[q].size + 8
    ensures Outside(B, gm, a)
  {
    assert TileOk(C, q, A);
    forall p | p in B ensures a < p + 16 || p + B[p] <= a { assert Before(C, p, q) && Before(C, q, p); }
  }

  /** An index step over free chunks of C leaves every tag, top and every live payload alone. */
  lemma QuietKeeps(m: Mem, m': Mem, C: Tiling, B: Stock, A: Arena, gm: int)
    requires Quiet(m, m', B, gm) && Tiled(C, A) && Tagged(m, C) && TopTagged(m, A.top, A.topsize)
    requires Away(A, gm)
    requires forall p {:trigger B[p]} :: p in B ==> p in C && B[p] == C[p].size && !C[p].cinuse
    ensures Tagged(m', C) && TopTagged(m', A.top, A.topsize) && Undisturbed(m, m', Live(C))
  {
    hide Outside;
    forall q | q in C ensures TagAt(m', C, q) {
      assert TagAt(m, C, q);
      OutsideHead(C, B, A, gm, q);
      OutsideFoot(C, B, A, gm, q);
    }
    OutsideTop(C, B, A, gm, A.top + 8);
    OutsideTop(C, B, A, gm, A.top + A.topsize + 8);
    var L := Live(C);
    forall q | q in L ensures PayloadKept(m, m', q, L[q]) {
      forall a | q + 16 <= a < q + L[q] + 8 ensures Rd(m', a) == Rd(m, a) {
        OutsidePayload(C, B, A, gm, q, a);
      }
    }
  }

  // ---------------------------------------------------------------- rewriting tags

  lemma Rep1TagAt(m: Mem, m': Mem, C: Tiling, a: int, e: int, u: bool, A: Arena, q: int)
    requires Tiled(C, A) && Boundary(C, a, e, A) && Tagged(m, C)
    requires Rd(m', a + 8) == HeadWord(Chunk(e - a, u, C[a].pinuse))
    requires e in C ==> Rd(m', e + 8) == HeadWord(C[e].(pinuse := u))
    requires !u ==> Rd(m', e) == e - a
    requires forall x {:trigger Rd(m', x)} :: x != a + 8 && (x != e + 8 || e !in C) && (x != e || u) ==> Rd(m', x) == Rd(m, x)
    requires q in Rep1(C, a, e, u)
    ensures TagAt(m', Rep1(C, a, e, u), q)
  {
    if q != a {
      assert TagAt(m, C, q);
      assert TileOk(C, q, A) && TileOk(C, a, A);
      assert Before(C, a, q) && Before(C, q, a);
      if e in C { assert TileOk(C, e, A); assert Before(C, e, q) && Before(C, q, e); }
    }
  }

  /** Writing one head, its foot if free, and the successor's pinuse bit re-tags [a, e) as a single chunk. */
  lemma Rep1Tagged(m: Mem, m': Mem, C: Tiling, a: int, e: int, u: bool, A: Arena)
    requires Tiled(C, A) && Boundary(C, a, e, A) && Tagged(m, C)
    requires Rd(m', a + 8) == HeadWord(Chunk(e - a, u, C[a].pinuse))
    requires e in C ==> Rd(m', e + 8) == HeadWord(C[e].(pinuse := u))
    requires !u ==> Rd(m', e) == e - a
    requires forall x {:trigger Rd(m', x)} :: x != a + 8 && (x != e + 8 || e !in C) && (x != e || u) ==> Rd(m', x) == Rd(m, x)
    ensures Tagged(m', Rep1(C, a, e, u))
  {
    var D := Rep1(C, a, e, u);
    forall q | q in D ensures TagAt(m', D, q) { Rep1TagAt(m, m', C, a, e, u, A, q); }
  }

  lemma Rep2TagAt(m: Mem, m': Mem, C: Tiling, a: int, b: int, e: int, v: bool, A: Arena, q: int)
    requires Tiled(C, A) && Boundary(C, a, e, A) && Tagged(m, C) && a + MIN_CHUNK <= b && b + MIN_CHUNK <= e
    requires Rd(m', a + 8) == HeadWord(Chunk(b - a, true, C[a].pinuse)) && Rd(m', b + 8) == HeadWord(Chunk(e - b, v, true))
    requires e in C ==> Rd(m', e + 8) == HeadWord(C[e].(pinuse := v))
    requires !v ==> Rd(m', e) == e - b
    requires forall x {:trigger Rd(m', x)} :: x != a + 8 && x != b + 8 && (x != e + 8 || e !in C) && (x != e || v) ==> Rd(m', x) == Rd(m, x)
    requires q in Rep2(C, a, b, e, v)
    ensures TagAt(m', Rep2(C, a, b, e, v), q)
  {
    if q != a && q != b {
      assert TagAt(m, C, q);
      assert TileOk(C, q, A) && TileOk(C, a, A);
      assert Before(C, a, q) && Before(C, q, a);
      if e in C { assert TileOk(C, e, A); assert Before(C, e, q) && Before(C, q, e); }
    }
  }

  /** The same for two chunks meeting at b. */
  lemma Rep2Tagged(m: Mem, m': Mem, C: Tiling, a: int, b: int, e: int, v: bool, A: Arena)
    requires Tiled(C, A) && Boundary(C, a, e, A) && Tagged(m, C) && a + MIN_CHUNK <= b && b + MIN_CHUNK <= e
    requires Rd(m', a + 8) == HeadWord(Chunk(b - a, true, C[a].pinuse)) && Rd(m', b + 8) == HeadWord(Chunk(e - b, v, true))
    requires e in C ==> Rd(m', e + 8) == HeadWord(C[e].(pinuse := v))
    requires !v ==> Rd(m', e) == e - b
    requires forall x {:trigger Rd(m', x)} :: x != a + 8 && x != b + 8 && (x != e + 8 || e !in C) && (x != e || v) ==> Rd(m', x) == Rd(m, x)
    ensures Tagged(m', Rep2(C, a, b, e, v))
  {
    var D := Rep2(C, a, b, e, v);
    forall q | q in D ensures TagAt(m', D, q) { Rep2TagAt(m, m', C, a, b, e, v, A, q); }
  }

  /** Tag writes inside [a, e] touch no payload of a live chunk outside it. */
  lemma TagWritesMiss(m: Mem, m': Mem, C: Tiling, a: int, b: int, e: int, A: Arena)
    requires Tiled(C, A) && Boundary(C, a, e, A) && a <= b < e
    requires forall x {:trigger Rd(m', x)} :: x != a + 8 && x != b + 8 && x != e + 8 && x != e ==> Rd(m', x) == Rd(m, x)
    ensures Undisturbed(m, m', map q | q in C && C[q].cinuse && !(a <= q < e) :: C[q].size)
  {
    var L := map q | q in C && C[q].cinuse && !(a <= q < e) :: C[q].size;
    forall q | q in L ensures PayloadKept(m, m', q, L[q]) {
      assert TileOk(C, q, A) && TileOk(C, a, A);
      assert Before(C, a, q) && Before(C, q, a);
      if e in C { assert TileOk(C, e, A); assert Before(C, e, q) && Before(C, q, e); }
    }
  }
}
