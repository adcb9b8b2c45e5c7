/** Tiling, tags, top and index together: the state every allocator step keeps. */
module HeapCore {
  import opened Memory
  import opened Tiles
  import opened SmallBins
  import opened FreeIndex
  import opened Tags

  /**
   * Chunks tile the arena, memory carries their tags, top is tagged, and the index holds exactly the free chunks
   * outside ex.
   */
  ghost predicate Core(m: Mem, x: Index, C: Tiling, ex: set<int>, A: Arena, gm: int) {
    && IndexOk(m, x, gm, A.lo, A.hi) && x.B == FreeExcept(C, ex)
    && Tiled(C, A) && Tagged(m, C) && Fenced(m, C, A) && TopTagged(m, A.top, A.topsize) && Away(A, gm)
  }

  // ---------------------------------------------------------------- fenceposts

  /** The word after a record lies outside every other chunk, outside top, and is no head of a chunk. */
  lemma FenceApart(C: Tiling, A: Arena, r: int, p: int)
    requires Tiled(C, A) && r in A.records && r in C && p in C
    ensures var f := r + C[r].size + 8; (f < p || p + C[p].size + 8 <= f) && (r != p ==> p + C[p].size + 8 < f || f < p) && A.lo <= f && f + 8 <= A.hi
    ensures var f := r + C[r].size + 8; (f < A.top || A.top + A.topsize + TOP_FOOT <= f) && f != p + 8
  {
    hide Preceded, Owned;
    assert TileOk(C, r, A) && TileOk(C, p, A) && Before(C, r, p) && Before(C, p, r);
    var n := r + C[r].size;
    Diff16(n, r);
    Diff16(p, n);
    Diff16(A.top, n);
  }

  /** Words of [a, e + 16) are not fenceposts, and no record lies in [a, e). */
  lemma FenceOff(C: Tiling, A: Arena, r: int, a: int, e: int)
    requires Tiled(C, A) && Boundary(C, a, e, A) && r in A.records && r in C
    ensures var f := r + C[r].size + 8; !(a <= f < e + 16) && !(a <= r < e)
  {
    hide Preceded, Owned;
    FenceApart(C, A, r, a);
    assert Before(C, r, a) && TileOk(C, r, A) && TileOk(C, a, A);
    if e in C { FenceApart(C, A, r, e); assert Before(C, e, r) && TileOk(C, e, A); }
  }

  ghost predicate FenceKept(m: Mem, m': Mem, C: Tiling, C': Tiling, r: int) {
    r in C && r in C' && C'[r].size == C[r].size && Rd(m', r + C[r].size + 8) == Rd(m, r + C[r].size + 8)
  }

  lemma FencedFrame(m: Mem, m': Mem, C: Tiling, C': Tiling, A: Arena, A': Arena)
    requires Fenced(m, C, A) && A'.records == A.records
    requires forall r {:trigger FenceKept(m, m', C, C', r)} :: r in A.records ==> FenceKept(m, m', C, C', r)
    ensures Fenced(m', C', A')
  {
    forall r | r in A'.records && r in C' ensures FenceAfter(m', C', r) { assert FenceKept(m, m', C, C', r) && FenceAfter(m, C, r); }
  }

  /** Re-tagging [a, e) leaves fenceposts and records alone. */
  lemma RangeFenced(m: Mem, m': Mem, C: Tiling, C': Tiling, A: Arena, A': Arena, a: int, e: int)
    requires Tiled(C, A) && Fenced(m, C, A) && Boundary(C, a, e, A) && A'.records == A.records
    requires forall w {:trigger Rd(m', w)} :: !(a <= w < e + 16) ==> Rd(m', w) == Rd(m, w)
    requires forall r {:trigger C[r]} :: r in C && !(a <= r < e) ==> r in C' && C'[r].size == C[r].size
    ensures Fenced(m', C', A')
  {
    hide TileOk, Inner;
    forall r | r in A.records ensures FenceKept(m, m', C, C', r) {
      FenceOff(C, A, r, a, e);
      assert C[r] == C[r];
    }
    FencedFrame(m, m', C, C', A, A');
  }

  /** A change of the index alone. */
  lemma CoreQuiet(m: Mem, m': Mem, x: Index, x': Index, B: Stock, C: Tiling, ex: set<int>, ex': set<int>, A: Arena, gm: int)
    requires Core(m, x, C, ex, A, gm)
    requires IndexOk(m', x', gm, A.lo, A.hi) && x'.B == FreeExcept(C, ex') && Quiet(m, m', B, gm)
    requires B == x.B || B == x'.B
    ensures Core(m', x', C, ex', A, gm) && Undisturbed(m, m', Live(C))
  {
    hide IndexOk, Quiet;
    QuietKeeps(m, m', C, B, A, gm);
    QuietFenced(m, m', C, B, A, gm);
  }

  lemma QuietFenced(m: Mem, m': Mem, C: Tiling, B: Stock, A: Arena, gm: int)
    requires Tiled(C, A) && Fenced(m, C, A) && Quiet(m, m', B, gm) && Away(A, gm)
    requires forall p {:trigger B[p]} :: p in B ==> p in C && !C[p].cinuse && B[p] == C[p].size
    ensures Fenced(m', C, A)
  {
    hide TileOk;
    forall r | r in A.records ensures FenceKept(m, m', C, C, r) {
      var f := r + C[r].size + 8;
      FenceApart(C, A, r, r);
      forall p | p in B ensures f < p + 16 || p + B[p] <= f { FenceApart(C, A, r, p); }
      assert Outside(B, gm, f);
    }
    FencedFrame(m, m', C, C, A, A);
  }

  /** Words from a up to the head of e belong to no stocked chunk when none of those lies in [a, e). */
  lemma RangeOutside(C: Tiling, B: Stock, A: Arena, gm: int, a: int, e: int, w: int)
    requires Tiled(C, A) && Boundary(C, a, e, A) && Away(A, gm)
    requires forall p {:trigger B[p]} :: p in B ==> p in C && B[p] == C[p].size && !(a <= p < e)
    requires a <= w < e + 16
    ensures Outside(B, gm, w)
  {
    assert TileOk(C, a, A);
    forall p | p in B ensures w < p + 16 || p + B[p] <= w {
      assert TileOk(C, p, A);
      assert Before(C, p, a);
      if e in C { assert Before(C, e, p); }
    }
  }

  /** What stays free and indexed when [a, e) is re-tagged. */
  ghost predicate SameElsewhere(ex: set<int>, ex': set<int>, a: int, e: int) {
    forall p {:trigger p in ex} {:trigger p in ex'} :: p != 0 && !(a <= p < e) ==> (p in ex <==> p in ex')
  }

  ghost predicate AllLoose(C: Tiling, ex: set<int>, a: int, e: int) {
    forall p {:trigger C[p]} :: p in C && a <= p < e && !C[p].cinuse ==> p in ex
  }

  /** Live chunks away from [a, e). */
  ghost function LiveOutside(C: Tiling, a: int, e: int): map<int, int> {
    map q | q in C && C[q].cinuse && !(a <= q < e) :: C[q].size
  }

  lemma IndexSurvivesTags(m: Mem, m': Mem, x: Index, C: Tiling, ex: set<int>, A: Arena, gm: int,
                          a: int, e: int)
    requires Core(m, x, C, ex, A, gm) && Boundary(C, a, e, A) && AllLoose(C, ex, a, e)
    requires forall w {:trigger Rd(m', w)} :: !(a <= w < e + 16) ==> Rd(m', w) == Rd(m, w)
    ensures IndexOk(m', x, gm, A.lo, A.hi)
  {
    hide IndexOk;
    assert TileOk(C, a, A);
    forall w | !Outside(x.B, gm, w) ensures Rd(m', w) == Rd(m, w) {
      if a <= w < e + 16 { RangeOutside(C, x.B, A, gm, a, e, w); }
    }
    IndexFrame(m, m', x, gm, A.lo, A.hi);
  }

  /** Re-tagging [a, e) as one chunk. */
  lemma CoreRep1(m: Mem, m': Mem, x: Index, C: Tiling, ex: set<int>, ex': set<int>, A: Arena, gm: int,
                 a: int, e: int, u: bool)
    requires Core(m, x, C, ex, A, gm) && Boundary(C, a, e, A)
    requires AllLoose(C, ex, a, e) && SameElsewhere(ex, ex', a, e) && (!u ==> a in ex')
    requires u || (C[a].pinuse && e in C && C[e].cinuse)
    requires Rd(m', a + 8) == HeadWord(Chunk(e - a, u, C[a].pinuse))
    requires e in C ==> Rd(m', e + 8) == HeadWord(C[e].(pinuse := u))
    requires !u ==> Rd(m', e) == e - a
    requires forall w {:trigger Rd(m', w)} :: w != a + 8 && (w != e + 8 || e !in C) && (w != e || u) ==> Rd(m', w) == Rd(m, w)
    ensures Core(m', x, Rep1(C, a, e, u), ex', A, gm)
    ensures Undisturbed(m, m', LiveOutside(C, a, e))
    ensures Live(Rep1(C, a, e, u)) == if u then LiveOutside(C, a, e)[a := e - a] else LiveOutside(C, a, e)
  {
    hide IndexOk, TileOk, Tiled, Tagged, Undisturbed, Fenced, FreeExcept, Live;
    var D := Rep1(C, a, e, u);
    TopClear(C, a, e, A);
    IndexSurvivesTags(m, m', x, C, ex, A, gm, a, e);
    Rep1Tiled(C, a, e, u, A);
    Rep1Tagged(m, m', C, a, e, u, A);
    Rep1Maps(C, ex, ex', a, e, u);
    TagWritesMiss(m, m', C, a, a, e, A);
    RangeFenced(m, m', C, D, A, A, a, e);
  }

  lemma Rep1Maps(C: Tiling, ex: set<int>, ex': set<int>, a: int, e: int, u: bool)
    requires a in C && a < e && 0 !in C && AllLoose(C, ex, a, e) && SameElsewhere(ex, ex', a, e) && (!u ==> a in ex')
    ensures FreeExcept(Rep1(C, a, e, u), ex') == FreeExcept(C, ex)
    ensures Live(Rep1(C, a, e, u)) == if u then LiveOutside(C, a, e)[a := e - a] else LiveOutside(C, a, e)
  {
  }

  lemma Rep2Maps(C: Tiling, ex: set<int>, ex': set<int>, a: int, b: int, e: int, v: bool)
    requires a in C && a < b < e && 0 !in C && AllLoose(C, ex, a, e) && SameElsewhere(ex, ex', a, e) && (!v ==> b in ex')
    ensures FreeExcept(Rep2(C, a, b, e, v), ex') == FreeExcept(C, ex)
    ensures var L := LiveOutside(C, a, e)[a := b - a]; Live(Rep2(C, a, b, e, v)) == if v then L[b := e - b] else L
  {
  }

  lemma NoNull(C: Tiling, A: Arena)
    requires Tiled(C, A)
    ensures 0 !in C
  {
    assert 0 in C ==> TileOk(C, 0, A);
  }

  lemma TopClear(C: Tiling, a: int, e: int, A: Arena)
    requires Tiled(C, A) && Boundary(C, a, e, A)
    ensures a + MIN_CHUNK <= e && A.top !in C && A.topsize > 0 && 0 !in C && e + 16 <= A.hi && A.lo <= a
  {
    assert TileOk(C, a, A);
    if e in C { assert TileOk(C, e, A); }
    assert A.top in C ==> TileOk(C, A.top, A);
    NoNull(C, A);
  }

  /** Re-tagging [a, e) as an in-use chunk and a second one from b on. */
  lemma CoreRep2(m: Mem, m': Mem, x: Index, C: Tiling, ex: set<int>, ex': set<int>, A: Arena, gm: int,
                 a: int, b: int, e: int, v: bool)
    requires Core(m, x, C, ex, A, gm) && Boundary(C, a, e, A)
    requires AllLoose(C, ex, a, e) && SameElsewhere(ex, ex', a, e) && (!v ==> b in ex')
    requires A16(b) && a + MIN_CHUNK <= b && b + MIN_CHUNK <= e
    requires v || (e in C && C[e].cinuse)
    requires Rd(m', a + 8) == HeadWord(Chunk(b - a, true, C[a].pinuse)) && Rd(m', b + 8) == HeadWord(Chunk(e - b, v, true))
    requires e in C ==> Rd(m', e + 8) == HeadWord(C[e].(pinuse := v))
    requires !v ==> Rd(m', e) == e - b
    requires forall w {:trigger Rd(m', w)} :: w != a + 8 && w != b + 8 && (w != e + 8 || e !in C) && (w != e || v) ==> Rd(m', w) == Rd(m, w)
    ensures Core(m', x, Rep2(C, a, b, e, v), ex', A, gm)
    ensures Undisturbed(m, m', LiveOutside(C, a, e))
    ensures var L := LiveOutside(C, a, e)[a := b - a]; Live(Rep2(C, a, b, e, v)) == if v then L[b := e - b] else L
  {
    hide IndexOk, TileOk, Tiled, Tagged, Undisturbed, Fenced, FreeExcept, Live;
    var D := Rep2(C, a, b, e, v);
    TopClear(C, a, e, A);
    IndexSurvivesTags(m, m', x, C, ex, A, gm, a, e);
    Rep2Tiled(C, a, b, e, v, A);
    Rep2Tagged(m, m', C, a, b, e, v, A);
    Rep2Maps(C, ex, ex', a, b, e, v);
    TagWritesMiss(m, m', C, a, b, e, A);
    RangeFenced(m, m', C, D, A, A, a, e);
  }

  /** Merging everything from a on into top. */
  lemma CoreCut(m: Mem, m': Mem, x: Index, C: Tiling, ex: set<int>, ex': set<int>, A: Arena, gm: int, a: int)
    requires Core(m, x, C, ex, A, gm) && Boundary(C, a, A.top, A) && C[a].pinuse
    requires AllLoose(C, ex, a, A.top) && SameElsewhere(ex, ex', a, A.top)
    requires Rd(m', a + 8) == A.topsize + (A.top - a) + 1
    requires forall w {:trigger Rd(m', w)} :: w != a + 8 ==> Rd(m', w) == Rd(m, w)
    ensures Core(m', x, CutAt(C, a, A.top), ex', CutArena(A, a), gm)
    ensures Undisturbed(m, m', LiveOutside(C, a, A.top)) && Live(CutAt(C, a, A.top)) == LiveOutside(C, a, A.top)
  {
    hide IndexOk, TileOk, Tiled, Tagged, Undisturbed, Before, Fenced;
    TopClear(C, a, A.top, A);
    IndexSurvivesTags(m, m', x, C, ex, A, gm, a, A.top);
    CutTiled(C, a, A);
    CutTags(m, m', C, A, a);
    CutMaps(C, ex, ex', A, a);
    TagWritesMiss(m, m', C, a, a, A.top, A);
    RangeFenced(m, m', C, CutAt(C, a, A.top), A, CutArena(A, a), a, A.top);
  }

  lemma CutTags(m: Mem, m': Mem, C: Tiling, A: Arena, a: int)
    requires Tiled(C, A) && Tagged(m, C) && Boundary(C, a, A.top, A)
    requires forall w {:trigger Rd(m', w)} :: w != a + 8 ==> Rd(m', w) == Rd(m, w)
    ensures Tagged(m', CutAt(C, a, A.top))
  {
    var D := CutAt(C, a, A.top);
    assert TileOk(C, a, A);
    forall q | q in D ensures TagAt(m', D, q) {
      assert TagAt(m, C, q);
      assert TileOk(C, q, A) && Before(C, q, a);
    }
  }

  lemma CutMaps(C: Tiling, ex: set<int>, ex': set<int>, A: Arena, a: int)
    requires Tiled(C, A) && AllLoose(C, ex, a, A.top) && SameElsewhere(ex, ex', a, A.top)
    ensures FreeExcept(CutAt(C, a, A.top), ex') == FreeExcept(C, ex) && Live(CutAt(C, a, A.top)) == LiveOutside(C, a, A.top)
  {
    NoNull(C, A);
  }

  /** Ending the heap with an in-use chunk [a, top'), new or grown, and top after it. */
  lemma CoreEnd(m: Mem, m': Mem, x: Index, C: Tiling, ex: set<int>, A: Arena, gm: int,
                a: int, top': int, pinuse: bool)
    requires Core(m, x, C, ex, A, gm)
    requires A16(top') && A.top < top' < A.top + A.topsize && a + MIN_CHUNK <= top' && AtTop(C, A, a, pinuse)
    requires Rd(m', a + 8) == HeadWord(Chunk(top' - a, true, pinuse)) && Rd(m', top' + 8) == A.top + A.topsize - top' + 1
    requires forall w {:trigger Rd(m', w)} :: w != a + 8 && w != top' + 8 ==> Rd(m', w) == Rd(m, w)
    ensures Core(m', x, EndAt(C, a, top', pinuse), ex, EndArena(A, top'), gm)
    ensures Undisturbed(m, m', Live(C)) && Live(EndAt(C, a, top', pinuse)) == Live(C)[a := top' - a]
  {
    hide IndexOk, Outside, Tiled, Tagged, Undisturbed, TileOk, Before, EndAt;
    if a == A.top { OutsideTop(C, x.B, A, gm, a + 8); } else { OutsideHead(C, x.B, A, gm, a); }
    OutsideTop(C, x.B, A, gm, top' + 8);
    IndexFrame(m, m', x, gm, A.lo, A.hi);
    EndTiled(C, a, A, top', pinuse);
    EndTags(m, m', C, A, a, top', pinuse);
    EndMaps(C, ex, A, a, top', pinuse);
    EndFenced(m, m', C, A, a, top', pinuse);
  }

  lemma EndFenced(m: Mem, m': Mem, C: Tiling, A: Arena, a: int, top': int, pinuse: bool)
    requires Tiled(C, A) && Fenced(m, C, A) && A.top < top' < A.top + A.topsize && AtTop(C, A, a, pinuse)
    requires forall w {:trigger Rd(m', w)} :: w != a + 8 && w != top' + 8 ==> Rd(m', w) == Rd(m, w)
    ensures Fenced(m', EndAt(C, a, top', pinuse), EndArena(A, top'))
  {
    var D := EndAt(C, a, top', pinuse);
    forall r | r in A.records ensures FenceKept(m, m', C, D, r) {
      FenceApart(C, A, r, r);
      assert TileOk(C, r, A);
      if a in C { FenceApart(C, A, r, a); }
    }
    FencedFrame(m, m', C, D, A, EndArena(A, top'));
  }

  lemma EndTags(m: Mem, m': Mem, C: Tiling, A: Arena, a: int, top': int, pinuse: bool)
    requires Tiled(C, A) && Tagged(m, C) && A.top < top' < A.top + A.topsize && AtTop(C, A, a, pinuse)
    requires Rd(m', a + 8) == HeadWord(Chunk(top' - a, true, pinuse))
    requires forall w {:trigger Rd(m', w)} :: w != a + 8 && w != top' + 8 ==> Rd(m', w) == Rd(m, w)
    ensures Tagged(m', EndAt(C, a, top', pinuse)) && Undisturbed(m, m', Live(C))
  {
    var D := EndAt(C, a, top', pinuse);
    forall q | q in D ensures TagAt(m', D, q) {
      if q != a {
        assert TagAt(m, C, q) && TileOk(C, q, A);
        if a in C { assert Before(C, q, a); }
      }
    }
    var L := Live(C);
    forall q | q in L ensures PayloadKept(m, m', q, L[q]) {
      assert TileOk(C, q, A);
      if a in C { assert Before(C, q, a) && Before(C, a, q); }
    }
  }

  lemma EndMaps(C: Tiling, ex: set<int>, A: Arena, a: int, top': int, pinuse: bool)
    requires Tiled(C, A) && AtTop(C, A, a, pinuse)
    ensures var D := EndAt(C, a, top', pinuse); FreeExcept(D, ex) == FreeExcept(C, ex) && Live(D) == Live(C)[a := top' - a]
  {
    if a in C { assert TileOk(C, a, A); }
  }

  /** Head words of indexed chunks decode to their sizes. */
  lemma CoreSized(m: Mem, x: Index, C: Tiling, ex: set<int>, A: Arena, gm: int)
    requires Core(m, x, C, ex, A, gm)
    ensures Sized(m, x.B)
  {
    hide IndexOk;
    forall p | p in x.B ensures SizedAt(m, x.B, p) {
      assert TagAt(m, C, p) && TileOk(C, p, A);
      HeadDecodes(C[p]);
    }
  }

  /** A loose free chunk may be put back in the index. */
  lemma CoreRoom(m: Mem, x: Index, C: Tiling, ex: set<int>, A: Arena, gm: int, p: int)
    requires Core(m, x, C, ex, A, gm) && p in C && !C[p].cinuse && p in ex
    ensures p !in x.B && Placed(x.B[p := C[p].size], A.lo, A.hi, gm) && x.B[p := C[p].size] == FreeExcept(C, ex - {p})
    ensures C[p].size >= 32 && A16(C[p].size) && C[p].size < A.hi - A.lo
  {
    hide IndexOk;
    assert TileOk(C, p, A);
    FreePlaced(C, ex - {p}, A, gm);
    assert x.B[p := C[p].size] == FreeExcept(C, ex - {p});
  }

  /** What the tags around an in-use chunk say. */
  lemma Around(m: Mem, x: Index, C: Tiling, ex: set<int>, A: Arena, gm: int, p: int)
    requires Core(m, x, C, ex, A, gm) && p in C && C[p].cinuse && p !in A.records
    ensures var n := p + C[p].size;
            && p >= A.lo > 0 && C[p].size >= 32 && A16(C[p].size) && Boundary(C, p, n, A) && A.top !in C && 0 !in C
            && (n != A.top ==> n in C && C[n].pinuse && A16(C[n].size) && C[n].size >= 32)
            && (n != A.top && !C[n].cinuse ==> var e := n + C[n].size; Boundary(C, n, e, A) && e in C && C[e].cinuse && !C[e].pinuse)
            && Rd(m, p + 8) == HeadWord(C[p]) && A16(A.topsize) && A.topsize > 0 && n > p
            && (n == A.top ==> Rd(m, n + 8) == A.topsize + 1)
            && (n != A.top ==> Rd(m, n + 8) == HeadWord(C[n]))
  {
    hide IndexOk;
    assert TileOk(C, p, A) && TagAt(m, C, p);
    var n := p + C[p].size;
    Solo(C, p, A);
    TopClear(C, p, n, A);
    if n != A.top {
      assert TileOk(C, n, A) && TagAt(m, C, n);
      if !C[n].cinuse {
        Solo(C, n, A);
        assert TileOk(C, n + C[n].size, A);
      }
    }
  }

  /** A clear pinuse bit means the word before the chunk is the size of the free chunk that precedes it. */
  lemma Preceding(m: Mem, x: Index, C: Tiling, ex: set<int>, A: Arena, gm: int, p: int)
    requires Core(m, x, C, ex, A, gm) && p in C && !C[p].pinuse
    ensures var q := p - Rd(m, p);
            q in C && !C[q].cinuse && C[q].pinuse && C[q].size == Rd(m, p) && q >= A.lo && q < p && q !in A.records && A16(Rd(m, p)) && Rd(m, p) >= 32
  {
    hide IndexOk;
    assert TileOk(C, p, A);
    var q := Predecessor(C, p, A);
    assert TileOk(C, q, A) && TagAt(m, C, q);
  }

  /** a starts a run of chunks up to p: either p itself or one free chunk ending at p. */
  ghost predicate Leads(C: Tiling, A: Arena, a: int, p: int) {
    && a in C && p in C && C[p].cinuse && p !in A.records
    && (a == p || (a + C[a].size == p && !C[a].cinuse))
  }

  /** The chunks of [a, e) when e is the end of p, or the end of the free chunk after p. */
  lemma Span(C: Tiling, a: int, p: int, e: int, A: Arena, ex: set<int>)
    requires Tiled(C, A) && Leads(C, A, a, p)
    requires var n := p + C[p].size; e == n || (n in C && !C[n].cinuse && e == n + C[n].size && n in ex)
    requires a == p || a in ex
    ensures Boundary(C, a, e, A) && AllLoose(C, ex, a, e) && LiveOutside(C, a, e) == Live(C) - {p}
    ensures forall q {:trigger C[q]} :: q in C && a <= q < e ==> q == a || q == p || q == p + C[p].size
  {
    SpanInner(C, a, p, e, A);
    var n := p + C[p].size;
    assert TileOk(C, p, A) && TileOk(C, a, A);
    if e != n { assert TileOk(C, n, A); }
    forall q | q in C && a <= q < e ensures q == a || q == p || (q == n && e != n) {
      assert Before(C, a, q) && Before(C, p, q) && Before(C, q, p);
      if e != n { assert Before(C, n, q); }
      if a != p { assert Before(C, q, p); }
    }
  }

  lemma SpanInner(C: Tiling, a: int, p: int, e: int, A: Arena)
    requires Tiled(C, A) && Leads(C, A, a, p)
    requires var n := p + C[p].size; e == n || (n in C && !C[n].cinuse && e == n + C[n].size)
    ensures Boundary(C, a, e, A)
  {
    var n := p + C[p].size;
    assert TileOk(C, p, A) && TileOk(C, a, A);
    Solo(C, p, A);
    if e != n {
      assert TileOk(C, n, A);
      Solo(C, n, A);
      InnerJoin(A, p, n, e);
    }
    if a != p {
      Solo(C, a, A);
      InnerJoin(A, a, p, e);
    }
  }

  /** A free chunk is bounded by in-use chunks and taking it disturbs no live one. */
  lemma FreeBounds(m: Mem, x: Index, C: Tiling, ex: set<int>, A: Arena, gm: int, v: int)
    requires Core(m, x, C, ex, A, gm) && v in C && !C[v].cinuse && v in ex
    ensures var e := v + C[v].size;
            && A16(v) && A16(C[v].size) && C[v].size >= 32 && C[v].pinuse && A.lo <= v && v > 0 && v !in A.records
            && Boundary(C, v, e, A) && e in C && C[e].cinuse && !C[e].pinuse && A16(C[e].size)
            && AllLoose(C, ex, v, e) && LiveOutside(C, v, e) == Live(C)
            && Rd(m, e + 8) == HeadWord(C[e]) && Rd(m, v + 8) == HeadWord(C[v])
  {
    hide IndexOk;
    var e := v + C[v].size;
    assert TileOk(C, v, A) && TagAt(m, C, v);
    Solo(C, v, A);
    assert TileOk(C, e, A) && TagAt(m, C, e);
    forall q | q in C && v <= q < e ensures q == v { assert Before(C, v, q); }
  }

  /** Only chunks matter in the set of exceptions. */
  lemma CoreEx(m: Mem, x: Index, C: Tiling, ex: set<int>, ex': set<int>, A: Arena, gm: int)
    requires Core(m, x, C, ex, A, gm) && SameElsewhere(ex, ex', 0, 0)
    ensures Core(m, x, C, ex', A, gm)
  {
    NoNull(C, A);
    assert forall p :: p in C && !C[p].cinuse ==> (p in ex <==> p in ex');
    assert FreeExcept(C, ex) == FreeExcept(C, ex');
  }

  /** Writing inside the payload of a live chunk changes nothing the heap relies on. */
  lemma CorePayload(m: Mem, m': Mem, x: Index, C: Tiling, ex: set<int>, A: Arena, gm: int, q: int)
    requires Core(m, x, C, ex, A, gm) && q in C && C[q].cinuse
    requires forall w {:trigger Rd(m', w)} :: !(q + 16 <= w < q + C[q].size + 8) ==> Rd(m', w) == Rd(m, w)
    ensures Core(m', x, C, ex, A, gm) && Undisturbed(m, m', Live(C) - {q})
  {
    hide IndexOk, Outside, Tiled, Tagged, Undisturbed;
    forall w | !Outside(x.B, gm, w) ensures Rd(m', w) == Rd(m, w) {
      if q + 16 <= w < q + C[q].size + 8 { OutsidePayload(C, x.B, A, gm, q, w); }
    }
    IndexFrame(m, m', x, gm, A.lo, A.hi);
    PayloadTags(m, m', C, A, q);
    PayloadTop(C, A, q);
    PayloadFenced(m, m', C, A, q);
  }

  lemma PayloadTags(m: Mem, m': Mem, C: Tiling, A: Arena, q: int)
    requires Tiled(C, A) && Tagged(m, C) && q in C && C[q].cinuse
    requires forall w {:trigger Rd(m', w)} :: !(q + 16 <= w < q + C[q].size + 8) ==> Rd(m', w) == Rd(m, w)
    ensures Tagged(m', C) && Undisturbed(m, m', Live(C) - {q})
  {
    forall p | p in C ensures TagAt(m', C, p) {
      assert TagAt(m, C, p) && TileOk(C, p, A) && TileOk(C, q, A);
      assert Before(C, p, q) && Before(C, q, p);
    }
    var L := Live(C) - {q};
    forall p | p in L ensures PayloadKept(m, m', p, L[p]) { assert Before(C, p, q) && Before(C, q, p); }
  }

  lemma PayloadFenced(m: Mem, m': Mem, C: Tiling, A: Arena, q: int)
    requires Tiled(C, A) && Fenced(m, C, A) && q in C
    requires forall w {:trigger Rd(m', w)} :: !(q + 16 <= w < q + C[q].size + 8) ==> Rd(m', w) == Rd(m, w)
    ensures Fenced(m', C, A)
  {
    hide TileOk;
    forall r | r in A.records ensures FenceKept(m, m', C, C, r) { FenceApart(C, A, r, q); }
    FencedFrame(m, m', C, C, A, A);
  }

  lemma PayloadTop(C: Tiling, A: Arena, q: int)
    requires Tiled(C, A) && q in C
    ensures A.topsize > 0 && (q + C[q].size + 8 <= A.top + 8 || A.top + A.topsize + 16 <= q)
  {
    assert TileOk(C, q, A);
  }
}
