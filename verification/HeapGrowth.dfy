/** How the heap takes in memory from the system: growing top, extending a segment downward, opening a new segment. */
module HeapGrowth {
  import opened Memory
  import opened Tiles
  import opened SmallBins
  import opened TreeBins
  import opened FreeIndex
  import opened Tags
  import opened HeapCore

  /** Words of a new grant belong to no stocked chunk. */
  lemma GrantOutside(C: Tiling, B: Stock, A: Arena, gm: int, br: int, n: int, a: int)
    requires Tiled(C, A) && NewGrant(A, br, n) && br <= a < br + n && Away(A, gm)
    requires forall p {:trigger B[p]} :: p in B ==> p in C && B[p] == C[p].size
    ensures Outside(B, gm, a)
  {
    hide Tiled;
    forall p | p in B ensures a < p + 16 || p + B[p] <= a { OneSide(C, p, A, br, n); }
  }

  /** Fenceposts lie outside a new grant. */
  lemma FenceOld(C: Tiling, A: Arena, r: int, br: int, n: int)
    requires Tiled(C, A) && NewGrant(A, br, n) && r in A.records && r in C
    ensures var f := r + C[r].size + 8; f < br || br + n <= f
  {
    OneSide(C, r, A, br, n);
    assert TileOk(C, r, A);
    Diff16(r + C[r].size, r);
    Diff16(br, r + C[r].size);
  }

  /** Writes in top and in a new grant leave the fenceposts alone. */
  lemma GrantFenced(m: Mem, m': Mem, C: Tiling, C': Tiling, A: Arena, A': Arena, br: int, n: int)
    requires Tiled(C, A) && Fenced(m, C, A) && NewGrant(A, br, n) && A'.records == A.records
    requires forall w {:trigger Rd(m', w)} :: !(A.top <= w < A.top + A.topsize + TOP_FOOT) && !(br <= w < br + n) ==> Rd(m', w) == Rd(m, w)
    requires forall r {:trigger C[r]} :: r in C ==> r in C' && C'[r].size == C[r].size
    ensures Fenced(m', C', A')
  {
    hide TileOk, NewGrant;
    forall r | r in A.records ensures FenceKept(m, m', C, C', r) {
      FenceApart(C, A, r, r);
      FenceOld(C, A, r, br, n);
      assert C[r] == C[r];
    }
    FencedFrame(m, m', C, C', A, A');
  }

  lemma CoreLower(m: Mem, x: Index, C: Tiling, ex: set<int>, A: Arena, gm: int, lo: int)
    requires Core(m, x, C, ex, A, gm) && 0 < lo <= A.lo && Away(A.(lo := lo), gm)
    ensures Core(m, x, C, ex, A.(lo := lo), gm)
  {
    hide Tiled, Tagged, SmallOk, TreeOk;
    LowerTiled(C, A, lo);
    assert Fenced(m, C, A.(lo := lo));
    forall p | p in x.B ensures InPlace(x.B, p, lo, A.hi) { assert InPlace(x.B, p, A.lo, A.hi); }
  }

  // ---------------------------------------------------------------- growing top

  lemma GrowTags(m: Mem, m': Mem, C: Tiling, A: Arena, n: int)
    requires Tiled(C, A) && Tagged(m, C) && n >= TOP_FOOT && NewGrant(A, A.top + A.topsize + TOP_FOOT, n)
    requires forall w {:trigger Rd(m', w)} :: w != A.top + 8 && w != A.top + A.topsize + n + 8 ==> Rd(m', w) == Rd(m, w)
    ensures Tagged(m', C) && Undisturbed(m, m', Live(C))
  {
    var br := A.top + A.topsize + TOP_FOOT;
    forall p | p in C ensures TagAt(m', C, p) {
      assert TagAt(m, C, p) && TileOk(C, p, A);
      OneSide(C, p, A, br, n);
    }
    var L := Live(C);
    forall q | q in L ensures PayloadKept(m, m', q, L[q]) {
      assert TileOk(C, q, A);
      OneSide(C, q, A, br, n);
    }
  }

  /** A grant adjacent to top makes it larger and touches nothing else. */
  lemma CoreGrow(m: Mem, m': Mem, x: Index, C: Tiling, ex: set<int>, A: Arena, gm: int, n: int)
    requires Core(m, x, C, ex, A, gm) && n >= TOP_FOOT && NewGrant(A, A.top + A.topsize + TOP_FOOT, n)
    requires Rd(m', A.top + 8) == A.topsize + n + 1 && Rd(m', A.top + A.topsize + n + 8) == TOP_FOOT
    requires forall w {:trigger Rd(m', w)} :: w != A.top + 8 && w != A.top + A.topsize + n + 8 ==> Rd(m', w) == Rd(m, w)
    ensures Core(m', x, C, ex, GrowArena(A, n), gm) && Undisturbed(m, m', Live(C))
  {
    hide IndexOk, Tiled, Tagged, Outside, Undisturbed;
    var br := A.top + A.topsize + TOP_FOOT;
    assert TopOk(C, A) by { CoreTop(m, x, C, ex, A, gm); }
    OutsideTop(C, x.B, A, gm, A.top + 8);
    GrantOutside(C, x.B, A, gm, br, n, A.top + A.topsize + n + 8);
    IndexFrame(m, m', x, gm, A.lo, A.hi);
    GrowTiled(C, A, n);
    GrowTags(m, m', C, A, n);
    GrantFenced(m, m', C, C, A, GrowArena(A, n), br, n);
  }

  lemma CoreTop(m: Mem, x: Index, C: Tiling, ex: set<int>, A: Arena, gm: int)
    requires Core(m, x, C, ex, A, gm)
    ensures TopOk(C, A)
  {
  }

  // ---------------------------------------------------------------- extending a segment downward

  lemma PrependTags(m: Mem, m': Mem, C: Tiling, A: Arena, br: int, n: int)
    requires Tiled(C, A) && Tagged(m, C) && n >= MIN_CHUNK && NewGrant(A, br, n)
    requires Rd(m', br + 8) == n + 3
    requires forall w {:trigger Rd(m', w)} :: w != br + 8 ==> Rd(m', w) == Rd(m, w)
    ensures Tagged(m', Prepended(C, br, n)) && Undisturbed(m, m', Live(C))
  {
    var D := Prepended(C, br, n);
    forall p | p in D ensures TagAt(m', D, p) {
      if p != br {
        assert TagAt(m, C, p) && TileOk(C, p, A);
        OneSide(C, p, A, br, n);
      }
    }
    var L := Live(C);
    forall q | q in L ensures PayloadKept(m, m', q, L[q]) { OneSide(C, q, A, br, n); }
  }

  /** The grant below segment start br + n, taken as one in-use chunk. */
  lemma CorePrepend(m: Mem, m': Mem, x: Index, C: Tiling, ex: set<int>, A: Arena, gm: int, br: int, n: int)
    requires Core(m, x, C, ex, A, gm) && n >= MIN_CHUNK && NewGrant(A, br, n) && br + n in A.heads && br + n + 16 <= A.hi
    requires Rd(m', br + 8) == n + 3
    requires forall w {:trigger Rd(m', w)} :: w != br + 8 ==> Rd(m', w) == Rd(m, w)
    ensures Core(m', x, Prepended(C, br, n), ex, PrependArena(A, br, n), gm) && Undisturbed(m, m', Live(C))
    ensures br !in C && Live(Prepended(C, br, n)) == Live(C)[br := n]
  {
    hide IndexOk, Tiled, Tagged, Outside, Undisturbed;
    assert TopOk(C, A) by { CoreTop(m, x, C, ex, A, gm); }
    TopOneSide(C, A, br, n);
    GrantOutside(C, x.B, A, gm, br, n, br + 8);
    IndexFrame(m, m', x, gm, A.lo, A.hi);
    PrependTiled(C, A, br, n);
    PrependTags(m, m', C, A, br, n);
    assert br !in C by { BrNew(C, A, br, n); }
    GrantFenced(m, m', C, Prepended(C, br, n), A, PrependArena(A, br, n), br, n);
    assert FreeExcept(Prepended(C, br, n), ex) == FreeExcept(C, ex);
  }

  lemma BrNew(C: Tiling, A: Arena, br: int, n: int)
    requires Tiled(C, A) && NewGrant(A, br, n)
    ensures br !in C
  {
    if br in C { OneSide(C, br, A, br, n); }
  }

  /** The grant as two in-use chunks: nb bytes for the caller, the rest from br + nb on. */
  ghost function SplitOff(C: Tiling, br: int, n: int, nb: int): Tiling {
    C[br := Chunk(nb, true, true)][br + nb := Chunk(n - nb, true, true)]
  }

  lemma SplitOffIs(C: Tiling, A: Arena, br: int, n: int, nb: int)
    requires Tiled(Prepended(C, br, n), A) && br !in C && nb >= MIN_CHUNK && nb + MIN_CHUNK <= n && (br + n in C ==> C[br + n].pinuse)
    ensures Rep2(Prepended(C, br, n), br, br + nb, br + n, true) == SplitOff(C, br, n, nb) && br + nb !in C
    ensures LiveOutside(Prepended(C, br, n), br, br + n) == Live(C)
  {
    hide Tiled;
    var C1 := Prepended(C, br, n);
    forall q | q in C1 && br <= q < br + n ensures q == br { NoneInside(C1, A, br, q); }
    assert forall q :: q in C ==> q in C1 && !(br <= q < br + n);
    assert LiveOutside(C1, br, br + n) == Live(C);
  }

  /** Splitting the prepended chunk at once. */
  lemma CorePrependSplit(m: Mem, m2: Mem, x: Index, C: Tiling, ex: set<int>, A: Arena, gm: int, br: int, n: int, nb: int)
    requires Core(m, x, C, ex, A, gm) && NewGrant(A, br, n) && br + n in A.heads
    requires A16(nb) && nb >= MIN_CHUNK && nb + MIN_CHUNK <= n
    requires Rd(m2, br + 8) == nb + 3 && Rd(m2, br + nb + 8) == n - nb + 3
    requires forall w {:trigger Rd(m2, w)} :: w != br + 8 && w != br + nb + 8 ==> Rd(m2, w) == Rd(m, w)
    ensures br !in C && br + nb !in C && br + nb !in A.records
    ensures Core(m2, x, SplitOff(C, br, n, nb), ex, PrependArena(A, br, n), gm) && Undisturbed(m, m2, Live(C))
  {
    hide IndexOk, Tiled, Tagged, Undisturbed, Live, LiveOutside, FreeExcept, SplitOff, Rep2;
    var m1 := m[br + 8 := n + 3];
    var C1, A1 := Prepended(C, br, n), PrependArena(A, br, n);
    HeadBound(m, x, C, ex, A, gm, br + n);
    CorePrepend(m, m1, x, C, ex, A, gm, br, n);
    NotRecord(C, A, br);
    Solo(C1, br, A1);
    SplitOffIs(C, A1, br, n, nb);
    NotRecord(C, A, br + nb);
    assert AllLoose(C1, ex, br, br + n) by { forall q | q in C1 && br <= q < br + n ensures q == br { NoneInside(C1, A1, br, q); } }
    CoreRep2(m1, m2, x, C1, ex, ex, A1, gm, br, br + nb, br + n, true);
    UndisturbedTwice(m, m1, m2, Live(C), Live(C));
  }

  lemma NotRecord(C: Tiling, A: Arena, q: int)
    requires Tiled(C, A) && q !in C
    ensures q !in A.records
  {
  }

  lemma NoneInside(C: Tiling, A: Arena, p: int, q: int)
    requires Tiled(C, A) && p in C && q in C && p <= q < p + C[p].size
    ensures q == p
  {
    assert Before(C, p, q);
  }

  // ---------------------------------------------------------------- opening a new segment

  lemma CloseTags(m: Mem, m': Mem, C: Tiling, A: Arena, csp: int, br: int, n: int)
    requires Closing(C, A, csp, br, n) && Tagged(m, C)
    requires Rd(m', csp + 8) == 48 + 2 + (if csp == A.top then 1 else 0)
    requires csp != A.top ==> Rd(m', A.top + 8) == csp - A.top + 1 && Rd(m', csp) == csp - A.top
    requires forall w {:trigger Rd(m', w)} :: !(A.top + 8 <= w < A.top + A.topsize + TOP_FOOT) && w != br + 8 && w != br + n - TOP_FOOT + 8 ==> Rd(m', w) == Rd(m, w)
    ensures Tagged(m', Closed(C, A.top, csp)) && Undisturbed(m, m', Live(C))
  {
    var D := Closed(C, A.top, csp);
    forall p | p in D ensures TagAt(m', D, p) {
      if p in C {
        CloseOld(C, A, csp, br, n, p);
        assert TagAt(m, C, p) && TileOk(C, p, A);
        OneSide(C, p, A, br, n);
      }
    }
    var L := Live(C);
    forall q | q in L ensures PayloadKept(m, m', q, L[q]) {
      assert TileOk(C, q, A);
      OneSide(C, q, A, br, n);
    }
  }

  lemma CloseMaps(C: Tiling, ex: set<int>, ex': set<int>, A: Arena, csp: int, br: int, n: int)
    requires Closing(C, A, csp, br, n) && SameElsewhere(ex, ex', A.top, A.top + 1) && (csp != A.top ==> A.top in ex')
    ensures FreeExcept(Closed(C, A.top, csp), ex') == FreeExcept(C, ex)
    ensures csp !in C && Live(Closed(C, A.top, csp)) == Live(C)[csp := 48]
  {
    NoNull(C, A);
    forall p | p in C ensures p != A.top && p != csp { CloseOld(C, A, csp, br, n, p); }
  }

  lemma CloseOutside(C: Tiling, B: Stock, A: Arena, gm: int, csp: int, br: int, n: int, w: int)
    requires Closing(C, A, csp, br, n) && Away(A, gm)
    requires forall p {:trigger B[p]} :: p in B ==> p in C && B[p] == C[p].size
    requires A.top + 8 <= w < A.top + A.topsize + TOP_FOOT || w == br + 8 || w == br + n - TOP_FOOT + 8
    ensures Outside(B, gm, w)
  {
    if A.top + 8 <= w < A.top + A.topsize + TOP_FOOT { OutsideTop(C, B, A, gm, w); } else { GrantOutside(C, B, A, gm, br, n, w); }
  }

  lemma CloseFenced(m: Mem, m': Mem, C: Tiling, A: Arena, csp: int, br: int, n: int)
    requires Closing(C, A, csp, br, n) && Fenced(m, C, A) && Rd(m', csp + 56) == FENCEPOST_HEAD
    requires forall w {:trigger Rd(m', w)} :: !(A.top + 8 <= w < A.top + A.topsize + TOP_FOOT) && w != br + 8 && w != br + n - TOP_FOOT + 8 ==> Rd(m', w) == Rd(m, w)
    ensures Fenced(m', Closed(C, A.top, csp), CloseArena(A, csp, br, n))
  {
    hide TileOk, NewGrant;
    var D := Closed(C, A.top, csp);
    ClosedFacts(C, A.top, csp);
    forall r | r in A.records + {csp} && r in D ensures FenceAfter(m', D, r) {
      if r != csp {
        assert r in C && D[r] == C[r] by { CloseOld(C, A, csp, br, n, r); }
        FenceApart(C, A, r, r);
        FenceOld(C, A, r, br, n);
        assert FenceAfter(m, C, r);
      }
    }
  }

  /** The old top becomes a free chunk and a segment record, or just the record when it is too small to split. */
  lemma CoreClose(m: Mem, m': Mem, x: Index, C: Tiling, ex: set<int>, ex': set<int>, A: Arena, gm: int, csp: int, br: int, n: int)
    requires Core(m, x, C, ex, A, gm) && Closing(C, A, csp, br, n)
    requires SameElsewhere(ex, ex', A.top, A.top + 1) && (csp != A.top ==> A.top in ex')
    requires Rd(m', csp + 8) == 48 + 2 + (if csp == A.top then 1 else 0)
    requires csp != A.top ==> Rd(m', A.top + 8) == csp - A.top + 1 && Rd(m', csp) == csp - A.top
    requires Rd(m', br + 8) == n - TOP_FOOT + 1 && Rd(m', br + n - TOP_FOOT + 8) == TOP_FOOT && Rd(m', csp + 56) == FENCEPOST_HEAD
    requires forall w {:trigger Rd(m', w)} :: !(A.top + 8 <= w < A.top + A.topsize + TOP_FOOT) && w != br + 8 && w != br + n - TOP_FOOT + 8 ==> Rd(m', w) == Rd(m, w)
    ensures Core(m', x, Closed(C, A.top, csp), ex', CloseArena(A, csp, br, n), gm) && Undisturbed(m, m', Live(C))
    ensures csp !in C && Live(Closed(C, A.top, csp)) == Live(C)[csp := 48]
  {
    hide IndexOk, Tiled, Tagged, Outside, Undisturbed, Closed;
    forall w | !Outside(x.B, gm, w) ensures Rd(m', w) == Rd(m, w) {
      if A.top + 8 <= w < A.top + A.topsize + TOP_FOOT || w == br + 8 || w == br + n - TOP_FOOT + 8 {
        CloseOutside(C, x.B, A, gm, csp, br, n, w);
      }
    }
    IndexFrame(m, m', x, gm, A.lo, A.hi);
    CloseTiled(C, A, csp, br, n);
    CloseTags(m, m', C, A, csp, br, n);
    CloseMaps(C, ex, ex', A, csp, br, n);
    CloseFenced(m, m', C, A, csp, br, n);
  }

  // ---------------------------------------------------------------- the heap does not look at memory not yet taken in

  lemma FreshTags(m: Mem, m': Mem, C: Tiling, A: Arena, br: int, n: int)
    requires Tiled(C, A) && Tagged(m, C) && NewGrant(A, br, n)
    requires forall w {:trigger Rd(m', w)} :: !(br + 8 <= w < br + n) ==> Rd(m', w) == Rd(m, w)
    ensures Tagged(m', C) && Undisturbed(m, m', Live(C))
  {
    forall p | p in C ensures TagAt(m', C, p) {
      assert TagAt(m, C, p) && TileOk(C, p, A);
      OneSide(C, p, A, br, n);
    }
    var L := Live(C);
    forall q | q in L ensures PayloadKept(m, m', q, L[q]) { OneSide(C, q, A, br, n); }
  }

  lemma CoreFresh(m: Mem, m': Mem, x: Index, C: Tiling, ex: set<int>, A: Arena, gm: int, br: int, n: int)
    requires Core(m, x, C, ex, A, gm) && NewGrant(A, br, n)
    requires forall w {:trigger Rd(m', w)} :: !(br + 8 <= w < br + n) ==> Rd(m', w) == Rd(m, w)
    ensures Core(m', x, C, ex, A, gm) && Undisturbed(m, m', Live(C))
  {
    hide IndexOk, Tiled, Tagged, Outside, Undisturbed;
    assert TopOk(C, A) by { CoreTop(m, x, C, ex, A, gm); }
    TopOneSide(C, A, br, n);
    forall w | !Outside(x.B, gm, w) ensures Rd(m', w) == Rd(m, w) {
      if br + 8 <= w < br + n { GrantOutside(C, x.B, A, gm, br, n, w); }
    }
    IndexFrame(m, m', x, gm, A.lo, A.hi);
    FreshTags(m, m', C, A, br, n);
    GrantFenced(m, m', C, C, A, A, br, n);
  }

  lemma HeadBound(m: Mem, x: Index, C: Tiling, ex: set<int>, A: Arena, gm: int, h: int)
    requires Core(m, x, C, ex, A, gm) && h in A.heads
    ensures h + 16 <= A.hi && h > 0 && A.top !in C && (h == A.top || (h in C && C[h].pinuse && Rd(m, h + 8) == HeadWord(C[h]) && A16(C[h].size) && C[h].size >= 32))
  {
    assert Starts(C, A, h);
    if A.top in C { assert TileOk(C, A.top, A); }
    if h in C { assert TileOk(C, h, A) && TagAt(m, C, h); }
  }
}
