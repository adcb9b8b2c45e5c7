/** Walking the segments chunk by chunk, as traverse_and_check does, meets every chunk once and accounts for every byte. */
module Traversal {
  import opened Tiles

  ghost predicate OnTile(C: Tiling, A: Arena, p: int) { p == A.top || p in C }

  lemma StepOk(C: Tiling, A: Arena, p: int)
    requires Tiled(C, A) && p in C
    ensures C[p].size > 0 && p + C[p].size < A.hi && p != A.top && (p !in A.records ==> OnTile(C, A, p + C[p].size))
  {
    assert TileOk(C, p, A);
  }

  /** The chunks met from p on, following sizes until top or the record that closes the segment. */
  ghost function Walk(C: Tiling, A: Arena, p: int): seq<int>
    requires Tiled(C, A) && OnTile(C, A, p)
    decreases A.hi - p
  {
    if p == A.top then []
    else
      StepOk(C, A, p);
      if p in A.records then [p] else [p] + Walk(C, A, p + C[p].size)
  }

  /** Where the walk from p stops. */
  ghost function WalkEnd(C: Tiling, A: Arena, p: int): int
    requires Tiled(C, A) && OnTile(C, A, p)
    decreases A.hi - p
  {
    if p == A.top then p
    else
      StepOk(C, A, p);
      if p in A.records then p + C[p].size else WalkEnd(C, A, p + C[p].size)
  }

  ghost function TotalSize(C: Tiling, ps: seq<int>): int {
    if ps == [] then 0 else (if ps[0] in C then C[ps[0]].size else 0) + TotalSize(C, ps[1..])
  }

  /** The sizes met add up to the distance walked: no gap and no overlap. */
  lemma {:induction false} WalkAddsUp(C: Tiling, A: Arena, p: int)
    requires Tiled(C, A) && OnTile(C, A, p)
    ensures forall q {:trigger q in Walk(C, A, p)} :: q in Walk(C, A, p) ==> q in C && p <= q < WalkEnd(C, A, p)
    ensures TotalSize(C, Walk(C, A, p)) == WalkEnd(C, A, p) - p
    decreases A.hi - p
  {
    if p != A.top {
      StepOk(C, A, p);
      if p !in A.records {
        var n := p + C[p].size;
        WalkAddsUp(C, A, n);
        var w := Walk(C, A, n);
        assert ([p] + w)[1..] == w;
        WalkEndBeyond(C, A, n);
      } else {
        assert [p][1..] == [];
      }
    }
  }

  lemma {:induction false} WalkEndBeyond(C: Tiling, A: Arena, p: int)
    requires Tiled(C, A) && OnTile(C, A, p)
    ensures p <= WalkEnd(C, A, p)
    decreases A.hi - p
  {
    if p != A.top {
      StepOk(C, A, p);
      if p !in A.records { WalkEndBeyond(C, A, p + C[p].size); }
    }
  }

  ghost predicate Adjacent(C: Tiling, p: int, q: int)
    requires p in C && q in C
  {
    q == p + C[p].size && C[q].pinuse == C[p].cinuse && (C[p].cinuse || C[q].cinuse)
  }

  /** Two chunks met one after the other are never both free, and the second knows whether the first is in use. */
  lemma {:induction false} WalkFlags(C: Tiling, A: Arena, p: int, k: nat)
    requires Tiled(C, A) && OnTile(C, A, p) && k + 1 < |Walk(C, A, p)|
    ensures Walk(C, A, p)[k] in C && Walk(C, A, p)[k + 1] in C && Adjacent(C, Walk(C, A, p)[k], Walk(C, A, p)[k + 1])
    decreases k
  {
    StepOk(C, A, p);
    var n := p + C[p].size;
    if k > 0 {
      WalkFlags(C, A, n, k - 1);
    } else {
      assert TileOk(C, p, A);
      StepOk(C, A, n);
      assert TileOk(C, n, A);
    }
  }

  lemma {:induction false} WalkReaches(C: Tiling, A: Arena, h: int, q: int, p: int)
    requires Tiled(C, A) && OnTile(C, A, h) && q in Walk(C, A, h) && q in C && q !in A.records && p == q + C[q].size && p in C
    ensures p in Walk(C, A, h)
    decreases A.hi - h
  {
    StepOk(C, A, h);
    if h != q { WalkReaches(C, A, h + C[h].size, q, p); } else { StepOk(C, A, p); }
  }

  /** Every chunk of the heap is met on the walk from the head of some segment. */
  lemma {:induction false} WalkCovers(C: Tiling, A: Arena, p: int) returns (h: int)
    requires Tiled(C, A) && p in C
    ensures h in A.heads && OnTile(C, A, h) && p in Walk(C, A, h)
    decreases p - A.lo
  {
    assert TileOk(C, p, A);
    StepOk(C, A, p);
    if p in A.heads {
      h := p;
    } else {
      var q :| Meets(C, q, p);
      assert TileOk(C, q, A);
      h := WalkCovers(C, A, q);
      WalkReaches(C, A, h, q, p);
    }
  }
}
