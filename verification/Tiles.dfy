/** The boundary-tagged chunk sequences: how chunks tile the segments the system granted. */
module Tiles {
  import opened Memory

  type Tiling = map<int, Chunk>

  const MIN_CHUNK := 32
  const TOP_FOOT := 80

  /**
   * Where the heap lives. Every granted byte is in [lo, hi); heads are the first addresses of segments, records the
   * chunks that close a retired segment and hold its successor's list entry, and top is the open end of the newest one.
   */
  datatype Arena = Arena(lo: int, hi: int, top: int, topsize: int, heads: set<int>, records: set<int>, granted: set<int>)

  ghost predicate Owned(A: Arena, a: int, e: int) {
    forall w {:trigger w in A.granted} :: a <= w < e ==> w in A.granted
  }

  ghost predicate Meets(C: Tiling, q: int, p: int) {
    p in C && q in C && q + C[q].size == p && C[q].cinuse == C[p].pinuse
  }

  ghost predicate EndsAt(C: Tiling, q: int, a: int) { q in C && q + C[q].size == a && C[q].cinuse }

  /** A chunk starts a segment or starts where another ends, whose in-use bit its pinuse bit repeats. */
  ghost predicate Preceded(C: Tiling, A: Arena, p: int) {
    p in A.heads || exists q {:trigger Meets(C, q, p)} :: Meets(C, q, p)
  }

  ghost predicate TopPreceded(C: Tiling, A: Arena) {
    A.top in A.heads || exists q {:trigger EndsAt(C, q, A.top)} :: EndsAt(C, q, A.top)
  }

  ghost predicate ClearOfTop(A: Arena, p: int, e: int) { e <= A.top || A.top + A.topsize + TOP_FOOT <= p }

  ghost predicate TileOk(C: Tiling, p: int, A: Arena)
    requires p in C
  {
    var c, n := C[p], p + C[p].size;
    && A16(p) && A16(c.size) && c.size >= MIN_CHUNK
    && A.lo <= p && n + 16 <= A.hi
    && (c.cinuse || c.pinuse)
    && (p in A.records ==> c.cinuse && n in A.granted && n !in C && n != A.top)
    && (p !in A.records && n != A.top ==> n in C && C[n].pinuse == c.cinuse)
    && (n == A.top ==> c.cinuse)
    && n !in A.heads && ClearOfTop(A, p, n)
    && Preceded(C, A, p) && Owned(A, p, n)
  }

  ghost predicate Before(C: Tiling, p: int, q: int)
    requires p in C && q in C
  {
    p < q ==> p + C[p].size <= q
  }

  ghost predicate Starts(C: Tiling, A: Arena, h: int) { h == A.top || (h in C && C[h].pinuse) }

  ghost predicate TopOk(C: Tiling, A: Arena) {
    && A16(A.top) && A16(A.topsize) && A.topsize > 0 && 0 < A.lo <= A.top && A.top + A.topsize + TOP_FOOT <= A.hi
    && TopPreceded(C, A) && Owned(A, A.top, A.top + A.topsize + TOP_FOOT)
  }

  ghost predicate Tiled(C: Tiling, A: Arena) {
    && (forall p {:trigger TileOk(C, p, A)} :: p in C ==> TileOk(C, p, A))
    && (forall p, q {:trigger Before(C, p, q)} :: p in C && q in C ==> Before(C, p, q))
    && (forall h {:trigger Starts(C, A, h)} :: h in A.heads ==> Starts(C, A, h))
    && A.records <= C.Keys && TopOk(C, A)
  }

  /** Replace every chunk in [a, e) by one chunk with in-use flag u. */
  ghost function Rep1(C: Tiling, a: int, e: int, u: bool): Tiling
    requires a in C
  {
    map p | p in C && !(a < p < e) ::
      if p == a then Chunk(e - a, u, C[a].pinuse)
      else if p == e then C[p].(pinuse := u)
      else C[p]
  }

  /** Replace every chunk in [a, e) by an in-use chunk up to m and one with in-use flag v from there. */
  ghost function Rep2(C: Tiling, a: int, m: int, e: int, v: bool): Tiling
    requires a in C
  {
    map p | p in C.Keys + {m} && (p == m || !(a < p < e)) ::
      if p == m then Chunk(e - m, v, true)
      else if p == a then Chunk(m - a, true, C[a].pinuse)
      else if p == e then C[p].(pinuse := v)
      else C[p]
  }

  /** [a, e) is owned, clear of top, and no segment starts or is closed inside it. */
  ghost predicate Inner(A: Arena, a: int, e: int) {
    && Owned(A, a, e) && ClearOfTop(A, a, e) && e + 16 <= A.hi
    && (forall h {:trigger h in A.heads} :: h in A.heads ==> !(a < h <= e))
    && (forall r {:trigger r in A.records} :: r in A.records ==> !(a <= r < e))
  }

  /** e is a chunk boundary at or after the end of chunk a, in the same segment. */
  ghost predicate Boundary(C: Tiling, a: int, e: int, A: Arena) {
    a in C && a + C[a].size <= e && (e == A.top || e in C) && Inner(A, a, e)
  }

  /** A chunk that closes no segment is bounded by the next chunk or top. */
  lemma Solo(C: Tiling, p: int, A: Arena)
    requires Tiled(C, A) && p in C && p !in A.records
    ensures Boundary(C, p, p + C[p].size, A)
  {
    hide A16;
    assert TileOk(C, p, A);
    var n := p + C[p].size;
    forall h | h in A.heads ensures !(p < h <= n) {
      assert Starts(C, A, h);
      if h in C && p < h { assert Before(C, p, h); }
    }
    forall r | r in A.records ensures !(p <= r < n) {
      if p < r { assert Before(C, p, r); }
    }
  }

  lemma InnerJoin(A: Arena, a: int, b: int, e: int)
    requires Inner(A, a, b) && Inner(A, b, e) && a < b < e && A.topsize > 0
    ensures Inner(A, a, e)
  {
  }

  // ---------------------------------------------------------------- re-tiling keeps the tiling

  lemma Rep1Preceded(C: Tiling, a: int, e: int, u: bool, A: Arena, p: int)
    requires Tiled(C, A) && Boundary(C, a, e, A) && p in Rep1(C, a, e, u)
    ensures Preceded(Rep1(C, a, e, u), A, p)
  {
    hide A16;
    var D := Rep1(C, a, e, u);
    assert TileOk(C, p, A) && TileOk(C, a, A);
    if p == e {
      assert Meets(D, a, p);
    } else if p !in A.heads {
      var q :| Meets(C, q, p);
      assert TileOk(C, q, A);
      assert Before(C, a, q) && (e in C ==> Before(C, q, e));
      assert Meets(D, q, p);
    }
  }

  lemma Rep1TileOk(C: Tiling, a: int, e: int, u: bool, A: Arena, p: int)
    requires Tiled(C, A) && Boundary(C, a, e, A)
    requires u || (C[a].pinuse && e in C && C[e].cinuse)
    requires p in Rep1(C, a, e, u)
    ensures TileOk(Rep1(C, a, e, u), p, A)
  {
    hide Preceded, A16;
    Rep1Preceded(C, a, e, u, A, p);
    assert TileOk(C, p, A) && TileOk(C, a, A);
    assert e in C ==> TileOk(C, e, A);
    Diff16(e, a);
    if p < a {
      assert Before(C, p, a);
    } else if p == a {
    } else {
      assert Before(C, a, p);
    }
  }

  lemma Rep1Before(C: Tiling, a: int, e: int, u: bool, A: Arena, p: int, q: int)
    requires Tiled(C, A) && Boundary(C, a, e, A)
    requires p in Rep1(C, a, e, u) && q in Rep1(C, a, e, u)
    ensures Before(Rep1(C, a, e, u), p, q)
  {
    assert Before(C, p, q);
  }

  lemma Rep1Top(C: Tiling, a: int, e: int, u: bool, A: Arena)
    requires Tiled(C, A) && Boundary(C, a, e, A) && (u || e in C)
    ensures TopPreceded(Rep1(C, a, e, u), A)
  {
    hide A16;
    var D := Rep1(C, a, e, u);
    if A.top !in A.heads {
      var q :| EndsAt(C, q, A.top);
      if e == A.top && u {
        assert EndsAt(D, a, A.top);
      } else {
        assert TileOk(C, q, A) && TileOk(C, a, A);
        if e in C { assert TileOk(C, e, A) && Before(C, q, e); }
        if a <= q { assert Before(C, a, q); }
        assert EndsAt(D, q, A.top);
      }
    }
  }

  lemma Rep1Tiled(C: Tiling, a: int, e: int, u: bool, A: Arena)
    requires Tiled(C, A) && Boundary(C, a, e, A)
    requires u || (C[a].pinuse && e in C && C[e].cinuse)
    ensures Tiled(Rep1(C, a, e, u), A)
  {
    assert a < e by { assert TileOk(C, a, A); }
    hide TileOk, Preceded, TopPreceded, A16;
    var D := Rep1(C, a, e, u);
    forall p | p in D ensures TileOk(D, p, A) { Rep1TileOk(C, a, e, u, A, p); }
    forall p, q | p in D && q in D ensures Before(D, p, q) { Rep1Before(C, a, e, u, A, p, q); }
    forall h | h in A.heads ensures Starts(D, A, h) { assert Starts(C, A, h); }
    Rep1Top(C, a, e, u, A);
  }

  lemma Rep2Preceded(C: Tiling, a: int, m: int, e: int, v: bool, A: Arena, p: int)
    requires Tiled(C, A) && Boundary(C, a, e, A) && a + MIN_CHUNK <= m && m + MIN_CHUNK <= e
    requires p in Rep2(C, a, m, e, v)
    ensures Preceded(Rep2(C, a, m, e, v), A, p)
  {
    hide A16;
    var D := Rep2(C, a, m, e, v);
    assert TileOk(C, a, A);
    if p == m {
      assert Meets(D, a, p);
    } else if p == e {
      assert Meets(D, m, p);
    } else if p !in A.heads {
      assert TileOk(C, p, A);
      var q :| Meets(C, q, p);
      assert TileOk(C, q, A);
      assert Before(C, a, q) && (e in C ==> Before(C, q, e));
      assert Meets(D, q, p);
    }
  }

  lemma Rep2TileOk(C: Tiling, a: int, m: int, e: int, v: bool, A: Arena, p: int)
    requires Tiled(C, A) && Boundary(C, a, e, A)
    requires A16(m) && a + MIN_CHUNK <= m && m + MIN_CHUNK <= e
    requires v || (e in C && C[e].cinuse)
    requires p in Rep2(C, a, m, e, v)
    ensures TileOk(Rep2(C, a, m, e, v), p, A)
  {
    hide Preceded, A16;
    Rep2Preceded(C, a, m, e, v, A, p);
    assert TileOk(C, a, A) && (e in C ==> TileOk(C, e, A));
    Diff16(m, a);
    Diff16(e, m);
    if p != m && p != a {
      assert TileOk(C, p, A);
      if p < a {
        assert Before(C, p, a);
      } else {
        assert Before(C, a, p);
      }
    }
  }

  lemma Rep2Before(C: Tiling, a: int, m: int, e: int, v: bool, A: Arena, p: int, q: int)
    requires Tiled(C, A) && Boundary(C, a, e, A)
    requires a < m < e
    requires p in Rep2(C, a, m, e, v) && q in Rep2(C, a, m, e, v)
    ensures Before(Rep2(C, a, m, e, v), p, q)
  {
    if p == m || q == m {
      var o := if p == m then q else p;
      if o != m { assert Before(C, o, a); assert Before(C, a, o); }
    } else {
      assert Before(C, p, q);
    }
  }

  lemma Rep2Top(C: Tiling, a: int, m: int, e: int, v: bool, A: Arena)
    requires Tiled(C, A) && Boundary(C, a, e, A) && a < m < e && (v || e in C)
    ensures TopPreceded(Rep2(C, a, m, e, v), A)
  {
    hide A16;
    var D := Rep2(C, a, m, e, v);
    if A.top !in A.heads {
      var q :| EndsAt(C, q, A.top);
      if e == A.top && v {
        assert EndsAt(D, m, A.top);
      } else {
        assert TileOk(C, q, A) && TileOk(C, a, A);
        if e in C { assert TileOk(C, e, A) && Before(C, q, e); }
        if a <= q { assert Before(C, a, q); }
        assert EndsAt(D, q, A.top);
      }
    }
  }

  lemma Rep2Tiled(C: Tiling, a: int, m: int, e: int, v: bool, A: Arena)
    requires Tiled(C, A) && Boundary(C, a, e, A)
    requires A16(m) && a + MIN_CHUNK <= m && m + MIN_CHUNK <= e
    requires v || (e in C && C[e].cinuse)
    ensures Tiled(Rep2(C, a, m, e, v), A)
  {
    hide TileOk, Preceded, TopPreceded, A16;
    var D := Rep2(C, a, m, e, v);
    forall p | p in D ensures TileOk(D, p, A) { Rep2TileOk(C, a, m, e, v, A, p); }
    forall p, q | p in D && q in D ensures Before(D, p, q) { Rep2Before(C, a, m, e, v, A, p, q); }
    forall h | h in A.heads ensures Starts(D, A, h) { assert Starts(C, A, h); }
    Rep2Top(C, a, m, e, v, A);
  }

  // ---------------------------------------------------------------- neighbours

  /** A clear pinuse bit means a free chunk ends here. */
  lemma Predecessor(C: Tiling, p: int, A: Arena) returns (q: int)
    requires Tiled(C, A) && p in C && !C[p].pinuse
    ensures q in C && q + C[q].size == p && !C[q].cinuse && q !in A.records
  {
    hide A16;
    assert TileOk(C, p, A);
    assert p in A.heads ==> Starts(C, A, p);
    q :| Meets(C, q, p);
    assert TileOk(C, q, A);
  }

  // ---------------------------------------------------------------- moving top

  /** Give every chunk from a on to top. */
  ghost function CutAt(C: Tiling, a: int, top: int): Tiling { map p | p in C && !(a <= p < top) :: C[p] }

  ghost function CutArena(A: Arena, a: int): Arena { A.(top := a, topsize := A.topsize + (A.top - a)) }

  lemma CutTileOk(C: Tiling, a: int, A: Arena, p: int)
    requires Tiled(C, A) && Boundary(C, a, A.top, A) && C[a].pinuse && p in CutAt(C, a, A.top)
    ensures TileOk(CutAt(C, a, A.top), p, CutArena(A, a))
  {
    hide A16;
    var D, A' := CutAt(C, a, A.top), CutArena(A, a);
    assert TileOk(C, p, A) && TileOk(C, a, A);
    assert Before(C, p, a);
    if p !in A.heads {
      var q :| Meets(C, q, p);
      assert TileOk(C, q, A);
      assert Meets(D, q, p);
    }
    var n := p + C[p].size;
    if p !in A.records && n != A.top {
      assert a < n < A.top ==> Before(C, p, a);
      if n != a { assert TileOk(C, n, A); assert n in D; }
    }
    assert Owned(A', p, n) by { assert Owned(A, p, n); }
  }

  lemma CutTop(C: Tiling, a: int, A: Arena)
    requires Tiled(C, A) && Boundary(C, a, A.top, A) && C[a].pinuse
    ensures TopOk(CutAt(C, a, A.top), CutArena(A, a))
  {
    hide A16;
    assert TileOk(C, a, A);
    Mod16(A.topsize, A.top, a);
    if a !in A.heads {
      var q :| Meets(C, q, a);
      assert TileOk(C, q, A);
      assert EndsAt(CutAt(C, a, A.top), q, a);
    }
  }

  lemma CutTiled(C: Tiling, a: int, A: Arena)
    requires Tiled(C, A) && Boundary(C, a, A.top, A) && C[a].pinuse
    ensures Tiled(CutAt(C, a, A.top), CutArena(A, a))
  {
    CutTop(C, a, A);
    assert a < A.top by { assert TileOk(C, a, A); }
    hide TileOk, TopOk;
    var D, A' := CutAt(C, a, A.top), CutArena(A, a);
    forall p | p in D ensures TileOk(D, p, A') { CutTileOk(C, a, A, p); }
    forall p, q | p in D && q in D ensures Before(D, p, q) { assert Before(C, p, q); }
    forall h | h in A.heads ensures Starts(D, A', h) { assert Starts(C, A, h); }
  }

  /** The last chunk, or a new one carved off the old top, now ends at a new top. */
  ghost function EndAt(C: Tiling, a: int, top': int, pinuse: bool): Tiling { C[a := Chunk(top' - a, true, pinuse)] }

  ghost function EndArena(A: Arena, top': int): Arena { A.(top := top', topsize := A.top + A.topsize - top') }

  /** a is top itself, or an in-use chunk that ends there. */
  ghost predicate AtTop(C: Tiling, A: Arena, a: int, pinuse: bool) {
    if a == A.top then pinuse else a in C && C[a].cinuse && a + C[a].size == A.top && a !in A.records && pinuse == C[a].pinuse
  }

  lemma EndTileOk(C: Tiling, a: int, A: Arena, top': int, pinuse: bool, p: int)
    requires Tiled(C, A) && A16(top') && A.top < top' < A.top + A.topsize && a + MIN_CHUNK <= top'
    requires AtTop(C, A, a, pinuse) && p in EndAt(C, a, top', pinuse)
    ensures TileOk(EndAt(C, a, top', pinuse), p, EndArena(A, top'))
  {
    hide A16;
    var D, A' := EndAt(C, a, top', pinuse), EndArena(A, top');
    assert a in C ==> TileOk(C, a, A);
    Diff16(top', a);
    forall h | h in A.heads ensures h != top' {
      assert Starts(C, A, h);
      if h in C { assert TileOk(C, h, A); }
    }
    if p != a {
      assert TileOk(C, p, A);
      if a in C { assert Before(C, p, a); assert Before(C, a, p); }
      if p !in A.heads {
        var q :| Meets(C, q, p);
        assert TileOk(C, q, A);
        assert Meets(D, q, p);
      }
    } else {
      assert Owned(A', a, top');
      if a !in A.heads {
        if a == A.top {
          var q :| EndsAt(C, q, a);
          assert Meets(D, q, a);
        } else {
          var q :| Meets(C, q, a);
          assert TileOk(C, q, A);
          assert Meets(D, q, a);
        }
      }
    }
  }

  lemma EndTiled(C: Tiling, a: int, A: Arena, top': int, pinuse: bool)
    requires Tiled(C, A) && A16(top') && A.top < top' < A.top + A.topsize && a + MIN_CHUNK <= top'
    requires AtTop(C, A, a, pinuse)
    ensures Tiled(EndAt(C, a, top', pinuse), EndArena(A, top'))
  {
    assert a != A.top ==> A.top !in A.heads by { if a != A.top { assert TileOk(C, a, A); } }
    EndTop(C, a, A, top', pinuse);
    hide TileOk, Preceded, TopOk, Before;
    var D, A' := EndAt(C, a, top', pinuse), EndArena(A, top');
    forall p | p in D ensures TileOk(D, p, A') { EndTileOk(C, a, A, top', pinuse, p); }
    forall p, q | p in D && q in D ensures Before(D, p, q) { EndBefore(C, a, A, top', pinuse, p, q); }
    forall h | h in A.heads ensures Starts(D, A', h) { assert Starts(C, A, h); }
  }

  lemma EndTop(C: Tiling, a: int, A: Arena, top': int, pinuse: bool)
    requires TopOk(C, A) && A16(top') && A.top < top' < A.top + A.topsize
    ensures TopOk(EndAt(C, a, top', pinuse), EndArena(A, top'))
  {
    hide A16;
    Mod16(A.top, A.topsize, top');
    assert EndsAt(EndAt(C, a, top', pinuse), a, top');
  }

  lemma EndBefore(C: Tiling, a: int, A: Arena, top': int, pinuse: bool, p: int, q: int)
    requires Tiled(C, A) && A.top < top' < A.top + A.topsize && AtTop(C, A, a, pinuse)
    requires p in EndAt(C, a, top', pinuse) && q in EndAt(C, a, top', pinuse)
    ensures Before(EndAt(C, a, top', pinuse), p, q)
  {
    hide A16;
    hide Preceded;
    if a in C { assert TileOk(C, a, A); }
    if p != a && q != a { assert Before(C, p, q); }
    else if p != a {
      assert TileOk(C, p, A);
      if a in C { assert Before(C, p, a); }
    } else if q != a {
      assert TileOk(C, q, A);
      if a in C { assert Before(C, a, q); }
    }
  }

  // ---------------------------------------------------------------- memory granted by the system

  /** Bytes the system never granted before, inside the arena's bounds. */
  ghost predicate NewGrant(A: Arena, br: int, n: int) {
    && A16(br) && A16(n) && n > 0 && A.lo <= br && br + n <= A.hi
    && forall w {:trigger w in A.granted} :: br <= w < br + n ==> w !in A.granted
  }

  ghost predicate InBytes(w: int, br: int, n: int) { br <= w < br + n }

  ghost function Bytes(br: int, n: int): set<int> { set w | br <= w < br + n && InBytes(w, br, n) }

  lemma {:induction false} ByteCount(br: int, n: int)
    requires n >= 0
    ensures |Bytes(br, n)| == n
    decreases n
  {
    if n == 0 {
      assert Bytes(br, n) == {};
    } else {
      ByteCount(br, n - 1);
      assert Bytes(br, n) == Bytes(br, n - 1) + {br + n - 1} by {
        forall w ensures w in Bytes(br, n) <==> w in Bytes(br, n - 1) + {br + n - 1} { assert InBytes(w, br, n) <==> InBytes(w, br, n - 1) || w == br + n - 1; }
      }
    }
  }

  /** What a chunk owns, the byte after it included, lies on one side of a new grant. */
  lemma OneSide(C: Tiling, p: int, A: Arena, br: int, n: int)
    requires Tiled(C, A) && p in C && NewGrant(A, br, n)
    ensures var e := p + C[p].size; p < e && e in A.granted && (e < br || br + n <= p)
  {
    hide A16;
    hide Preceded;
    assert TileOk(C, p, A);
    var e := p + C[p].size;
    if p !in A.records && e != A.top { assert TileOk(C, e, A); }
    assert p < br <= e ==> br in A.granted;
    assert br <= p < br + n ==> p in A.granted;
  }

  lemma TopOneSide(C: Tiling, A: Arena, br: int, n: int)
    requires TopOk(C, A) && NewGrant(A, br, n)
    ensures A.top + A.topsize + TOP_FOOT <= br || br + n <= A.top
  {
    assert A.top <= br < A.top + A.topsize + TOP_FOOT ==> br in A.granted;
    assert br <= A.top < br + n ==> A.top in A.granted;
  }

  /** A grant right behind top extends it. */
  ghost function GrowArena(A: Arena, n: int): Arena {
    A.(topsize := A.topsize + n, granted := A.granted + Bytes(A.top + A.topsize + TOP_FOOT, n))
  }

  lemma GrowTileOk(C: Tiling, A: Arena, n: int, p: int)
    requires Tiled(C, A) && NewGrant(A, A.top + A.topsize + TOP_FOOT, n) && p in C
    ensures TileOk(C, p, GrowArena(A, n))
  {
    hide A16;
    OneSide(C, p, A, A.top + A.topsize + TOP_FOOT, n);
    assert TileOk(C, p, A);
  }

  lemma GrowTiled(C: Tiling, A: Arena, n: int)
    requires Tiled(C, A) && NewGrant(A, A.top + A.topsize + TOP_FOOT, n)
    ensures Tiled(C, GrowArena(A, n))
  {
    Diff16(A.topsize, n);
    hide TileOk, Before, A16;
    var A' := GrowArena(A, n);
    forall p | p in C ensures TileOk(C, p, A') { GrowTileOk(C, A, n, p); }
    forall h | h in A.heads ensures Starts(C, A', h) { assert Starts(C, A, h); }
    assert TopPreceded(C, A') by { assert TopPreceded(C, A); }
  }

  /** A segment extended downward by an in-use chunk over the whole grant. */
  ghost function Prepended(C: Tiling, br: int, n: int): Tiling { C[br := Chunk(n, true, true)] }

  ghost function PrependArena(A: Arena, br: int, n: int): Arena {
    A.(heads := A.heads - {br + n} + {br}, granted := A.granted + Bytes(br, n))
  }

  lemma PrependTileOk(C: Tiling, A: Arena, br: int, n: int, p: int)
    requires Tiled(C, A) && NewGrant(A, br, n) && n >= MIN_CHUNK && br + n in A.heads && br + n + 16 <= A.hi && p in Prepended(C, br, n)
    ensures TileOk(Prepended(C, br, n), p, PrependArena(A, br, n))
  {
    hide A16;
    var D, A' := Prepended(C, br, n), PrependArena(A, br, n);
    var h := br + n;
    assert Starts(C, A, h);
    TopOneSide(C, A, br, n);
    Diff16(br, n);
    if h in C { OneSide(C, h, A, br, n); }
    if br in C { OneSide(C, br, A, br, n); }
    if p == br {
      assert Owned(A', br, h);
    } else {
      assert TileOk(C, p, A);
      OneSide(C, p, A, br, n);
      if p == h {
        assert Meets(D, br, p);
      } else if p !in A.heads {
        var q :| Meets(C, q, p);
        assert Meets(D, q, p);
      }
    }
  }

  lemma PrependTiled(C: Tiling, A: Arena, br: int, n: int)
    requires Tiled(C, A) && NewGrant(A, br, n) && n >= MIN_CHUNK && br + n in A.heads && br + n + 16 <= A.hi
    ensures Tiled(Prepended(C, br, n), PrependArena(A, br, n)) && br !in C
  {
    hide A16;
    hide TileOk;
    var D, A' := Prepended(C, br, n), PrependArena(A, br, n);
    if br in C { OneSide(C, br, A, br, n); }
    forall p | p in D ensures TileOk(D, p, A') { PrependTileOk(C, A, br, n, p); }
    forall p, q | p in D && q in D ensures Before(D, p, q) {
      if p != br && q != br { assert Before(C, p, q); }
      else if p != br { OneSide(C, p, A, br, n); }
      else if q != br { OneSide(C, q, A, br, n); }
    }
    forall h | h in A'.heads ensures Starts(D, A', h) { if h != br { assert Starts(C, A, h); } }
    if A.top == br + n {
      assert EndsAt(D, br, A.top);
    } else if A.top !in A.heads {
      var q :| EndsAt(C, q, A.top);
      assert EndsAt(D, q, A.top);
    }
  }

  /** The old top retired: what is left of it free, then the record at csp; top moves to the grant. */
  ghost function Closed(C: Tiling, top: int, csp: int): Tiling {
    if csp == top then C[csp := Chunk(48, true, true)]
    else C[top := Chunk(csp - top, false, true)][csp := Chunk(48, true, false)]
  }

  lemma ClosedFacts(C: Tiling, top: int, csp: int)
    ensures var D := Closed(C, top, csp);
            && csp in D && D[csp].cinuse && D[csp].size == 48
            && (csp != top ==> top in D && !D[top].cinuse && D[top].size == csp - top)
            && (forall p {:trigger p in D} {:trigger D[p]} :: p in C && p != top && p != csp ==> p in D && D[p] == C[p])
            && (forall p {:trigger p in D} :: p in D ==> p in C || p == top || p == csp)
  {
  }

  ghost function CloseArena(A: Arena, csp: int, br: int, n: int): Arena {
    A.(top := br, topsize := n - TOP_FOOT, heads := A.heads + {br}, records := A.records + {csp}, granted := A.granted + Bytes(br, n))
  }

  ghost predicate Closing(C: Tiling, A: Arena, csp: int, br: int, n: int) {
    && Tiled(C, A) && NewGrant(A, br, n) && n > TOP_FOOT
    && A16(csp) && (csp == A.top || A.top + MIN_CHUNK <= csp) && csp + 80 <= A.top + A.topsize + TOP_FOOT
  }

  lemma CloseOld(C: Tiling, A: Arena, csp: int, br: int, n: int, p: int)
    requires Closing(C, A, csp, br, n) && p in C
    ensures p in Closed(C, A.top, csp) && p != A.top && p != csp && TileOk(Closed(C, A.top, csp), p, CloseArena(A, csp, br, n))
  {
    hide A16;
    var D := Closed(C, A.top, csp);
    assert TileOk(C, p, A);
    OneSide(C, p, A, br, n);
    if p !in A.heads {
      var q :| Meets(C, q, p);
      assert TileOk(C, q, A);
      assert Meets(D, q, p);
    }
  }

  lemma CloseNew(C: Tiling, A: Arena, csp: int, br: int, n: int, p: int)
    requires Closing(C, A, csp, br, n) && (p == A.top || p == csp)
    ensures p in Closed(C, A.top, csp) && TileOk(Closed(C, A.top, csp), p, CloseArena(A, csp, br, n))
  {
    assert A16(48);
    Diff16(csp, A.top);
    hide A16;
    var D, A' := Closed(C, A.top, csp), CloseArena(A, csp, br, n);
    TopOneSide(C, A, br, n);
    CloseHeads(C, A, csp, br, n);
    assert A.top in C ==> TileOk(C, A.top, A);
    if csp + 48 in C { assert TileOk(C, csp + 48, A); }
    if csp != A.top { assert Meets(D, A.top, csp); }
    if p == A.top && A.top !in A.heads {
      var q :| EndsAt(C, q, A.top);
      assert TileOk(C, q, A);
      assert Meets(D, q, p);
    }
    assert Owned(A', p, p + D[p].size + 1);
  }

  lemma CloseHeads(C: Tiling, A: Arena, csp: int, br: int, n: int)
    requires Closing(C, A, csp, br, n)
    ensures forall h {:trigger h in A.heads} :: h in A.heads + {br} ==> !(A.top < h <= csp + 48)
  {
    hide A16;
    TopOneSide(C, A, br, n);
    forall h | h in A.heads + {br} ensures !(A.top < h <= csp + 48) {
      if h != br {
        assert Starts(C, A, h);
        if h in C { assert TileOk(C, h, A); }
      }
    }
  }

  lemma CloseBefore(C: Tiling, A: Arena, csp: int, br: int, n: int, p: int, q: int)
    requires Closing(C, A, csp, br, n) && p in Closed(C, A.top, csp) && q in Closed(C, A.top, csp)
    ensures Before(Closed(C, A.top, csp), p, q)
  {
    hide A16;
    hide Preceded;
    if p in C && q in C { assert Before(C, p, q); }
    if p in C { assert TileOk(C, p, A); }
    if q in C { assert TileOk(C, q, A); }
  }

  lemma CloseTop(C: Tiling, A: Arena, csp: int, br: int, n: int)
    requires Closing(C, A, csp, br, n)
    ensures TopOk(Closed(C, A.top, csp), CloseArena(A, csp, br, n))
  {
    assert A16(0) && A16(TOP_FOOT);
    hide A16;
    Mod16(n, 0, TOP_FOOT);
  }

  lemma CloseTiled(C: Tiling, A: Arena, csp: int, br: int, n: int)
    requires Closing(C, A, csp, br, n)
    ensures Tiled(Closed(C, A.top, csp), CloseArena(A, csp, br, n))
  {
    CloseTop(C, A, csp, br, n);
    ClosedFacts(C, A.top, csp);
    hide TileOk, TopOk, Before, Closed;
    var D, A' := Closed(C, A.top, csp), CloseArena(A, csp, br, n);
    forall p | p in D ensures TileOk(D, p, A') {
      if p == A.top || p == csp { CloseNew(C, A, csp, br, n, p); } else { CloseOld(C, A, csp, br, n, p); }
    }
    forall p, q | p in D && q in D ensures Before(D, p, q) { CloseBefore(C, A, csp, br, n, p, q); }
    forall h | h in A'.heads ensures Starts(D, A', h) {
      if h != br {
        assert Starts(C, A, h);
        if h in C { CloseOld(C, A, csp, br, n, h); }
      }
    }
  }

  /** A lower bound on addresses may be lowered. */
  lemma LowerTiled(C: Tiling, A: Arena, lo: int)
    requires Tiled(C, A) && 0 < lo <= A.lo
    ensures Tiled(C, A.(lo := lo))
  {
    hide A16;
    var A' := A.(lo := lo);
    forall p | p in C ensures TileOk(C, p, A') {
      assert TileOk(C, p, A);
      assert Preceded(C, A', p) by { assert Preceded(C, A, p); }
    }
    forall h | h in A.heads ensures Starts(C, A', h) { assert Starts(C, A, h); }
    assert TopPreceded(C, A') by { assert TopPreceded(C, A); }
  }
}
