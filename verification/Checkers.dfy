/** The debug checkers of malloc.c as code: in a valid heap none of their assertions can fail. */
module Checkers {
  import opened Memory
  import opened Tiles
  import opened Bitmap
  import opened SizeClass
  import opened Trie
  import opened Rings
  import opened SmallBins
  import opened TreeShape
  import opened TreeBins
  import opened TreeUnlink
  import opened TreeSearch
  import opened FreeIndex
  import opened Tags
  import opened HeapCore
  import opened Segments
  import opened Traversal
  import opened Heap
  import opened HeapRuns

  // ---------------------------------------------------------------- bin_find

  /** The do loop along fd links: does the ring hold x? */
  method RingHolds(m: Mem, start: int, x: int, ghost r: seq<int>) returns (found: bool)
    requires Ring(m, r) && r[0] == start
    ensures found <==> x in r
  {
    var p := start;
    ghost var k := 0;
    while true
      invariant 0 <= k < |r| && p == r[k] && x !in r[..k]
      decreases |r| - k
    {
      assert r[..k + 1] == r[..k] + [r[k]];
      if p == x { return true; }
      assert Hop(m, r, k);
      p := Fd(m, p);
      if p == start {
        StartOnce(m, r, k);
        assert r[..k + 1] == r;
        return false;
      }
      k := k + 1;
    }
  }

  /** Following fd from element k leads back to the start only from the last element. */
  lemma StartOnce(m: Mem, r: seq<int>, k: nat)
    requires Ring(m, r) && k < |r| && Next(r, k) == r[0]
    ensures k + 1 == |r|
  {
    if k + 1 < |r| { assert Apart(r[0], r[k + 1]); }
  }

  /** The search loop of bin_find: the trie node of size s, or 0 exactly when no chunk of that size is stored. */
  method FindNode(m: Mem, gm: int, s: int, ghost x: Index, ghost lo: int, ghost hi: int) returns (t: int)
    requires IndexOk(m, x, gm, lo, hi) && Sized(m, x.B) && 256 <= s < MAX_SIZE
    ensures if s in x.t.depth then s in x.t.node && t == x.t.node[s] && t != 0 else t == 0
  {
    hide TreeIndex, Key, SmallOk, NodeOk, RootOk, Vacant, Placed, ChainsOk, ChunkSize, ShapeOk;
    var i := TreeIndex(s);
    t := Rd(m, TreeBin(gm, i));
    var k := Key(s, i);
    RootWord(m, x.t, x.B, gm, lo, hi, i);
    StartDescent(m, x.t, x.B, gm, s);
    if t == 0 {
      NotVacant(x.t, s, 0);
      return;
    }
    ghost var c := x.t.pos[Slot(i, 1)];
    while t != 0 && ChunkSize(Rd(m, t + 8)) != s
      invariant t == 0 ==> s !in x.t.depth
      invariant t != 0 ==> Descends(x.t, s, c) && c in x.t.node && t == x.t.node[c] && k == ShlN(SizeKey(s), x.t.depth[c])
      decreases if t == 0 then 0 else 1, if t == 0 then 0 else 64 - (x.t.depth[c] as int)
    {
      NodeReads(m, x, gm, lo, hi, c);
      DescentStep(m, x.t, x.B, gm, s, c);
      var b := TopBit(k);
      ChildWord(m, x.t, x.B, gm, lo, hi, c, b);
      t := Child(m, t, b);
      k := Trie.Shl(k);
      if t == 0 { NotVacant(x.t, s, x.t.depth[c] + 1); } else { c := ChildSize(x.t, c, b); }
    }
    if t != 0 { NodeReads(m, x, gm, lo, hi, c); }
  }

  lemma NotVacant(t: Shape, s: int, d: nat)
    requires Vacant(t, s, d)
    ensures s !in t.depth
  {
  }

  /** Everything the checkers read: memory and malloc_state, with the abstract state they are checked against. */
  ghost predicate Sound(m: Mem, sm: Word32, tm: Word32, gm: int, x: Index, C: Tiling, ex: set<int>, A: Arena) {
    Core(m, x, C, ex, A, gm) && x.sm == sm && x.tm == tm && A.hi - A.lo <= MAX_SIZE
  }

  /** The size of a chunk or of top. */
  ghost function SizeAt(C: Tiling, A: Arena, p: int): int { if p in C then C[p].size else A.topsize }

  /** bin_find, for any chunk and for top: true exactly for the chunks the bins hold. */
  method BinFind(m: Mem, sm: Word32, tm: Word32, gm: int, p: int, ghost x: Index, ghost C: Tiling, ghost ex: set<int>, ghost A: Arena) returns (found: bool)
    requires Sound(m, sm, tm, gm, x, C, ex, A) && (p in C || p == A.top)
    ensures found <==> p in x.B
  {
    hide TreeIndex, Key, Tiled, Tagged, Fenced, IndexOk, FreeExcept, ChunkSize, A16, SizeAt;
    SizeReads(m, x, C, ex, A, gm, p);
    CoreSized(m, x, C, ex, A, gm);
    var size := ChunkSize(Rd(m, p + 8));
    found := false;
    if size < 256 {
      var i := size / 8;
      SmallHolds(m, x, C, ex, A, gm, p, i);
      if sm[i] { found := RingHolds(m, Header(gm, i), p, [Header(gm, i)] + x.bins[i]); }
    } else {
      var i := TreeIndex(size);
      LargeHolds(m, x, C, ex, A, gm, p);
      if tm[i] {
        var t := FindNode(m, gm, size, x, A.lo, A.hi);
        if t != 0 { found := RingHolds(m, t, p, x.ch[size]); }
      }
    }
  }

  /** The size bin_find reads at a chunk or at top. */
  lemma SizeReads(m: Mem, x: Index, C: Tiling, ex: set<int>, A: Arena, gm: int, p: int)
    requires Core(m, x, C, ex, A, gm) && A.hi - A.lo <= MAX_SIZE && (p in C || p == A.top)
    ensures ChunkSize(Rd(m, p + 8)) == SizeAt(C, A, p) && 0 < SizeAt(C, A, p) < MAX_SIZE
  {
    hide IndexOk, Tagged, Fenced;
    if p in C { ChunkFacts(m, x, C, ex, A, gm, p); } else { HeadDecodes(Chunk(A.topsize, false, true)); }
  }

  /** What the head word of a chunk says, and where the chunk lies. */
  lemma ChunkFacts(m: Mem, x: Index, C: Tiling, ex: set<int>, A: Arena, gm: int, p: int)
    requires Core(m, x, C, ex, A, gm) && p in C && A.hi - A.lo <= MAX_SIZE
    ensures A16(p) && A16(C[p].size) && 32 <= C[p].size < MAX_SIZE && A.lo <= p && p + C[p].size + 16 <= A.hi && 0 < A.lo
    ensures Rd(m, p + 8) == HeadWord(C[p]) && ChunkSize(Rd(m, p + 8)) == C[p].size
    ensures CInuse(Rd(m, p + 8)) == C[p].cinuse && PInuse(Rd(m, p + 8)) == C[p].pinuse && (C[p].cinuse || C[p].pinuse)
  {
    hide IndexOk, Preceded, Owned;
    assert TileOk(C, p, A) && TagAt(m, C, p);
    HeadDecodes(C[p]);
  }

  lemma SmallHolds(m: Mem, x: Index, C: Tiling, ex: set<int>, A: Arena, gm: int, p: int, i: int)
    requires Core(m, x, C, ex, A, gm) && (p in C || p == A.top) && 0 <= SizeAt(C, A, p) < 256 && i == SizeAt(C, A, p) / 8
    ensures 0 <= i < 32 && |x.bins| == 32 && (p in x.B <==> p in x.bins[i]) && p != Header(gm, i)
    ensures x.sm[i] <==> x.bins[i] != []
    ensures x.sm[i] ==> Ring(m, [Header(gm, i)] + x.bins[i])
  {
    hide TreeOk, Tagged, Fenced, Preceded, Owned;
    assert BinOk(m, x.sm, x.bins, x.B, gm, i);
    if p in C { assert TileOk(C, p, A); }
    if p in x.B { assert Binned(x.bins, x.B, p); }
  }

  lemma LargeHolds(m: Mem, x: Index, C: Tiling, ex: set<int>, A: Arena, gm: int, p: int)
    requires Core(m, x, C, ex, A, gm) && (p in C || p == A.top) && 256 <= SizeAt(C, A, p) < MAX_SIZE
    ensures var s := SizeAt(C, A, p);
            && (p in x.B ==> s in x.t.depth && x.tm[TreeIndex(s)])
            && (s in x.t.depth ==> s in x.ch && s in x.t.node && Ring(m, x.ch[s]) && x.ch[s][0] == x.t.node[s] && (p in x.B <==> p in x.ch[s]))
  {
    hide TreeIndex, Key, Tiled, Tagged, Fenced, SmallOk, Placed;
    var s := SizeAt(C, A, p);
    if p in x.B {
      assert Chained(x.ch, x.B, p);
      assert HeadOk(x.t, x.ch, s);
      BelowRoot(m, x.t, x.B, gm, s);
      assert Mapped(x.tm, x.t, TreeIndex(s));
    }
    if s in x.t.depth {
      assert HeadOk(x.t, x.ch, s) && ChainOk(m, x.ch, x.B, s);
      if p in x.ch[s] {
        var k :| 0 <= k < |x.ch[s]| && x.ch[s][k] == p;
        assert Member(m, x.B, s, x.ch[s][k], k);
      }
    }
  }

  // ---------------------------------------------------------------- single chunks

  /** is_inuse: not marked free behind a chunk in use. */
  predicate IsInuse(head: int) { head % 4 != 1 }

  predicate IsMmapped(head: int) { head % 4 == 0 }

  /** p->fd->bk == p and p->bk->fd == p. */
  predicate LinksAgree(m: Mem, p: int) { Bk(m, Fd(m, p)) == p && Fd(m, Bk(m, p)) == p }

  /** The assertions of do_check_any_chunk. */
  predicate AnyChunkOk(m: Mem, least: int, p: int) { ((p + 16) % 16 == 0 || Rd(m, p + 8) == FENCEPOST_HEAD) && p >= least }

  /** The assertions of do_check_inuse_chunk; none is mapped, so do_check_mmapped_chunk is never called. */
  predicate InuseChunkOk(m: Mem, least: int, p: int) {
    var head, prev := Rd(m, p + 8), p - Rd(m, p);
    && AnyChunkOk(m, least, p) && IsInuse(head) && PInuse(Rd(m, p + ChunkSize(head) + 8))
    && !IsMmapped(head) && (PInuse(head) || prev + ChunkSize(Rd(m, prev + 8)) == p)
  }

  /** The assertions of do_check_free_chunk. */
  predicate FreeChunkOk(m: Mem, least: int, dv: int, top: int, p: int) {
    var head := Rd(m, p + 8);
    var sz := ChunkSize(head);
    var next := p + sz;
    && AnyChunkOk(m, least, p) && !IsInuse(head) && !PInuse(Rd(m, next + 8)) && !IsMmapped(head)
    && (p != dv && p != top ==>
          if sz >= 32 then
            && sz % 16 == 0 && (p + 16) % 16 == 0 && Rd(m, next) == sz && PInuse(head)
            && (next == top || IsInuse(Rd(m, next + 8))) && LinksAgree(m, p)
          else sz == 8)
  }

  /** Every chunk in use passes, segment records included. */
  lemma InuseChunkPasses(m: Mem, x: Index, C: Tiling, ex: set<int>, A: Arena, gm: int, p: int)
    requires Core(m, x, C, ex, A, gm) && A.hi - A.lo <= MAX_SIZE && p in C && C[p].cinuse
    ensures InuseChunkOk(m, A.lo, p)
  {
    hide Core, HeadWord, ChunkSize;
    ChunkFacts(m, x, C, ex, A, gm, p);
    NextPinuse(m, x, C, ex, A, gm, p);
    BinsHold(m, x, C, ex, A, gm, p);
    if !C[p].pinuse {
      var prev := p - Rd(m, p);
      Preceding(m, x, C, ex, A, gm, p);
      ChunkFacts(m, x, C, ex, A, gm, prev);
    }
  }

  /** Every free chunk passes, those in the bins with their links and dv without. */
  lemma FreeChunkPasses(m: Mem, dv: int, x: Index, C: Tiling, A: Arena, gm: int, p: int)
    requires Core(m, x, C, {} + {dv}, A, gm) && A.hi - A.lo <= MAX_SIZE && p in C && !C[p].cinuse
    ensures FreeChunkOk(m, A.lo, dv, A.top, p)
  {
    hide Core, HeadWord, ChunkSize, LinksAgree;
    var ex := {} + {dv};
    ChunkFacts(m, x, C, ex, A, gm, p);
    NextPinuse(m, x, C, ex, A, gm, p);
    FreeAround(m, x, C, ex, A, gm, p);
    if p != dv { BinnedLinks(m, x, C, ex, A, gm, p); }
  }

  /** The pinuse bit that follows a chunk, be it in a chunk, in top or in a fencepost, says whether the chunk is in use. */
  lemma NextPinuse(m: Mem, x: Index, C: Tiling, ex: set<int>, A: Arena, gm: int, p: int)
    requires Core(m, x, C, ex, A, gm) && A.hi - A.lo <= MAX_SIZE && p in C
    ensures PInuse(Rd(m, p + C[p].size + 8)) == C[p].cinuse
  {
    hide IndexOk, Preceded, Owned;
    assert TileOk(C, p, A);
    var n := p + C[p].size;
    if p in A.records {
      assert FenceAfter(m, C, p);
    } else if n == A.top {
      HeadDecodes(Chunk(A.topsize, false, true));
    } else {
      ChunkFacts(m, x, C, ex, A, gm, n);
    }
  }

  lemma RingLinks(m: Mem, r: seq<int>, k: nat)
    requires Ring(m, r) && k < |r|
    ensures LinksAgree(m, r[k])
  {
    assert Hop(m, r, k);
    var j := if k == 0 then |r| - 1 else k - 1;
    assert Hop(m, r, j);
    assert Next(r, j) == r[k];
  }

  lemma BinnedLinks(m: Mem, x: Index, C: Tiling, ex: set<int>, A: Arena, gm: int, p: int)
    requires Core(m, x, C, ex, A, gm) && A.hi - A.lo <= MAX_SIZE && p in x.B && p in C
    ensures LinksAgree(m, p)
  {
    hide Core, A16;
    ChunkFacts(m, x, C, ex, A, gm, p);
    if C[p].size < 256 {
      var i := C[p].size / 8;
      SmallHolds(m, x, C, ex, A, gm, p, i);
      var k :| 0 <= k < |x.bins[i]| && x.bins[i][k] == p;
      var r := [Header(gm, i)] + x.bins[i];
      assert r[k + 1] == p;
      RingLinks(m, r, k + 1);
    } else {
      LargeHolds(m, x, C, ex, A, gm, p);
      var r := x.ch[C[p].size];
      var k :| 0 <= k < |r| && r[k] == p;
      RingLinks(m, r, k);
    }
  }

  /** What surrounds a free chunk: its foot, a chunk in use behind it, and a place in the bins unless excepted. */
  lemma FreeAround(m: Mem, x: Index, C: Tiling, ex: set<int>, A: Arena, gm: int, p: int)
    requires Core(m, x, C, ex, A, gm) && A.hi - A.lo <= MAX_SIZE && p in C && !C[p].cinuse
    ensures var n := p + C[p].size;
            && Rd(m, n) == C[p].size && n in C && C[n].cinuse && !C[n].pinuse && C[p].pinuse && Rd(m, p + 8) % 4 == 1 && Rd(m, n + 8) % 4 == 2
            && (p !in ex ==> p in x.B && x.B[p] == C[p].size)
  {
    hide IndexOk, Preceded, Owned;
    assert TileOk(C, p, A) && TagAt(m, C, p);
    var n := p + C[p].size;
    assert TileOk(C, n, A) && TagAt(m, C, n);
    Bits(C[p]);
    Bits(C[n]);
  }

  lemma Bits(c: Chunk)
    requires A16(c.size)
    ensures HeadWord(c) % 4 == (if c.cinuse then 2 else 0) + (if c.pinuse then 1 else 0)
  {
    var k := c.size / 16;
    assert c.size == 16 * k;
    Mod4(4 * k, HeadWord(c) - c.size);
  }

  // ---------------------------------------------------------------- bins

  /** The assertions of do_check_smallbin about one chunk p of bin i. */
  predicate SmallMemberOk(m: Mem, gm: int, least: int, dv: int, top: int, i: int, p: int) {
    var size, b, q := ChunkSize(Rd(m, p + 8)), Header(gm, i), p + ChunkSize(Rd(m, p + 8));
    && FreeChunkOk(m, least, dv, top, p) && size / 8 == i && (Bk(m, p) == b || ChunkSize(Rd(m, Bk(m, p) + 8)) == size)
    && (Rd(m, q + 8) != FENCEPOST_HEAD ==> InuseChunkOk(m, least, q))
  }

  lemma SmallMemberPasses(m: Mem, dv: int, x: Index, C: Tiling, A: Arena, gm: int, i: int, k: int)
    requires Core(m, x, C, {} + {dv}, A, gm) && A.hi - A.lo <= MAX_SIZE && 0 <= i < 32 && |x.bins| == 32 && 0 <= k < |x.bins[i]|
    requires Ring(m, [Header(gm, i)] + x.bins[i])
    ensures SmallMemberOk(m, gm, A.lo, dv, A.top, i, x.bins[i][k])
    ensures Bk(m, x.bins[i][k]) == if k == 0 then Header(gm, i) else x.bins[i][k - 1]
  {
    hide Core, ChunkSize, HeadWord, FreeChunkOk, InuseChunkOk, Ring;
    var ex, p, r := {} + {dv}, x.bins[i][k], [Header(gm, i)] + x.bins[i];
    BinMember(m, x, C, ex, A, gm, i, k);
    FreeChunkPasses(m, dv, x, C, A, gm, p);
    ChunkFacts(m, x, C, ex, A, gm, p);
    FreeAround(m, x, C, ex, A, gm, p);
    InuseChunkPasses(m, x, C, ex, A, gm, p + C[p].size);
    assert r[k + 1] == p;
    BackOf(m, r, k + 1);
    if k > 0 { BinMember(m, x, C, ex, A, gm, i, k - 1); ChunkFacts(m, x, C, ex, A, gm, x.bins[i][k - 1]); }
  }

  /** What the bin checks start from: the loader's zeroed state, or a heap whose invariant holds. */
  ghost predicate Checkable(m: Mem, gm: int, least: int, dv: int, top: int, x: Index, C: Tiling, A: Arena) {
    if top == 0 then x == EmptyIndex() && forall i {:trigger TreeBin(gm, i)} :: 0 <= i < 32 ==> Rd(m, TreeBin(gm, i)) == 0
    else Core(m, x, C, {} + {dv}, A, gm) && A.hi - A.lo <= MAX_SIZE && least == A.lo && top == A.top
  }

  /** do_check_smallbin: the loop along bk meets every chunk of the bin, and each passes. */
  method CheckSmallbin(m: Mem, sm: Word32, gm: int, least: int, dv: int, top: int, i: int, ghost x: Index, ghost C: Tiling, ghost A: Arena)
    returns (ok: bool, ghost met: set<int>)
    requires Checkable(m, gm, least, dv, top, x, C, A) && x.sm == sm && 0 <= i < 32
    ensures ok && |x.bins| == 32 && met == (set p | p in x.bins[i])
    ensures forall p {:trigger SmallMemberOk(m, gm, least, dv, top, i, p)} :: p in met ==> SmallMemberOk(m, gm, least, dv, top, i, p)
  {
    hide Core, SmallMemberOk;
    if top != 0 { BinFacts(m, x, C, {} + {dv}, A, gm, i); }
    var b := Header(gm, i);
    var p := Bk(m, b);
    var empty := !sm[i];
    ghost var r := [b] + x.bins[i];
    ghost var k := |r| - 1;
    met := {};
    if !empty { BackOf(m, r, 0); HeadOnce(m, r); }
    ok := p != b || empty;
    if !empty {
      while p != b
        invariant ok && 0 <= k < |r| && p == r[k] && met == (set j | k <= j < |x.bins[i]| :: x.bins[i][j])
        invariant forall u {:trigger SmallMemberOk(m, gm, least, dv, top, i, u)} :: u in met ==> SmallMemberOk(m, gm, least, dv, top, i, u)
        decreases k
      {
        assert k > 0 && p == x.bins[i][k - 1];
        SmallMemberPasses(m, dv, x, C, A, gm, i, k - 1);
        ok := SmallMemberOk(m, gm, least, dv, top, i, p);
        met := met + {p};
        p := Bk(m, p);
        k := k - 1;
      }
    }
    assert k == 0;
  }

  lemma BinFacts(m: Mem, x: Index, C: Tiling, ex: set<int>, A: Arena, gm: int, i: int)
    requires Core(m, x, C, ex, A, gm) && 0 <= i < 32
    ensures |x.bins| == 32 && (x.sm[i] <==> x.bins[i] != []) && (x.sm[i] ==> Ring(m, [Header(gm, i)] + x.bins[i]))
  {
    hide TreeOk, Tiled, Tagged, Fenced, Placed;
    assert BinOk(m, x.sm, x.bins, x.B, gm, i);
  }

  lemma BinMember(m: Mem, x: Index, C: Tiling, ex: set<int>, A: Arena, gm: int, i: int, k: int)
    requires Core(m, x, C, ex, A, gm) && 0 <= i < 32 && |x.bins| == 32 && 0 <= k < |x.bins[i]|
    ensures var p := x.bins[i][k]; p in x.B && p in C && !C[p].cinuse && C[p].size == 8 * i
  {
    hide TreeOk, Tiled, Tagged, Fenced, Placed;
    assert BinOk(m, x.sm, x.bins, x.B, gm, i);
    assert x.bins[i][k] in x.B;
  }

  /** Following bk goes round a ring the other way. */
  lemma BackOf(m: Mem, r: seq<int>, k: nat)
    requires Ring(m, r) && k < |r|
    ensures Bk(m, r[k]) == r[if k == 0 then |r| - 1 else k - 1]
  {
    var j := if k == 0 then |r| - 1 else k - 1;
    assert Hop(m, r, j);
    assert Next(r, j) == r[k];
  }

  lemma HeadOnce(m: Mem, r: seq<int>)
    requires Ring(m, r)
    ensures forall k {:trigger r[k]} :: 0 < k < |r| ==> r[k] != r[0]
  {
    forall k | 0 < k < |r| ensures r[k] != r[0] { assert Apart(r[0], r[k]); }
  }

  /** What do_check_tree looks at in one chunk of a ring. */
  predicate TreeChunkOk(m: Mem, least: int, u: int, tindex: int, tsize: int) {
    && (u + 16) % 16 == 0 && u >= least && BinIndex(m, u) == tindex && ChunkSize(Rd(m, u + 8)) == tsize
    && !IsInuse(Rd(m, u + 8)) && !PInuse(Rd(m, u + tsize + 8)) && LinksAgree(m, u)
  }

  lemma TreeChunk(m: Mem, x: Index, C: Tiling, ex: set<int>, A: Arena, gm: int, c: int, k: int)
    requires Core(m, x, C, ex, A, gm) && A.hi - A.lo <= MAX_SIZE && c in x.t.depth && c in x.ch && 0 <= k < |x.ch[c]|
    ensures c >= 256 && TreeChunkOk(m, A.lo, x.ch[c][k], TreeIndex(c), c)
    ensures k > 0 ==> Parent(m, x.ch[c][k]) == 0 && Child(m, x.ch[c][k], 0) == 0 && Child(m, x.ch[c][k], 1) == 0
  {
    hide TreeIndex, Key, HeadWord, ChunkSize, LinksAgree;
    var u := x.ch[c][k];
    assert ChainOk(m, x.ch, x.B, c) && Member(m, x.B, c, u, k);
    assert u in C && !C[u].cinuse && C[u].size == c;
    hide Core;
    ChunkFacts(m, x, C, ex, A, gm, u);
    FreeAround(m, x, C, ex, A, gm, u);
    NextPinuse(m, x, C, ex, A, gm, u);
    BinnedLinks(m, x, C, ex, A, gm, u);
  }

  // ---------------------------------------------------------------- tries

  /** u hangs from its parent: as a child, or as the root its bin points at. */
  predicate HangsRight(m: Mem, u: int) {
    var par := Parent(m, u);
    par != u && (Child(m, par, 0) == u || Child(m, par, 1) == u || Rd(m, par) == u)
  }

  lemma Hangs(m: Mem, x: Index, gm: int, lo: int, hi: int, c: int)
    requires IndexOk(m, x, gm, lo, hi) && c in x.t.depth && c in x.t.node
    ensures Parent(m, x.t.node[c]) != 0 && HangsRight(m, x.t.node[c])
  {
    hide TreeIndex, Key, ChainsOk, SmallOk;
    var t, u, d := x.t, x.t.node[c], x.t.depth[c];
    assert SizeOk(t, x.B, c);
    NodeHasParent(m, t, x.B, gm, lo, hi, c);
    OffState(x.B, lo, hi, gm, u);
    assert NodeOk(m, t, gm, SlotAt(c, d));
    if d == 0 {
      assert RootOk(m, t, gm, TreeIndex(c));
    } else {
      ParentElsewhere(m, t, x.B, gm, lo, hi, c);
      assert NodeOk(m, t, gm, SlotAt(c, d - 1));
    }
  }

  /** The child word on side b: null, or another node that points back and, on both sides, in order. */
  lemma ChildrenOf(m: Mem, x: Index, gm: int, lo: int, hi: int, c: int)
    requires IndexOk(m, x, gm, lo, hi) && Sized(m, x.B) && c in x.t.depth && c in x.t.node && c >= 0
    ensures ChildFact(m, x, c, 0) && ChildFact(m, x, c, 1)
    ensures ChildSize(x.t, c, 0) != 0 && ChildSize(x.t, c, 1) != 0 ==> ChildSize(x.t, c, 0) < ChildSize(x.t, c, 1)
  {
    hide TreeIndex, Key, ChainsOk, SmallOk;
    ChildOf(m, x, gm, lo, hi, c, 0);
    ChildOf(m, x, gm, lo, hi, c, 1);
    var l, r := ChildSize(x.t, c, 0), ChildSize(x.t, c, 1);
    if l != 0 && r != 0 {
      SelfSub(m, x.t, x.B, gm, l);
      SelfSub(m, x.t, x.B, gm, r);
      LeftBelowRight(m, x.t, x.B, gm, c, l, r);
    }
  }

  ghost predicate ChildFact(m: Mem, x: Index, c: int, b: int)
    requires c in x.t.depth && c in x.t.node && c >= 0
  {
    var u, w, l := x.t.node[c], Child(m, x.t.node[c], b), ChildSize(x.t, c, b);
    && (w == 0 <==> l == 0)
    && (w != 0 ==> l in x.t.depth && l in x.t.node && x.t.node[l] == w && x.t.depth[l] == x.t.depth[c] + 1 && w != u
                   && Parent(m, w) == u && ChunkSize(Rd(m, w + 8)) == l && x.t.depth[l] <= 64)
  }

  lemma ChildOf(m: Mem, x: Index, gm: int, lo: int, hi: int, c: int, b: int)
    requires IndexOk(m, x, gm, lo, hi) && Sized(m, x.B) && c in x.t.depth && c in x.t.node && c >= 0 && 0 <= b <= 1
    ensures ChildFact(m, x, c, b)
  {
    hide TreeIndex, Key, ChainsOk, SmallOk, ChunkSize;
    var t := x.t;
    ChildIsNode(m, t, x.B, gm, lo, hi, c, b);
    ChildWord(m, t, x.B, gm, lo, hi, c, b);
    var l := ChildSize(t, c, b);
    if l != 0 {
      NodeReads(m, x, gm, lo, hi, l);
      assert SizeOk(t, x.B, l) && SizeOk(t, x.B, c);
      assert NodeOk(m, t, gm, SlotAt(l, t.depth[l]));
      assert NodeOk(m, t, gm, SlotAt(c, t.depth[c]));
    }
  }

  /** The assertions of do_check_tree about the node itself. */
  predicate TreeNodeOk(m: Mem, t: int) {
    var tsize, c0, c1 := ChunkSize(Rd(m, t + 8)), Child(m, t, 0), Child(m, t, 1);
    && tsize >= 256 && BinIndex(m, t) == TreeIndex(tsize) && InClass(tsize, TreeIndex(tsize))
    && Parent(m, t) != 0 && HangsRight(m, t)
    && (c0 != 0 ==> Parent(m, c0) == t && c0 != t) && (c1 != 0 ==> Parent(m, c1) == t && c1 != t)
    && (c0 != 0 && c1 != 0 ==> ChunkSize(Rd(m, c0 + 8)) < ChunkSize(Rd(m, c1 + 8)))
  }

  /** Its assertions about a chunk chained off a node. */
  predicate ChainedOk(m: Mem, u: int) { Parent(m, u) == 0 && Child(m, u, 0) == 0 && Child(m, u, 1) == 0 }

  /** The sizes stored at or below c. */
  ghost function Below(t: Shape, c: int): set<int> { set u | u in t.depth && InSub(t, c, u) }

  lemma NodePasses(m: Mem, x: Index, C: Tiling, ex: set<int>, A: Arena, gm: int, c: int)
    requires Core(m, x, C, ex, A, gm) && c in x.t.depth && c in x.t.node
    ensures TreeNodeOk(m, x.t.node[c])
  {
    hide Core, TreeIndex, Key, ChunkSize, HangsRight, InClass, ChildSize;
    NodeFacts(m, x, C, ex, A, gm, c);
    TreeIndexClass(c);
  }

  lemma BelowSplits(m: Mem, t: Shape, B: Stock, gm: int, c: int)
    requires ShapeOk(m, t, B, gm) && c in t.depth && c >= 0
    ensures var l, r := ChildSize(t, c, 0), ChildSize(t, c, 1);
            Below(t, c) == {c} + (if l == 0 then {} else Below(t, l)) + (if r == 0 then {} else Below(t, r))
  {
    hide TreeIndex, Key, ShapeOk, ChildSize;
    var l, r := ChildSize(t, c, 0), ChildSize(t, c, 1);
    SelfSub(m, t, B, gm, c);
    forall u ensures u in Below(t, c) <==> u == c || (l != 0 && u in Below(t, l)) || (r != 0 && u in Below(t, r)) {
      if u in Below(t, c) && u != c { SubSides(m, t, B, gm, c, u); }
      if l != 0 && u in Below(t, l) { SubOfChild(m, t, B, gm, c, 0, u); }
      if r != 0 && u in Below(t, r) { SubOfChild(m, t, B, gm, c, 1, u); }
    }
  }

  /** do_check_tree: it visits every size stored at or below the node, and every chunk of every ring passes. */
  method CheckTree(m: Mem, gm: int, least: int, t: int, ghost c: int, ghost x: Index, ghost C: Tiling, ghost ex: set<int>, ghost A: Arena)
    returns (ok: bool, ghost seen: set<int>)
    requires Core(m, x, C, ex, A, gm) && A.hi - A.lo <= MAX_SIZE && least == A.lo && c in x.t.depth && c in x.t.node && t == x.t.node[c]
    ensures ok && seen == Below(x.t, c)
    decreases 64 - (x.t.depth[c] as int), 1
  {
    hide Core, TreeIndex, Key, TreeChunkOk, TreeNodeOk, ChunkSize, Ring, Below;
    NodeFacts(m, x, C, ex, A, gm, c);
    ok, seen := true, {};
    var tindex, tsize, u, head := BinIndex(m, t), ChunkSize(Rd(m, t + 8)), t, 0;
    ghost var r, k := x.ch[c], 0;
    while true
      invariant ok && 0 <= k < |r| && u == r[k] && (k > 0 ==> head == t && seen == Below(x.t, c)) && (k == 0 ==> head == 0)
      decreases |r| - k
    {
      TreeChunk(m, x, C, ex, A, gm, c, k);
      ok := TreeChunkOk(m, least, u, tindex, tsize);
      if Parent(m, u) == 0 {
        ok := ok && ChainedOk(m, u);
      } else {
        ok := ok && head == 0;
        head := u;
        NodePasses(m, x, C, ex, A, gm, c);
        var good;
        good, seen := CheckSubtrees(m, gm, least, u, c, x, C, ex, A);
        ok := ok && good && TreeNodeOk(m, u);
      }
      FollowRing(m, r, k);
      u := Fd(m, u);
      if u == t { break; }
      k := k + 1;
    }
    ok := ok && head != 0;
  }

  /** The recursive calls of do_check_tree. */
  method CheckSubtrees(m: Mem, gm: int, least: int, u: int, ghost c: int, ghost x: Index, ghost C: Tiling, ghost ex: set<int>, ghost A: Arena)
    returns (ok: bool, ghost seen: set<int>)
    requires Core(m, x, C, ex, A, gm) && A.hi - A.lo <= MAX_SIZE && least == A.lo && c in x.t.depth && c in x.t.node && u == x.t.node[c]
    ensures ok && seen == Below(x.t, c)
    decreases 64 - (x.t.depth[c] as int), 0
  {
    hide Core, TreeIndex, Key, ChunkSize, HangsRight, ChildSize, Below;
    NodeFacts(m, x, C, ex, A, gm, c);
    CoreShape(m, x, C, ex, A, gm);
    BelowSplits(m, x.t, x.B, gm, c);
    ok, seen := true, {c};
    var c0, c1 := Child(m, u, 0), Child(m, u, 1);
    if c0 != 0 {
      var good;
      ghost var more;
      good, more := CheckTree(m, gm, least, c0, ChildSize(x.t, c, 0), x, C, ex, A);
      ok, seen := good, seen + more;
    }
    if c1 != 0 {
      var good;
      ghost var more;
      good, more := CheckTree(m, gm, least, c1, ChildSize(x.t, c, 1), x, C, ex, A);
      ok, seen := ok && good, seen + more;
    }
  }

  lemma CoreShape(m: Mem, x: Index, C: Tiling, ex: set<int>, A: Arena, gm: int)
    requires Core(m, x, C, ex, A, gm)
    ensures ShapeOk(m, x.t, x.B, gm)
  {
  }

  /** Everything about the node of size c that the two methods above read. */
  lemma NodeFacts(m: Mem, x: Index, C: Tiling, ex: set<int>, A: Arena, gm: int, c: int)
    requires Core(m, x, C, ex, A, gm) && c in x.t.depth && c in x.t.node
    ensures 256 <= c < MAX_SIZE && ChunkSize(Rd(m, x.t.node[c] + 8)) == c && BinIndex(m, x.t.node[c]) == TreeIndex(c) && x.t.depth[c] <= 64
    ensures c in x.ch && |x.ch[c]| > 0 && Ring(m, x.ch[c]) && x.ch[c][0] == x.t.node[c] && x.t.node[c] != 0
    ensures Parent(m, x.t.node[c]) != 0 && HangsRight(m, x.t.node[c])
    ensures ChildFact(m, x, c, 0) && ChildFact(m, x, c, 1)
    ensures ChildSize(x.t, c, 0) != 0 && ChildSize(x.t, c, 1) != 0 ==> ChildSize(x.t, c, 0) < ChildSize(x.t, c, 1)
  {
    hide TreeIndex, Key, ChunkSize, ShapeOk, Placed, Tiled, Tagged, Fenced, ChildFact, HangsRight;
    CoreSized(m, x, C, ex, A, gm);
    NodeReads(m, x, gm, A.lo, A.hi, c);
    assert HeadOk(x.t, x.ch, c) && ChainOk(m, x.ch, x.B, c);
    assert Member(m, x.B, c, x.ch[c][0], 0);
    Hangs(m, x, gm, A.lo, A.hi, c);
    ChildrenOf(m, x, gm, A.lo, A.hi, c);
  }

  lemma FollowRing(m: Mem, r: seq<int>, k: nat)
    requires Ring(m, r) && k < |r|
    ensures Fd(m, r[k]) == (if k + 1 < |r| then r[k + 1] else r[0]) && (Fd(m, r[k]) == r[0] <==> k + 1 == |r|)
  {
    assert Hop(m, r, k);
    if k + 1 < |r| { assert Apart(r[0], r[k + 1]); }
  }

  /** do_check_treebin: it visits every stored size of class i. */
  method CheckTreebin(m: Mem, tm: Word32, gm: int, least: int, i: int, ghost dv: int, ghost top: int, ghost x: Index, ghost C: Tiling, ghost A: Arena)
    returns (ok: bool, ghost seen: set<int>)
    requires Checkable(m, gm, least, dv, top, x, C, A) && x.tm == tm && 0 <= i < 32
    ensures ok && forall u {:trigger u in seen} :: u in x.t.depth && u >= 0 && TreeIndex(u) == i ==> u in seen
  {
    hide TreeIndex, Key, SmallOk, ChainsOk, HeadsOk, Tiled, Tagged, Fenced, Placed, ShapeOk;
    var t := Rd(m, TreeBin(gm, i));
    var empty := !tm[i];
    if top != 0 {
      assert Mapped(tm, x.t, i);
      RootWord(m, x.t, x.B, gm, A.lo, A.hi, i);
    }
    ok, seen := t != 0 || empty, {};
    if !empty {
      var good;
      good, seen := CheckTree(m, gm, least, t, x.t.pos[Slot(i, 1)], x, C, {} + {dv}, A);
      ok := ok && good;
    }
    forall u | u in x.t.depth && u >= 0 && TreeIndex(u) == i ensures u in seen { BelowRoot(m, x.t, x.B, gm, u); }
  }

  // ---------------------------------------------------------------- the linear walk

  /** Where the walk over segment k ends: at top in the newest segment, at its record in any other. */
  ghost function Last(A: Arena, segs: seq<int>, k: int): int { if 0 < k <= |segs| then segs[k - 1] else A.top }

  /** The segment list, with top at the end of the newest segment. */
  ghost predicate Listed(m: Mem, C: Tiling, A: Arena, segs: seq<int>, bases: seq<int>, sizes: seq<int>) {
    && SegList(m, C, A, segs, bases, sizes)
    && bases[0] <= A.top && A.top + A.topsize + TOP_FOOT == bases[0] + sizes[0]
  }

  lemma SegmentFacts(m: Mem, C: Tiling, A: Arena, segs: seq<int>, bases: seq<int>, sizes: seq<int>, k: int)
    requires Listed(m, C, A, segs, bases, sizes) && Tiled(C, A) && 0 <= k < |bases|
    ensures |bases| == |sizes| == |segs| + 1
    ensures var e := Last(A, segs, k);
            && bases[k] <= e && (k == 0 ==> e == A.top && e + A.topsize + TOP_FOOT == bases[k] + sizes[k])
            && (k > 0 ==> e in C && e in A.records && C[e].cinuse && C[e].size == 48 && (bases[k] + sizes[k] == e + 80 || bases[k] + sizes[k] == e + 96))
    ensures A16(bases[k]) && (bases[k] == A.top || (bases[k] in C && C[bases[k]].pinuse)) && (bases[k] == A.top ==> k == 0)
  {
    hide Owned, Preceded;
    if k > 0 { assert Recorded(m, C, A, segs, bases, sizes, k - 1); }
    assert SegmentOk(A, bases, sizes, k);
    assert Starts(C, A, bases[k]);
    if bases[k] in C { assert TileOk(C, bases[k], A); }
    if k > 0 { assert Separate(bases, sizes, 0, k); }
  }

  /** Before its end the walk meets no record and stays in its segment. */
  lemma WalkStays(m: Mem, C: Tiling, A: Arena, segs: seq<int>, bases: seq<int>, sizes: seq<int>, k: int, q: int)
    requires Listed(m, C, A, segs, bases, sizes) && Tiled(C, A) && 0 <= k < |bases| && q in C && bases[k] <= q < Last(A, segs, k)
    ensures var n, e := q + C[q].size, Last(A, segs, k);
            && q < n <= e && n != 0 && C[q].size >= 32 && q !in A.records
            && if n == e && k == 0 then n == A.top else n in C && n != A.top && C[n].pinuse == C[q].cinuse && (C[q].cinuse || C[n].cinuse)
  {
    hide Owned, Preceded, A16;
    SegmentFacts(m, C, A, segs, bases, sizes, k);
    var n, e := q + C[q].size, Last(A, segs, k);
    assert TileOk(C, q, A);
    if k > 0 { assert Before(C, q, e); }
    if q in A.records {
      var j :| 0 <= j < |segs| && segs[j] == q;
      assert Recorded(m, C, A, segs, bases, sizes, j) && Separate(bases, sizes, k, j + 1);
      assert j + 1 == k;
    }
    if n == A.top && k > 0 { assert Separate(bases, sizes, 0, k); }
    if n in C { assert TileOk(C, n, A); }
  }

  /**
   * One segment of traverse_and_check: every assertion holds, and the sizes account for the whole segment: with top and
   * its overhead in the newest one, with two or three fenceposts' worth of bytes at the end of any other.
   */
  method TraverseSegment(m: Mem, sm: Word32, tm: Word32, gm: int, least: int, dv: int, top: int, base: int, size: int, ghost k: int,
                         ghost x: Index, ghost C: Tiling, ghost A: Arena, ghost segs: seq<int>, ghost bases: seq<int>, ghost sizes: seq<int>)
    returns (ok: bool, sum: int, ghost met: seq<int>)
    requires Sound(m, sm, tm, gm, x, C, {} + {dv}, A) && least == A.lo && top == A.top && Listed(m, C, A, segs, bases, sizes)
    requires 0 <= k < |bases| && base == bases[k] && |sizes| == |bases| && size == sizes[k]
    ensures ok && 0 <= sum && (k == 0 ==> sum + A.topsize + TOP_FOOT == size)
    ensures k > 0 ==> sum == Last(A, segs, k) + 48 - base && (size == sum + 32 || size == sum + 48)
    ensures Tiled(C, A) && OnTile(C, A, base) && met == Walk(C, A, base)
  {
    hide Core, Tiled, Listed, ChunkSize, HeadWord, A16, InuseChunkOk, FreeChunkOk, Walk;
    ghost var ex, e := {} + {dv}, Last(A, segs, k);
    assert Tiled(C, A) by { CoreTiled(m, x, C, ex, A, gm); }
    SegmentFacts(m, C, A, segs, bases, sizes, k);
    TopFacts(m, x, C, ex, A, gm);
    StartPinuse(m, x, C, ex, A, gm, base);
    var q, lastq := base, 0;
    ok, sum, met := PInuse(Rd(m, q + 8)), 0, [];
    assert [] + Walk(C, A, base) == Walk(C, A, base);
    while base <= q < base + size && q != top && Rd(m, q + 8) != FENCEPOST_HEAD
      invariant ok && sum == q - base && bases[k] <= q
      invariant if q <= e then q == A.top || q in C else k > 0 && q == e + 48 && Rd(m, q + 8) == FENCEPOST_HEAD
      invariant q == A.top ==> q == e && k == 0
      invariant q in C && lastq != 0 ==> lastq in C && (C[lastq].cinuse || C[q].cinuse)
      invariant if q <= e then met + Walk(C, A, q) == Walk(C, A, base) else met == Walk(C, A, base)
      decreases e + 48 - q
    {
      ChunkFacts(m, x, C, ex, A, gm, q);
      var sz := ChunkSize(Rd(m, q + 8));
      sum := sum + sz;
      var found := BinFind(m, sm, tm, gm, q, x, C, ex, A);
      BinsHold(m, x, C, ex, A, gm, q);
      if IsInuse(Rd(m, q + 8)) {
        InuseChunkPasses(m, x, C, ex, A, gm, q);
        ok := InuseChunkOk(m, least, q) && !found;
      } else {
        FreeChunkPasses(m, dv, x, C, A, gm, q);
        if lastq != 0 { BinsHold(m, x, C, ex, A, gm, lastq); }
        ok := FreeChunkOk(m, least, dv, top, q) && (q == dv || found) && (lastq == 0 || IsInuse(Rd(m, lastq + 8)));
      }
      if q < e { WalkStays(m, C, A, segs, bases, sizes, k, q); } else { AfterRecord(m, x, C, ex, A, gm, q); }
      WalkOn(C, A, q);
      assert met + ([q] + Walk2(C, A, q)) == met + [q] + Walk2(C, A, q);
      met := met + [q];
      lastq := q;
      q := q + sz;
    }
    WalkNone(C, A);
    assert met + [] == met;
    if q in C { BinsHold(m, x, C, ex, A, gm, q); }
  }

  lemma {:induction false} WalkFrom(m: Mem, C: Tiling, A: Arena, segs: seq<int>, bases: seq<int>, sizes: seq<int>, k: int, q: int)
    requires Listed(m, C, A, segs, bases, sizes) && Tiled(C, A) && 0 <= k < |bases| && bases[k] <= q <= Last(A, segs, k) && OnTile(C, A, q)
    requires q == A.top ==> k == 0
    ensures WalkEnd(C, A, q) == if k == 0 then A.top else Last(A, segs, k) + 48
    decreases Last(A, segs, k) - q
  {
    hide Listed, Tiled;
    SegmentFacts(m, C, A, segs, bases, sizes, k);
    if q < Last(A, segs, k) {
      WalkStays(m, C, A, segs, bases, sizes, k, q);
      WalkFrom(m, C, A, segs, bases, sizes, k, q + C[q].size);
    }
  }

  /**
   * In every initialized heap each segment is accounted for to the byte: the newest is its chunks, top and the overhead
   * behind top; any other is its chunks, the last of them its record, and 32 or 48 bytes of fenceposts.
   */
  lemma SegmentAccounted(h: Heap, k: int)
    requires h.Valid() && h.top != 0 && 0 <= k < |h.bases|
    ensures Tiled(h.C, h.Ar()) && OnTile(h.C, h.Ar(), h.bases[k]) && |h.sizes| == |h.bases|
    ensures var sum := TotalSize(h.C, Walk(h.C, h.Ar(), h.bases[k]));
            if k == 0 then sum + h.topsize + TOP_FOOT == h.sizes[k]
            else (h.sizes[k] == sum + 32 || h.sizes[k] == sum + 48) && Last(h.Ar(), h.segs, k) in Walk(h.C, h.Ar(), h.bases[k])
  {
    hide Core, SegList, Listed, Walk, WalkEnd, TotalSize;
    var m, C, A := h.mem, h.C, h.Ar();
    HeapListed(h);
    CoreTiled(m, h.Ix(), C, {} + {h.dv}, A, h.gm);
    SegmentFacts(m, C, A, h.segs, h.bases, h.sizes, k);
    WalkFrom(m, C, A, h.segs, h.bases, h.sizes, k, h.bases[k]);
    WalkAddsUp(C, A, h.bases[k]);
    if k > 0 { RecordMet(m, C, A, h.segs, h.bases, h.sizes, k, h.bases[k]); }
  }

  lemma {:induction false} RecordMet(m: Mem, C: Tiling, A: Arena, segs: seq<int>, bases: seq<int>, sizes: seq<int>, k: int, q: int)
    requires Listed(m, C, A, segs, bases, sizes) && Tiled(C, A) && 0 < k < |bases| && bases[k] <= q <= Last(A, segs, k) && q in C && q != A.top
    ensures Last(A, segs, k) in Walk(C, A, q)
    decreases Last(A, segs, k) - q
  {
    hide Listed, Tiled;
    SegmentFacts(m, C, A, segs, bases, sizes, k);
    if q < Last(A, segs, k) {
      WalkStays(m, C, A, segs, bases, sizes, k, q);
      RecordMet(m, C, A, segs, bases, sizes, k, q + C[q].size);
    }
  }

  lemma WalkNone(C: Tiling, A: Arena)
    requires Tiled(C, A)
    ensures Walk(C, A, A.top) == []
  {
  }

  /** What the walk meets after q. */
  ghost function Walk2(C: Tiling, A: Arena, q: int): seq<int>
    requires Tiled(C, A) && q in C
  {
    Traversal.StepOk(C, A, q);
    if q in A.records then [] else Walk(C, A, q + C[q].size)
  }

  lemma WalkOn(C: Tiling, A: Arena, q: int)
    requires Tiled(C, A) && q in C
    ensures Walk(C, A, q) == [q] + Walk2(C, A, q)
    ensures q in A.records ==> Walk2(C, A, q) == []
    ensures q !in A.records ==> OnTile(C, A, q + C[q].size) && Walk2(C, A, q) == Walk(C, A, q + C[q].size)
  {
    Traversal.StepOk(C, A, q);
    assert [q] + [] == [q];
  }

  /** The first chunk of a segment, or top when there is none, has its pinuse bit set. */
  lemma StartPinuse(m: Mem, x: Index, C: Tiling, ex: set<int>, A: Arena, gm: int, h: int)
    requires Core(m, x, C, ex, A, gm) && A.hi - A.lo <= MAX_SIZE && (h == A.top || (h in C && C[h].pinuse))
    ensures PInuse(Rd(m, h + 8))
  {
    hide IndexOk, Tagged, Fenced;
    if h == A.top { HeadDecodes(Chunk(A.topsize, false, true)); } else { ChunkFacts(m, x, C, ex, A, gm, h); }
  }

  /** The bits of a chunk, and the bins: they hold it exactly when it is free and not excepted. */
  lemma BinsHold(m: Mem, x: Index, C: Tiling, ex: set<int>, A: Arena, gm: int, q: int)
    requires Core(m, x, C, ex, A, gm) && A.hi - A.lo <= MAX_SIZE && q in C
    ensures (q in x.B <==> !C[q].cinuse && q !in ex) && (IsInuse(Rd(m, q + 8)) <==> C[q].cinuse) && Rd(m, q + 8) > FENCEPOST_HEAD
  {
    hide IndexOk, Preceded, Owned;
    assert TileOk(C, q, A) && TagAt(m, C, q);
    Bits(C[q]);
  }

  lemma AfterRecord(m: Mem, x: Index, C: Tiling, ex: set<int>, A: Arena, gm: int, r: int)
    requires Core(m, x, C, ex, A, gm) && r in A.records && r in C
    ensures Rd(m, r + C[r].size + 8) == FENCEPOST_HEAD && r + C[r].size != A.top && r + C[r].size !in C
  {
    hide IndexOk, Tagged, Preceded, Owned;
    assert FenceAfter(m, C, r) && TileOk(C, r, A);
  }

  // ---------------------------------------------------------------- the whole state

  ghost function Total(sizes: seq<int>): int { if sizes == [] then 0 else Total(sizes[..|sizes| - 1]) + sizes[|sizes| - 1] }

  ghost function Extent(bases: seq<int>, sizes: seq<int>, k: nat): set<int>
    requires k <= |bases| == |sizes|
  {
    if k == 0 then {} else Extent(bases, sizes, k - 1) + Bytes(bases[k - 1], sizes[k - 1])
  }

  lemma {:induction false} InExtent(bases: seq<int>, sizes: seq<int>, k: nat, w: int)
    requires k <= |bases| == |sizes|
    ensures w in Extent(bases, sizes, k) <==> exists i {:trigger bases[i]} :: 0 <= i < k && InBytes(w, bases[i], sizes[i])
  {
    if k > 0 { InExtent(bases, sizes, k - 1, w); }
  }

  /** The segments' sizes add up to no more than what the system granted. */
  lemma {:induction false} SegmentsFit(m: Mem, C: Tiling, A: Arena, segs: seq<int>, bases: seq<int>, sizes: seq<int>, k: nat)
    requires SegList(m, C, A, segs, bases, sizes) && k <= |bases|
    ensures |bases| == |sizes| && |Extent(bases, sizes, k)| == Total(sizes[..k]) && Extent(bases, sizes, k) <= A.granted
  {
    assert |bases| == |sizes|;
    hide SegList, Bytes;
    if k > 0 {
      SegmentsFit(m, C, A, segs, bases, sizes, k - 1);
      ExtentGrows(m, C, A, segs, bases, sizes, k - 1);
      assert sizes[..k][..k - 1] == sizes[..k - 1];
    }
  }

  lemma ExtentGrows(m: Mem, C: Tiling, A: Arena, segs: seq<int>, bases: seq<int>, sizes: seq<int>, k: nat)
    requires SegList(m, C, A, segs, bases, sizes) && k < |bases| == |sizes|
    ensures Bytes(bases[k], sizes[k]) <= A.granted && Bytes(bases[k], sizes[k]) !! Extent(bases, sizes, k) && |Bytes(bases[k], sizes[k])| == sizes[k]
  {
    hide Recorded, Extent;
    assert SegmentOk(A, bases, sizes, k);
    ByteCount(bases[k], sizes[k]);
    forall w | w in Bytes(bases[k], sizes[k]) ensures w in A.granted && w !in Extent(bases, sizes, k) {
      InExtent(bases, sizes, k, w);
      forall i | 0 <= i < k ensures !InBytes(w, bases[i], sizes[i]) { assert Separate(bases, sizes, i, k); }
    }
  }

  lemma HeapListed(h: Heap)
    requires h.Ready({}) && h.SegsOk()
    ensures Listed(h.mem, h.C, h.Ar(), h.segs, h.bases, h.sizes) && |h.bases| == |h.sizes| == |h.segs| + 1
    ensures Sound(h.mem, h.smallmap, h.treemap, h.gm, h.Ix(), h.C, {} + {h.dv}, h.Ar())
  {
    hide Core, SegList;
    SegLengths(h.mem, h.C, h.Ar(), h.segs, h.bases, h.sizes);
    h.NewestHoldsTop(0);
  }

  /**
   * traverse_and_check: no assertion fails, and what it adds up is every byte of the segments but the 32 or 48 bytes of
   * fenceposts that close each segment other than the newest; so it is no more than was granted.
   */
  method TraverseAndCheck(h: Heap) returns (ok: bool, sum: int)
    requires h.Valid()
    ensures ok && sum <= |h.granted| && (h.top == 0 ==> sum == 0)
    ensures h.top != 0 ==> Total(h.sizes) - 48 * |h.segs| <= sum <= Total(h.sizes) - 32 * |h.segs|
  {
    hide Core, SegList, Listed, Sound;
    ok, sum := true, 0;
    if h.top == 0 { return; }
    HeapListed(h);
    sum := h.topsize + TOP_FOOT;
    var sp := h.gm + SEG;
    ghost var k, A := 0, h.Ar();
    h.SegReads(0);
    assert h.sizes[..0] == [];
    while sp != 0
      invariant ok && 0 <= k <= |h.bases| && sp == h.SegPtr(k) && (sp == 0 ==> k == |h.bases|) && (k == |h.bases| ==> sp == 0)
      invariant k == 0 ==> sum == h.topsize + TOP_FOOT
      invariant k > 0 ==> Total(h.sizes[..k]) - 48 * (k - 1) <= sum <= Total(h.sizes[..k]) - 32 * (k - 1)
      decreases |h.bases| - k
    {
      h.SegReads(k);
      var good, part;
      ghost var met;
      good, part, met := TraverseSegment(h.mem, h.smallmap, h.treemap, h.gm, h.leastAddr, h.dv, h.top, h.SegBaseAt(sp), h.SegSizeAt(sp), k,
                                        h.Ix(), h.C, A, h.segs, h.bases, h.sizes);
      assert h.sizes[..k + 1][..k] == h.sizes[..k];
      ok, sum := good, sum + part;
      sp := h.SegNextAt(sp);
      k := k + 1;
      if k < |h.bases| { h.SegReads(k); }
    }
    SegmentsFit(h.mem, h.C, A, h.segs, h.bases, h.sizes, k);
    assert h.sizes[..k] == h.sizes;
    Fewer(Extent(h.bases, h.sizes, k), h.granted);
  }

  lemma Fewer(a: set<int>, b: set<int>)
    requires a <= b
    ensures |a| <= |b|
  {
    var c := b - a;
    assert b == a + c;
  }

  /** do_check_top_chunk */
  method CheckTopChunk(h: Heap) returns (ok: bool)
    requires h.Valid() && h.top != 0
    ensures ok
  {
    hide Core, SegList, A16;
    ghost var ex, A := {} + {h.dv}, h.Ar();
    TopFacts(h.mem, h.Ix(), h.C, ex, A, h.gm);
    TopWords(h.mem, h.Ix(), h.C, ex, A, h.gm);
    SegLengths(h.mem, h.C, A, h.segs, h.bases, h.sizes);
    var sp;
    ghost var k;
    sp, k := h.SegmentHolding(h.top);
    h.NewestHoldsTop(if sp == 0 then 0 else k);
    if sp != 0 { h.SegReads(k); }
    h.SegReads(0);
    var head := Rd(h.mem, h.top + 8);
    var sz := head - head % 4;
    ok := sp != 0 && (h.top + 16) % 16 == 0 && h.top >= h.leastAddr && sz == h.topsize && sz > 0;
    ok := ok && sz == h.SegBaseAt(sp) + h.SegSizeAt(sp) - h.top - TOP_FOOT && PInuse(head) && !PInuse(Rd(h.mem, h.top + sz + 8));
  }

  lemma TopWords(m: Mem, x: Index, C: Tiling, ex: set<int>, A: Arena, gm: int)
    requires Core(m, x, C, ex, A, gm)
    ensures Rd(m, A.top + 8) == A.topsize + 1 && Rd(m, A.top + 8) % 4 == 1 && PInuse(Rd(m, A.top + 8)) && A.topsize > 0
    ensures !PInuse(Rd(m, A.top + A.topsize + 8)) && (A.top + 16) % 16 == 0 && A.top >= A.lo
  {
    hide IndexOk, Tagged, Fenced;
    var c := Chunk(A.topsize, false, true);
    Bits(c);
    HeadDecodes(c);
  }

  /** do_check_malloc_state: in a valid heap none of its assertions, nor of the checks it calls, can fail. */
  method CheckMallocState(h: Heap) returns (ok: bool)
    requires h.Valid() && Accounted(h.footprint, h.granted)
    ensures ok
  {
    hide Core, SegList, EmptyIndex, Checkable;
    ghost var x, A := h.Ix(), h.Ar();
    HeapCheckable(h);
    ok := true;
    for i := 0 to 32
      invariant ok
    {
      var good;
      ghost var met;
      good, met := CheckSmallbin(h.mem, h.smallmap, h.gm, h.leastAddr, h.dv, h.top, i, x, h.C, A);
      ok := ok && good;
    }
    for i := 0 to 32
      invariant ok
    {
      var good;
      ghost var seen;
      good, seen := CheckTreebin(h.mem, h.treemap, h.gm, h.leastAddr, i, h.dv, h.top, x, h.C, A);
      ok := ok && good;
    }
    if h.dvsize != 0 {
      var good := CheckDv(h);
      ok := ok && good;
    }
    if h.top != 0 {
      var good := CheckTop(h);
      ok := ok && good;
    }
    var good, total := TraverseAndCheck(h);
    ok := ok && good && total <= h.footprint && h.footprint <= h.maxFootprint;
  }

  lemma HeapCheckable(h: Heap)
    requires h.Valid()
    ensures Checkable(h.mem, h.gm, h.leastAddr, h.dv, h.top, h.Ix(), h.C, h.Ar()) && (h.dvsize != 0 ==> h.top != 0)
  {
    hide Core, SegList;
  }

  /** The checks on top: do_check_top_chunk, a positive size, and the bins do not hold it. */
  method CheckTop(h: Heap) returns (ok: bool)
    requires h.Valid() && h.top != 0
    ensures ok
  {
    hide Core, SegList;
    ghost var ex, A, x := {} + {h.dv}, h.Ar(), h.Ix();
    TopWords(h.mem, x, h.C, ex, A, h.gm);
    TopUnbinned(h.mem, x, h.C, ex, A, h.gm);
    ok := CheckTopChunk(h);
    var found := BinFind(h.mem, h.smallmap, h.treemap, h.gm, h.top, x, h.C, ex, A);
    ok := ok && h.topsize > 0 && !found;
  }

  lemma TopUnbinned(m: Mem, x: Index, C: Tiling, ex: set<int>, A: Arena, gm: int)
    requires Core(m, x, C, ex, A, gm)
    ensures A.top !in C && A.top !in x.B
  {
    hide IndexOk, Tagged, Fenced, Preceded, Owned;
    if A.top in C { assert TileOk(C, A.top, A); }
  }

  /** The checks on dv: its cached size is right and the bins do not hold it. */
  method CheckDv(h: Heap) returns (ok: bool)
    requires h.Valid() && h.top != 0 && h.dvsize != 0
    ensures ok
  {
    hide Core, SegList, ChunkSize;
    ghost var ex, A, x := {} + {h.dv}, h.Ar(), h.Ix();
    ChunkFacts(h.mem, x, h.C, ex, A, h.gm, h.dv);
    BinsHold(h.mem, x, h.C, ex, A, h.gm, h.dv);
    ok := AnyChunkOk(h.mem, h.leastAddr, h.dv);
    var found := BinFind(h.mem, h.smallmap, h.treemap, h.gm, h.dv, x, h.C, ex, A);
    ok := ok && h.dvsize == ChunkSize(Rd(h.mem, h.dv + 8)) && h.dvsize >= 32 && !found;
  }

  /** After any run of requests, with any placement of pages, every debug assertion holds. */
  method CheckAfterRun(gm: int, base: int, requests: seq<Request>) returns (ok: bool)
    requires gm > 0 && base > 0 && (gm + STATE_SIZE <= base || base + MAX_SIZE <= gm)
    requires forall k {:trigger requests[k]} :: 0 <= k < |requests| ==> Typed(requests[k])
    ensures ok
  {
    hide Heap.Valid, Holds, Heap.Blocks;
    var run := new Run(gm, base);
    var results;
    ghost var worlds, taken;
    results, worlds, taken := run.Execute(requests);
    ok := CheckMallocState(run.heap);
  }
}
