/** The tree bins as a whole: one trie node per size, with equal-sized chunks chained off it. */
module TreeBins {
  import opened Memory
  import opened Bitmap
  import opened SizeClass
  import opened Trie
  import opened Rings
  import opened SmallBins
  import opened TreeShape

  type Chains = map<int, seq<int>>

  function BinIndex(m: Mem, x: int): int { Rd(m, x + 56) }

  /** y holds size s and records its bin; only the chain head hangs in the trie. */
  ghost predicate Member(m: Mem, B: Stock, s: int, y: int, k: int)
    requires s >= 0
  {
    && y in B && B[y] == s && BinIndex(m, y) == TreeIndex(s)
    && (k > 0 ==> Parent(m, y) == 0 && Child(m, y, 0) == 0 && Child(m, y, 1) == 0)
  }

  ghost predicate ChainOk(m: Mem, ch: Chains, B: Stock, s: int)
    requires s in ch
  {
    && 256 <= s < MAX_SIZE
    && Ring(m, ch[s])
    && (forall k {:trigger Member(m, B, s, ch[s][k], k)} :: 0 <= k < |ch[s]| ==> Member(m, B, s, ch[s][k], k))
  }

  ghost predicate Chained(ch: Chains, B: Stock, y: int)
    requires y in B
  {
    B[y] >= 256 ==> B[y] in ch && y in ch[B[y]]
  }

  ghost predicate ChainsOk(m: Mem, ch: Chains, B: Stock) {
    && (forall s {:trigger ChainOk(m, ch, B, s)} :: s in ch ==> ChainOk(m, ch, B, s))
    && (forall y {:trigger Chained(ch, B, y)} :: y in B ==> Chained(ch, B, y))
  }

  ghost predicate HeadOk(t: Shape, ch: Chains, s: int)
    requires s in ch
  {
    s in t.depth && s in t.node && |ch[s]| > 0 && t.node[s] == ch[s][0]
  }

  /** The nodes of the tries are exactly the heads of the chains. */
  ghost predicate HeadsOk(t: Shape, ch: Chains) {
    && (forall s :: s in t.depth ==> s in ch)
    && (forall s {:trigger HeadOk(t, ch, s)} :: s in ch ==> HeadOk(t, ch, s))
  }

  ghost predicate Mapped(tm: Word32, t: Shape, i: int)
    requires 0 <= i < 32
  {
    tm[i] <==> Slot(i, 1) in t.pos
  }

  /** A treemap bit is set exactly when its bin has a root. */
  ghost predicate TreeMapOk(tm: Word32, t: Shape) {
    forall i {:trigger Mapped(tm, t, i)} :: 0 <= i < 32 ==> Mapped(tm, t, i)
  }

  ghost predicate TreeOk(m: Mem, tm: Word32, t: Shape, ch: Chains, B: Stock, gm: int) {
    ShapeOk(m, t, B, gm) && ChainsOk(m, ch, B) && HeadsOk(t, ch) && TreeMapOk(tm, t)
  }

  // ---------------------------------------------------------------- frames

  ghost predicate MemberKept(m: Mem, m': Mem, y: int, k: int) {
    && LinksKept(m, m', y) && BinIndex(m', y) == BinIndex(m, y)
    && (k > 0 ==> TreeWordsKept(m, m', y))
  }

  lemma ChainFrame(m: Mem, m': Mem, ch: Chains, ch': Chains, B: Stock, B': Stock, s: int)
    requires s in ch && s in ch' && ch'[s] == ch[s] && ChainOk(m, ch, B, s)
    requires forall k {:trigger ch[s][k]} :: 0 <= k < |ch[s]| ==>
               MemberKept(m, m', ch[s][k], k) && ch[s][k] in B' && B'[ch[s][k]] == s
    ensures ChainOk(m', ch', B', s)
  {
    var r := ch[s];
    RingFrame(m, m', r);
    forall k | 0 <= k < |r| ensures Member(m', B', s, r[k], k) {
      assert Member(m, B, s, r[k], k);
    }
  }

  lemma MemberIn(m: Mem, ch: Chains, B: Stock, s: int, k: int)
    requires ChainsOk(m, ch, B) && s in ch && 0 <= k < |ch[s]|
    ensures 256 <= s < MAX_SIZE && Member(m, B, s, ch[s][k], k)
  {
    assert ChainOk(m, ch, B, s);
    assert Member(m, B, s, ch[s][k], k);
  }

  /** Chunks outside the trees may change freely; the trees see nothing. */
  lemma TreeFrame(m: Mem, m': Mem, tm: Word32, t: Shape, ch: Chains, B: Stock, B': Stock, gm: int)
    requires TreeOk(m, tm, t, ch, B, gm)
    requires forall y {:trigger y in B'} :: y in B' && B'[y] >= 256 <==> y in B && B[y] >= 256
    requires forall y {:trigger B[y]} :: y in B && B[y] >= 256 ==>
               y in B' && B'[y] == B[y] && MemberKept(m, m', y, 1)
    requires forall i {:trigger TreeBin(gm, i)} :: 0 <= i < 32 ==> Rd(m', TreeBin(gm, i)) == Rd(m, TreeBin(gm, i))
    ensures TreeOk(m', tm, t, ch, B', gm)
  {
    forall s | s in t.depth && s in t.node
      ensures TreeWordsKept(m, m', t.node[s]) && t.node[s] in B' && (t.node[s] in B ==> B'[t.node[s]] == B[t.node[s]])
    {
      assert SizeOk(t, B, s);
    }
    ShapeFrame(m, m', t, B, B', gm);
    forall s | s in ch ensures ChainOk(m', ch, B', s) {
      assert ChainOk(m, ch, B, s);
      forall k | 0 <= k < |ch[s]| ensures MemberKept(m, m', ch[s][k], k) && ch[s][k] in B' && B'[ch[s][k]] == s {
        MemberIn(m, ch, B, s, k);
      }
      ChainFrame(m, m', ch, ch, B, B', s);
    }
    forall y | y in B' ensures Chained(ch, B', y) {
      if B'[y] >= 256 { assert Chained(ch, B, y); }
    }
  }

  /** a is a word the chain invariant reads of its k-th member y. */
  predicate Reads(y: int, k: int, a: int) {
    a == y + 16 || a == y + 24 || a == y + 56 || (k > 0 && y + 32 <= a <= y + 48)
  }

  lemma KeptByReads(m: Mem, m': Mem, y: int, k: int)
    requires forall a {:trigger Rd(m', a)} :: Reads(y, k, a) ==> Rd(m', a) == Rd(m, a)
    ensures MemberKept(m, m', y, k)
  {
  }

  /** B is the part of B0 still chained. */
  ghost predicate Within(B: Stock, B0: Stock) {
    forall y {:trigger B[y]} :: y in B ==> y in B0 && B0[y] == B[y]
  }

  /** p is a chain head, or no longer chained at all. */
  ghost predicate HeadOrGone(ch: Chains, B: Stock, p: int) {
    p in B ==> B[p] in ch && |ch[B[p]]| > 0 && ch[B[p]][0] == p
  }

  /** Trie words of a node matter to no chain: they belong to a head. */
  lemma HeadWordUnread(m: Mem, ch: Chains, B: Stock, B0: Stock, gm: int, lo: int, hi: int, u: int, k: int, p: int, a: int)
    requires ChainsOk(m, ch, B) && Within(B, B0) && Placed(B0, lo, hi, gm)
    requires u in ch && 0 <= k < |ch[u]|
    requires p in B0 && B0[p] >= 256 && HeadOrGone(ch, B, p) && p + 32 <= a < p + 56
    ensures !Reads(ch[u][k], k, a)
  {
    MemberIn(m, ch, B, u, k);
    var y := ch[u][k];
    if y == p {
      assert ChainOk(m, ch, B, u);
      if k > 0 { ApartAt(ch[u], 0, k); }
    } else {
      LargeApart(B0, lo, hi, gm, y, p);
    }
  }

  lemma NodeWordUnread(m: Mem, t: Shape, ch: Chains, B: Stock, gm: int, lo: int, hi: int, u: int, k: int, w: int, a: int)
    requires ShapeOk(m, t, B, gm) && ChainsOk(m, ch, B) && HeadsOk(t, ch) && Placed(B, lo, hi, gm)
    requires u in ch && 0 <= k < |ch[u]| && w in t.depth && w in t.node
    requires t.node[w] + 32 <= a <= t.node[w] + 48
    ensures !Reads(ch[u][k], k, a)
  {
    assert SizeOk(t, B, w);
    assert HeadOk(t, ch, w);
    HeadWordUnread(m, ch, B, B, gm, lo, hi, u, k, t.node[w], a);
  }

  lemma StateUnread(m: Mem, ch: Chains, B: Stock, gm: int, lo: int, hi: int, u: int, k: int, i: int)
    requires ChainsOk(m, ch, B) && Placed(B, lo, hi, gm) && u in ch && 0 <= k < |ch[u]| && 0 <= i < 32
    ensures !Reads(ch[u][k], k, TreeBin(gm, i))
  {
    MemberIn(m, ch, B, u, k);
    OffState(B, lo, hi, gm, ch[u][k]);
  }

  lemma LinkUnread(m: Mem, t: Shape, ch: Chains, B: Stock, gm: int, lo: int, hi: int, s: int, d: nat, u: int, k: int)
    requires ShapeOk(m, t, B, gm) && ChainsOk(m, ch, B) && HeadsOk(t, ch) && Placed(B, lo, hi, gm)
    requires s >= 0 && (d > 0 ==> SlotAt(s, d - 1) in t.pos)
    requires u in ch && 0 <= k < |ch[u]|
    ensures !Reads(ch[u][k], k, LinkWord(t, gm, s, d))
  {
    hide TreeIndex, Key;
    if d == 0 {
      StateUnread(m, ch, B, gm, lo, hi, u, k, TreeIndex(s));
    } else {
      var j := SlotAt(s, d - 1);
      assert NodeOk(m, t, gm, j);
      NodeWordUnread(m, t, ch, B, gm, lo, hi, u, k, t.pos[j], LinkWord(t, gm, s, d));
    }
  }

  // ---------------------------------------------------------------- insert_large_chunk

  lemma StockGrows(m: Mem, t: Shape, B: Stock, gm: int, x: int, s: int)
    requires ShapeOk(m, t, B, gm) && x !in B
    ensures ShapeOk(m, t, B[x := s], gm)
  {
    forall u | u in t.depth && u in t.node
      ensures TreeWordsKept(m, m, t.node[u]) && t.node[u] in B[x := s] && (t.node[u] in B ==> B[x := s][t.node[u]] == B[t.node[u]])
    {
      assert SizeOk(t, B, u);
    }
    ShapeFrame(m, m, t, B, B[x := s], gm);
  }

  lemma PlacedShrinks(B: Stock, lo: int, hi: int, gm: int, x: int, s: int)
    requires x !in B && Placed(B[x := s], lo, hi, gm)
    ensures Placed(B, lo, hi, gm)
  {
    var B' := B[x := s];
    forall p | p in B ensures InPlace(B, p, lo, hi) { assert InPlace(B', p, lo, hi); }
    forall p, q | p in B && q in B ensures Disjoint(B, p, q) { assert Disjoint(B', p, q); }
  }

  lemma NewChainOther(m: Mem, m': Mem, t: Shape, ch: Chains, B: Stock, gm: int, lo: int, hi: int, x: int, s: int, d: nat, u: int)
    requires ShapeOk(m, t, B, gm) && ChainsOk(m, ch, B) && HeadsOk(t, ch)
    requires x !in B && Placed(B[x := s], lo, hi, gm) && Vacant(t, s, d)
    requires LinkedTo(m, m', LinkWord(t, gm, s, d), x, x) && u in ch && u != s
    ensures ChainOk(m', ch[s := [x]], B[x := s], u)
  {
    hide TreeIndex, Key, LinkWord;
    var B' := B[x := s];
    PlacedShrinks(B, lo, hi, gm, x, s);
    forall k | 0 <= k < |ch[u]| ensures MemberKept(m, m', ch[u][k], k) && ch[u][k] in B' && B'[ch[u][k]] == u {
      MemberIn(m, ch, B, u, k);
      LinkUnread(m, t, ch, B, gm, lo, hi, s, d, u, k);
      LargeApart(B', lo, hi, gm, ch[u][k], x);
      KeptByReads(m, m', ch[u][k], k);
    }
    assert ChainOk(m, ch, B, u);
    ChainFrame(m, m', ch, ch[s := [x]], B, B', u);
  }

  lemma NewChainSelf(m: Mem, ch: Chains, B: Stock, x: int, s: int)
    requires 256 <= s < MAX_SIZE && Fd(m, x) == x && Bk(m, x) == x && BinIndex(m, x) == TreeIndex(s)
    ensures ChainOk(m, ch[s := [x]], B[x := s], s)
  {
    assert Hop(m, [x], 0);
    assert Member(m, B[x := s], s, [x][0], 0);
  }

  /** A size not yet stored becomes a new trie node with a chain of one. */
  lemma InsertNewSize(m: Mem, m': Mem, tm: Word32, t: Shape, ch: Chains, B: Stock, gm: int, lo: int, hi: int, x: int, s: int, d: nat)
    requires TreeOk(m, tm, t, ch, B, gm) && x !in B && Placed(B[x := s], lo, hi, gm) && Vacant(t, s, d)
    requires LinkedTo(m, m', LinkWord(t, gm, s, d), x, x)
    requires Child(m', x, 0) == 0 && Child(m', x, 1) == 0 && Parent(m', x) == ParentWord(t, gm, s, d)
    requires Fd(m', x) == x && Bk(m', x) == x && BinIndex(m', x) == TreeIndex(s)
    ensures TreeOk(m', if d == 0 then Or(tm, Bit(TreeIndex(s))) else tm, Attached(t, s, d, x), ch[s := [x]], B[x := s], gm)
  {
    hide TreeIndex, Key, LinkWord, ParentWord, NodeOk, RootOk;
    var B', t', ch' := B[x := s], Attached(t, s, d, x), ch[s := [x]];
    StockGrows(m, t, B, gm, x, s);
    Attach(m, m', t, B', gm, lo, hi, s, d, x);
    forall u | u in ch' ensures ChainOk(m', ch', B', u) {
      if u == s { NewChainSelf(m', ch, B, x, s); } else { NewChainOther(m, m', t, ch, B, gm, lo, hi, x, s, d, u); }
    }
    forall y | y in B' ensures Chained(ch', B', y) {
      if y == x { assert [x][0] == x; } else { NewChainKeeps(m, t, ch, B, x, s, y); }
    }
    forall u | u in ch' ensures HeadOk(t', ch', u) {
      if u != s { assert HeadOk(t, ch, u); }
    }
    MapAttached(tm, t, s, d, x);
  }

  lemma NewChainKeeps(m: Mem, t: Shape, ch: Chains, B: Stock, x: int, s: int, y: int)
    requires ChainsOk(m, ch, B) && HeadsOk(t, ch) && s !in t.depth && y in B && y != x
    ensures Chained(ch[s := [x]], B[x := s], y)
  {
    assert Chained(ch, B, y);
    if B[y] >= 256 { assert HeadOk(t, ch, B[y]); }
  }

  lemma MapAttached(tm: Word32, t: Shape, s: int, d: nat, x: int)
    requires TreeMapOk(tm, t) && s >= 0
    ensures TreeMapOk(if d == 0 then Or(tm, Bit(TreeIndex(s))) else tm, Attached(t, s, d, x))
  {
    hide TreeIndex, Key;
    var tm' := if d == 0 then Or(tm, Bit(TreeIndex(s))) else tm;
    assert d > 0 ==> SlotAt(s, d).id >= 2;
    forall i | 0 <= i < 32 ensures Mapped(tm', Attached(t, s, d, x), i) {
      assert Mapped(tm, t, i);
    }
  }

  /** T->fd = F->bk = X; X->fd = F; X->bk = T; X->parent = 0, after X's index and children are set. */
  function ChainMem(m: Mem, i: int, x: int, h: int, f: int): Mem {
    LinkIn(m[x + 56 := i][x + 40 := 0][x + 32 := 0], h, f, x)[x + 48 := 0]
  }

  lemma ChainMemReads(m: Mem, i: int, x: int, h: int, f: int)
    requires (h + 256 <= x || x + 256 <= h) && (f + 256 <= x || x + 256 <= f)
    ensures var m' := ChainMem(m, i, x, h, f);
            && BinIndex(m', x) == i && Parent(m', x) == 0 && Child(m', x, 0) == 0 && Child(m', x, 1) == 0
            && forall a {:trigger Rd(m', a)} :: (a != h + 16 && a != f + 24 && (a < x + 16 || a >= x + 64)) ==> Rd(m', a) == Rd(m, a)
  {
  }

  lemma ChainRing(m: Mem, i: int, x: int, r: seq<int>)
    requires Ring(m, r) && (forall k {:trigger r[k]} :: 0 <= k < |r| ==> r[k] + 256 <= x || x + 256 <= r[k])
    ensures Ring(ChainMem(m, i, x, r[0], Next(r, 0)), [r[0], x] + r[1..])
  {
    var m1 := m[x + 56 := i][x + 40 := 0][x + 32 := 0];
    RingFrame(m, m1, r);
    RingInsert(m1, r, x);
    var m2, s := LinkIn(m1, r[0], Next(r, 0), x), [r[0], x] + r[1..];
    forall k | 0 <= k < |s| ensures Fd(m2[x + 48 := 0], s[k]) == Fd(m2, s[k]) && Bk(m2[x + 48 := 0], s[k]) == Bk(m2, s[k]) {
      assert k >= 2 ==> s[k] == r[k - 1];
    }
    RingFrame(m2, m2[x + 48 := 0], s);
  }

  /** Nodes keep their trie words when only links of chunks and fields of a non-node change. */
  lemma ShapeSurvivesLinks(m: Mem, m': Mem, t: Shape, B: Stock, B': Stock, gm: int, lo: int, hi: int, h: int, f: int, x: int)
    requires ShapeOk(m, t, B, gm) && Placed(B, lo, hi, gm)
    requires h in B && B[h] >= 256 && f in B && B[f] >= 256 && x in B && B[x] >= 256
    requires forall u {:trigger t.node[u]} :: u in t.depth && u in t.node ==> t.node[u] != x && t.node[u] in B' && (t.node[u] in B ==> B'[t.node[u]] == B[t.node[u]])
    requires forall a {:trigger Rd(m', a)} :: (a != h + 16 && a != f + 24 && (a < x + 16 || a >= x + 64)) ==> Rd(m', a) == Rd(m, a)
    ensures ShapeOk(m', t, B', gm)
  {
    forall u | u in t.depth && u in t.node
      ensures TreeWordsKept(m, m', t.node[u]) && t.node[u] in B' && (t.node[u] in B ==> B'[t.node[u]] == B[t.node[u]])
    {
      assert SizeOk(t, B, u);
      var y := t.node[u];
      LargeApart(B, lo, hi, gm, x, y);
      if h != y { LargeApart(B, lo, hi, gm, h, y); }
      if f != y { LargeApart(B, lo, hi, gm, f, y); }
    }
    forall i | 0 <= i < 32 ensures Rd(m', TreeBin(gm, i)) == Rd(m, TreeBin(gm, i)) {
      OffState(B, lo, hi, gm, x);
      OffState(B, lo, hi, gm, h);
      OffState(B, lo, hi, gm, f);
    }
    ShapeFrame(m, m', t, B, B', gm);
  }

  /** Chains of other sizes keep every word when one chain is relinked around x. */
  lemma OtherChain(m: Mem, m': Mem, ch: Chains, ch': Chains, B: Stock, B': Stock, B0: Stock, gm: int, lo: int, hi: int,
                   h: int, f: int, x: int, s: int, u: int)
    requires ChainsOk(m, ch, B) && Within(B, B0) && Placed(B0, lo, hi, gm) && s >= 256
    requires h in B0 && B0[h] == s && f in B0 && B0[f] == s && x in B0 && B0[x] == s
    requires forall a {:trigger Rd(m', a)} :: (a != h + 16 && a != f + 24 && (a < x + 16 || a >= x + 64)) ==> Rd(m', a) == Rd(m, a)
    requires u in ch && u != s && u in ch' && ch'[u] == ch[u]
    requires forall y {:trigger y in B'} :: y in B && y != x ==> y in B' && B'[y] == B[y]
    ensures ChainOk(m', ch', B', u)
  {
    forall k | 0 <= k < |ch[u]| ensures MemberKept(m, m', ch[u][k], k) && ch[u][k] in B' && B'[ch[u][k]] == u {
      MemberIn(m, ch, B, u, k);
      var y := ch[u][k];
      LargeApart(B0, lo, hi, gm, h, y);
      LargeApart(B0, lo, hi, gm, f, y);
      LargeApart(B0, lo, hi, gm, x, y);
      KeptByReads(m, m', y, k);
    }
    assert ChainOk(m, ch, B, u);
    ChainFrame(m, m', ch, ch', B, B', u);
  }

  /** What insert_large_chunk finds when the size is already stored. */
  lemma ChainHead(m: Mem, t: Shape, ch: Chains, B: Stock, s: int)
    requires ChainsOk(m, ch, B) && HeadsOk(t, ch) && s in ch
    ensures |ch[s]| > 0 && s >= 256 && ch[s][0] in B && B[ch[s][0]] == s
    ensures Next(ch[s], 0) in B && B[Next(ch[s], 0)] == s && Fd(m, ch[s][0]) == Next(ch[s], 0)
  {
    assert HeadOk(t, ch, s);
    assert ChainOk(m, ch, B, s);
    MemberIn(m, ch, B, s, 0);
    if |ch[s]| > 1 { MemberIn(m, ch, B, s, 1); }
    assert Hop(m, ch[s], 0);
  }

  lemma ChainedSelf(m: Mem, ch: Chains, B: Stock, gm: int, lo: int, hi: int, x: int, s: int)
    requires ChainsOk(m, ch, B) && s in ch && s >= 256 && |ch[s]| > 0 && x !in B && Placed(B[x := s], lo, hi, gm)
    ensures var r := ch[s];
            ChainOk(ChainMem(m, TreeIndex(s), x, r[0], Next(r, 0)), ch[s := [r[0], x] + r[1..]], B[x := s], s)
  {
    hide TreeIndex;
    var r, B' := ch[s], B[x := s];
    var m', r' := ChainMem(m, TreeIndex(s), x, r[0], Next(r, 0)), [r[0], x] + r[1..];
    assert ChainOk(m, ch, B, s);
    forall k | 0 <= k < |r| ensures r[k] + 256 <= x || x + 256 <= r[k] {
      MemberIn(m, ch, B, s, k);
      LargeApart(B', lo, hi, gm, r[k], x);
    }
    ChainRing(m, TreeIndex(s), x, r);
    ChainMemReads(m, TreeIndex(s), x, r[0], Next(r, 0));
    forall k | 0 <= k < |r'| ensures Member(m', B', s, r'[k], k) {
      if k != 1 {
        var o := if k == 0 then 0 else k - 1;
        assert r'[k] == r[o];
        MemberIn(m, ch, B, s, o);
        MemberTreeWords(m, ch, B, gm, lo, hi, x, s, o);
      }
    }
  }

  /** Linking in at the head writes no trie word or index of an existing member. */
  lemma MemberTreeWords(m: Mem, ch: Chains, B: Stock, gm: int, lo: int, hi: int, x: int, s: int, o: int)
    requires ChainsOk(m, ch, B) && s in ch && s >= 256 && 0 <= o < |ch[s]| && x !in B && Placed(B[x := s], lo, hi, gm)
    ensures var r := ch[s];
            var m' := ChainMem(m, TreeIndex(s), x, r[0], Next(r, 0));
            TreeWordsKept(m, m', r[o]) && BinIndex(m', r[o]) == BinIndex(m, r[o])
  {
    hide TreeIndex;
    var r, B' := ch[s], B[x := s];
    var f := if 1 < |r| then 1 else 0;
    MemberIn(m, ch, B, s, 0);
    MemberIn(m, ch, B, s, f);
    MemberIn(m, ch, B, s, o);
    LargeApart(B', lo, hi, gm, r[0], x);
    LargeApart(B', lo, hi, gm, r[f], x);
    LargeApart(B', lo, hi, gm, r[o], x);
    if r[o] != r[0] { LargeApart(B', lo, hi, gm, r[o], r[0]); }
    if r[o] != r[f] { LargeApart(B', lo, hi, gm, r[o], r[f]); }
    ChainMemReads(m, TreeIndex(s), x, r[0], r[f]);
  }

  /** A size already stored: x joins its chain just after the trie node, and the tries do not change. */
  lemma InsertChained(m: Mem, tm: Word32, t: Shape, ch: Chains, B: Stock, gm: int, lo: int, hi: int, x: int, s: int)
    requires TreeOk(m, tm, t, ch, B, gm) && s in ch && s >= 256 && |ch[s]| > 0 && x !in B && Placed(B[x := s], lo, hi, gm)
    ensures var r := ch[s];
            TreeOk(ChainMem(m, TreeIndex(s), x, r[0], Next(r, 0)), tm, t, ch[s := [r[0], x] + r[1..]], B[x := s], gm)
  {
    hide TreeIndex, Key, NodeOk, RootOk;
    var r, B' := ch[s], B[x := s];
    var m', ch' := ChainMem(m, TreeIndex(s), x, r[0], Next(r, 0)), ch[s := [r[0], x] + r[1..]];
    ChainHead(m, t, ch, B, s);
    StockGrows(m, t, B, gm, x, s);
    LargeApart(B', lo, hi, gm, r[0], x);
    LargeApart(B', lo, hi, gm, Next(r, 0), x);
    ChainMemReads(m, TreeIndex(s), x, r[0], Next(r, 0));
    forall u | u in t.depth && u in t.node ensures t.node[u] != x && t.node[u] in B' { assert SizeOk(t, B, u); }
    ShapeSurvivesLinks(m, m', t, B', B', gm, lo, hi, r[0], Next(r, 0), x);
    forall u | u in ch' ensures ChainOk(m', ch', B', u) {
      if u == s {
        ChainedSelf(m, ch, B, gm, lo, hi, x, s);
      } else {
        OtherChain(m, m', ch, ch', B, B', B', gm, lo, hi, r[0], Next(r, 0), x, s, u);
      }
    }
    forall y | y in B' ensures Chained(ch', B', y) {
      if y == x {
        assert ch'[s][1] == x;
      } else {
        assert Chained(ch, B, y);
        if B[y] == s {
          var k :| 0 <= k < |r| && r[k] == y;
          assert ch'[s][if k == 0 then 0 else k + 1] == y;
        }
      }
    }
    forall u | u in ch' ensures HeadOk(t, ch', u) { assert HeadOk(t, ch, u); }
  }
}
