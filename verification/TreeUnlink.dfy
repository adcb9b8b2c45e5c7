/** unlink_large_chunk: leaving a chain, handing a trie node to its chain, or replacing it by a leaf. */
module TreeUnlink {
  import opened Memory
  import opened Bitmap
  import opened SizeClass
  import opened Trie
  import opened Rings
  import opened SmallBins
  import opened TreeShape
  import opened TreeBins

  function Prev(r: seq<int>, j: int): int
    requires 0 <= j < |r|
  {
    if j == 0 then r[|r| - 1] else r[j - 1]
  }

  /** The ring without element j; when the head leaves, its bk neighbour becomes the head. */
  function Dropped(r: seq<int>, j: int): seq<int>
    requires 0 <= j < |r| && |r| >= 2
  {
    if j == 0 then [r[|r| - 1]] + r[1..|r| - 1] else Without(r, j)
  }

  lemma RingDrop(m: Mem, r: seq<int>, j: int)
    requires Ring(m, r) && |r| >= 2 && 0 <= j < |r|
    ensures Ring(LinkOut(m, Prev(r, j), Next(r, j)), Dropped(r, j))
  {
    if j == 0 {
      var n := |r|;
      var q := [r[n - 1]] + r[..n - 1];
      RingRotate(m, r);
      RingRemove(m, q, 1);
      assert q[..1] + q[2..] == Dropped(r, 0);
      assert Next(q, 1) == Next(r, 0);
    } else {
      RingRemove(m, r, j);
    }
  }

  /** Where x sits in its chain and what unlink_large_chunk reads there. */
  lemma LocateLarge(m: Mem, t: Shape, ch: Chains, B: Stock, gm: int, lo: int, hi: int, x: int) returns (j: int)
    requires ShapeOk(m, t, B, gm) && ChainsOk(m, ch, B) && HeadsOk(t, ch) && Placed(B, lo, hi, gm) && lo > 0 && gm > 0
    requires x in B && B[x] >= 256
    ensures var s := B[x];
            && s in ch && 0 <= j < |ch[s]| && ch[s][j] == x
            && Bk(m, x) == Prev(ch[s], j) && Fd(m, x) == Next(ch[s], j)
            && Bk(m, Fd(m, x)) == x && Fd(m, Bk(m, x)) == x
            && (Bk(m, x) != x <==> |ch[s]| > 1)
            && Bk(m, x) in B && B[Bk(m, x)] == s && Fd(m, x) in B && B[Fd(m, x)] == s
            && (j == 0 <==> Parent(m, x) != 0)
            && BinIndex(m, x) == TreeIndex(s)
            && (j == 0 ==> s in t.depth && s in t.node && t.node[s] == x)
  {
    hide TreeIndex, Key;
    assert Chained(ch, B, x);
    var s := B[x];
    var r := ch[s];
    j :| 0 <= j < |r| && r[j] == x;
    assert ChainOk(m, ch, B, s);
    assert HeadOk(t, ch, s);
    MemberIn(m, ch, B, s, j);
    var p := if j == 0 then |r| - 1 else j - 1;
    var n := if j + 1 < |r| then j + 1 else 0;
    assert Hop(m, r, j) && Hop(m, r, p);
    MemberIn(m, ch, B, s, p);
    MemberIn(m, ch, B, s, n);
    if |r| > 1 { ApartAt(r, j, p); }
    if j == 0 { NodeHasParent(m, t, B, gm, lo, hi, s); }
  }

  lemma NodeHasParent(m: Mem, t: Shape, B: Stock, gm: int, lo: int, hi: int, s: int)
    requires ShapeOk(m, t, B, gm) && Placed(B, lo, hi, gm) && lo > 0 && gm > 0 && s in t.depth && s >= 0
    ensures s in t.node && Parent(m, t.node[s]) != 0
    ensures Parent(m, t.node[s]) == ParentWord(t, gm, s, t.depth[s])
    ensures t.depth[s] > 0 ==> var k := SlotAt(s, t.depth[s] - 1);
              k in t.pos && t.pos[k] in t.depth && t.pos[k] in t.node && At(t, k) == t.node[t.pos[k]] && At(t, k) in B && B[At(t, k)] >= 256
  {
    hide TreeIndex, Key;
    assert SizeOk(t, B, s);
    assert NodeOk(m, t, gm, SlotAt(s, t.depth[s]));
    if t.depth[s] > 0 {
      var k := SlotAt(s, t.depth[s] - 1);
      assert NodeOk(m, t, gm, k);
      assert SizeOk(t, B, t.pos[k]);
      OffState(B, lo, hi, gm, t.node[t.pos[k]]);
    }
  }

  lemma LinkOutReads(m: Mem, h: int, f: int)
    requires h == f || h + 256 <= f || f + 256 <= h
    ensures var m' := LinkOut(m, h, f);
            forall a {:trigger Rd(m', a)} :: a != h + 16 && a != f + 24 ==> Rd(m', a) == Rd(m, a)
  {
  }

  lemma ShapeSurvivesLinkOut(m: Mem, t: Shape, B: Stock, gm: int, lo: int, hi: int, h: int, f: int)
    requires ShapeOk(m, t, B, gm) && Placed(B, lo, hi, gm)
    requires h in B && B[h] >= 256 && f in B && B[f] >= 256
    ensures ShapeOk(LinkOut(m, h, f), t, B, gm)
  {
    var m' := LinkOut(m, h, f);
    forall u | u in t.depth && u in t.node
      ensures TreeWordsKept(m, m', t.node[u]) && t.node[u] in B
    {
      assert SizeOk(t, B, u);
      var y := t.node[u];
      if h != y { LargeApart(B, lo, hi, gm, h, y); }
      if f != y { LargeApart(B, lo, hi, gm, f, y); }
    }
    forall i | 0 <= i < 32 ensures Rd(m', TreeBin(gm, i)) == Rd(m, TreeBin(gm, i)) {
      OffState(B, lo, hi, gm, h);
      OffState(B, lo, hi, gm, f);
    }
    ShapeFrame(m, m', t, B, B, gm);
  }

  /** A chunk that is not a trie node may leave the stock without touching the tries. */
  lemma StockShrinks(m: Mem, t: Shape, B: Stock, gm: int, x: int)
    requires ShapeOk(m, t, B, gm) && (forall u {:trigger t.node[u]} :: u in t.depth && u in t.node ==> t.node[u] != x)
    ensures ShapeOk(m, t, B - {x}, gm)
  {
    forall u | u in t.depth && u in t.node
      ensures TreeWordsKept(m, m, t.node[u]) && t.node[u] in B - {x} && (B - {x})[t.node[u]] == B[t.node[u]]
    {
      assert SizeOk(t, B, u);
    }
    ShapeFrame(m, m, t, B, B - {x}, gm);
  }

  lemma DroppedIndex(r: seq<int>, j: int, k: int) returns (o: int)
    requires 0 <= j < |r| && |r| >= 2 && 0 <= k < |r| - 1
    ensures 0 <= o < |r| && o != j && Dropped(r, j)[k] == r[o] && (k > 0 ==> o > 0)
  {
    o := if j == 0 then (if k == 0 then |r| - 1 else k) else if k < j then k else k + 1;
  }

  lemma ChainDropSelf(m: Mem, ch: Chains, B: Stock, gm: int, lo: int, hi: int, x: int, s: int, j: int)
    requires ChainsOk(m, ch, B) && Placed(B, lo, hi, gm) && s in ch && |ch[s]| >= 2 && 0 <= j < |ch[s]| && ch[s][j] == x
    ensures ChainOk(LinkOut(m, Prev(ch[s], j), Next(ch[s], j)), ch[s := Dropped(ch[s], j)], B - {x}, s)
  {
    hide TreeIndex, Key;
    var r, B' := ch[s], B - {x};
    var h, f := Prev(r, j), Next(r, j);
    var m', r' := LinkOut(m, h, f), Dropped(r, j);
    assert ChainOk(m, ch, B, s);
    RingDrop(m, r, j);
    MemberIn(m, ch, B, s, if j == 0 then |r| - 1 else j - 1);
    MemberIn(m, ch, B, s, if j + 1 < |r| then j + 1 else 0);
    forall k | 0 <= k < |r'| ensures Member(m', B', s, r'[k], k) {
      var o := DroppedIndex(r, j, k);
      MemberIn(m, ch, B, s, o);
      ApartAt(r, o, j);
      if r[o] != h { LargeApart(B, lo, hi, gm, r[o], h); }
      if r[o] != f { LargeApart(B, lo, hi, gm, r[o], f); }
    }
  }

  lemma ChainDropOther(m: Mem, ch: Chains, B: Stock, gm: int, lo: int, hi: int, x: int, s: int, j: int, u: int)
    requires ChainsOk(m, ch, B) && Placed(B, lo, hi, gm) && s in ch && |ch[s]| >= 2 && 0 <= j < |ch[s]| && ch[s][j] == x
    requires u in ch && u != s
    ensures ChainOk(LinkOut(m, Prev(ch[s], j), Next(ch[s], j)), ch[s := Dropped(ch[s], j)], B - {x}, u)
  {
    var r := ch[s];
    var h, f := Prev(r, j), Next(r, j);
    assert ChainOk(m, ch, B, s);
    MemberIn(m, ch, B, s, j);
    MemberIn(m, ch, B, s, if j == 0 then |r| - 1 else j - 1);
    MemberIn(m, ch, B, s, if j + 1 < |r| then j + 1 else 0);
    if h != f { LargeApart(B, lo, hi, gm, h, f); }
    LinkOutReads(m, h, f);
    OtherChain(m, LinkOut(m, h, f), ch, ch[s := Dropped(r, j)], B, B - {x}, B, gm, lo, hi, h, f, x, s, u);
  }

  /** Taking x out of a chain of two or more leaves every chain in order and the stock without exactly x. */
  lemma ChainDrop(m: Mem, ch: Chains, B: Stock, gm: int, lo: int, hi: int, x: int, s: int, j: int)
    requires ChainsOk(m, ch, B) && Placed(B, lo, hi, gm) && s in ch && |ch[s]| >= 2 && 0 <= j < |ch[s]| && ch[s][j] == x
    ensures ChainsOk(LinkOut(m, Prev(ch[s], j), Next(ch[s], j)), ch[s := Dropped(ch[s], j)], B - {x})
  {
    var r, B' := ch[s], B - {x};
    var m', ch' := LinkOut(m, Prev(r, j), Next(r, j)), ch[s := Dropped(r, j)];
    forall u | u in ch' ensures ChainOk(m', ch', B', u) {
      if u == s { ChainDropSelf(m, ch, B, gm, lo, hi, x, s, j); } else { ChainDropOther(m, ch, B, gm, lo, hi, x, s, j, u); }
    }
    forall y | y in B' ensures Chained(ch', B', y) {
      assert Chained(ch, B, y);
      if B[y] == s && B[y] >= 256 {
        var k :| 0 <= k < |r| && r[k] == y;
        DroppedHas(r, j, k);
      }
    }
  }

  lemma DroppedHas(r: seq<int>, j: int, k: int)
    requires 0 <= j < |r| && |r| >= 2 && 0 <= k < |r| && k != j
    ensures r[k] in Dropped(r, j)
  {
    var r' := Dropped(r, j);
    if j == 0 {
      assert r[k] == r'[if k == |r| - 1 then 0 else k];
    } else {
      assert r[k] == r'[if k < j then k else k - 1];
    }
  }

  /** x is chained off a trie node: only its chain changes. */
  lemma UnlinkChained(m: Mem, tm: Word32, t: Shape, ch: Chains, B: Stock, gm: int, lo: int, hi: int, x: int, s: int, j: int)
    requires TreeOk(m, tm, t, ch, B, gm) && Placed(B, lo, hi, gm)
    requires s in ch && 1 <= j < |ch[s]| && ch[s][j] == x
    ensures TreeOk(LinkOut(m, Prev(ch[s], j), Next(ch[s], j)), tm, t, ch[s := Dropped(ch[s], j)], B - {x}, gm)
  {
    hide TreeIndex, Key, NodeOk, RootOk;
    var r := ch[s];
    var h, f := Prev(r, j), Next(r, j);
    MemberIn(m, ch, B, s, j - 1);
    MemberIn(m, ch, B, s, j);
    MemberIn(m, ch, B, s, if j + 1 < |r| then j + 1 else 0);
    ShapeSurvivesLinkOut(m, t, B, gm, lo, hi, h, f);
    forall u | u in t.depth && u in t.node ensures t.node[u] != x {
      assert SizeOk(t, B, u);
      assert HeadOk(t, ch, s);
      assert ChainOk(m, ch, B, s);
      ApartAt(r, 0, j);
    }
    StockShrinks(LinkOut(m, h, f), t, B, gm, x);
    ChainDrop(m, ch, B, gm, lo, hi, x, s, j);
    forall u | u in ch ensures HeadOk(t, ch[s := Dropped(r, j)], u) { assert HeadOk(t, ch, u); }
  }

  // ---------------------------------------------------------------- x is a trie node

  lemma ChainsFrame(m: Mem, m': Mem, ch: Chains, B: Stock)
    requires ChainsOk(m, ch, B)
    requires forall u, k {:trigger ch[u][k]} :: u in ch && 0 <= k < |ch[u]| ==> MemberKept(m, m', ch[u][k], k)
    ensures ChainsOk(m', ch, B)
  {
    forall u | u in ch ensures ChainOk(m', ch, B, u) {
      assert ChainOk(m, ch, B, u);
      forall k | 0 <= k < |ch[u]| ensures MemberKept(m, m', ch[u][k], k) && ch[u][k] in B && B[ch[u][k]] == u {
        MemberIn(m, ch, B, u, k);
      }
      ChainFrame(m, m', ch, ch, B, B, u);
    }
  }

  /** Hanging r in x's place writes only trie words, so no chain notices. */
  lemma HungChains(m: Mem, m': Mem, t: Shape, ch: Chains, B: Stock, B0: Stock, gm: int, lo: int, hi: int, s: int, r: int)
    requires ShapeOk(m, t, B0, gm) && ChainsOk(m, ch, B) && Within(B, B0) && Placed(B0, lo, hi, gm) && lo > 0
    requires s in t.depth && s >= 0 && s in t.node && r in B0 && B0[r] >= 256
    requires Hung(m, m', LinkWord(t, gm, s, t.depth[s]), t.node[s], r)
    requires HeadOrGone(ch, B, r) && (forall w {:trigger t.node[w]} :: w in t.depth && w in t.node ==> HeadOrGone(ch, B, t.node[w]))
    ensures ChainsOk(m', ch, B)
  {
    hide TreeIndex, Key, LinkWord;
    forall u, k | u in ch && 0 <= k < |ch[u]| ensures MemberKept(m, m', ch[u][k], k) {
      HungMember(m, m', t, ch, B, B0, gm, lo, hi, s, r, u, k);
    }
    ChainsFrame(m, m', ch, B);
  }

  lemma HungMember(m: Mem, m': Mem, t: Shape, ch: Chains, B: Stock, B0: Stock, gm: int, lo: int, hi: int, s: int, r: int, u: int, k: int)
    requires ShapeOk(m, t, B0, gm) && ChainsOk(m, ch, B) && Within(B, B0) && Placed(B0, lo, hi, gm) && lo > 0
    requires s in t.depth && s >= 0 && s in t.node && r in B0 && B0[r] >= 256
    requires Hung(m, m', LinkWord(t, gm, s, t.depth[s]), t.node[s], r)
    requires HeadOrGone(ch, B, r) && (forall w {:trigger t.node[w]} :: w in t.depth && w in t.node ==> HeadOrGone(ch, B, t.node[w]))
    requires u in ch && 0 <= k < |ch[u]|
    ensures MemberKept(m, m', ch[u][k], k)
  {
    hide TreeIndex, Key, LinkWord;
    var y := ch[u][k];
    var c0, c1 := Child(m, t.node[s], 0), Child(m, t.node[s], 1);
    ChildIsNode(m, t, B0, gm, lo, hi, s, 0);
    ChildIsNode(m, t, B0, gm, lo, hi, s, 1);
    forall a | Reads(y, k, a) ensures Rd(m', a) == Rd(m, a) {
      HungLinkUnread(m, t, ch, B, B0, gm, lo, hi, s, u, k);
      if r + 32 <= a < r + 56 { HeadWordUnread(m, ch, B, B0, gm, lo, hi, u, k, r, a); }
      if c0 != 0 && a == c0 + 48 { HeadWordUnread(m, ch, B, B0, gm, lo, hi, u, k, c0, a); }
      if c1 != 0 && a == c1 + 48 { HeadWordUnread(m, ch, B, B0, gm, lo, hi, u, k, c1, a); }
    }
    KeptByReads(m, m', y, k);
  }

  lemma HungLinkUnread(m: Mem, t: Shape, ch: Chains, B: Stock, B0: Stock, gm: int, lo: int, hi: int, s: int, u: int, k: int)
    requires ShapeOk(m, t, B0, gm) && ChainsOk(m, ch, B) && Within(B, B0) && Placed(B0, lo, hi, gm)
    requires s in t.depth && s >= 0
    requires forall w {:trigger t.node[w]} :: w in t.depth && w in t.node ==> HeadOrGone(ch, B, t.node[w])
    requires u in ch && 0 <= k < |ch[u]|
    ensures !Reads(ch[u][k], k, LinkWord(t, gm, s, t.depth[s]))
  {
    hide TreeIndex, Key;
    var d := t.depth[s];
    MemberIn(m, ch, B, u, k);
    if d == 0 {
      OffState(B0, lo, hi, gm, ch[u][k]);
    } else {
      assert SizeOk(t, B0, s);
      assert NodeOk(m, t, gm, SlotAt(s, d));
      var j := SlotAt(s, d - 1);
      assert NodeOk(m, t, gm, j);
      assert SizeOk(t, B0, t.pos[j]);
      HeadWordUnread(m, ch, B, B0, gm, lo, hi, u, k, t.node[t.pos[j]], LinkWord(t, gm, s, d));
    }
  }

  /** After the node x leaves the stock, every remaining trie node still heads its chain. */
  lemma HeadsOrGone(m: Mem, t: Shape, ch: Chains, ch': Chains, B: Stock, gm: int, s: int, x: int)
    requires ShapeOk(m, t, B, gm) && HeadsOk(t, ch) && s in t.node && t.node[s] == x
    requires forall w {:trigger w in ch'} :: w in ch && w != s ==> w in ch' && ch'[w] == ch[w]
    ensures forall w {:trigger t.node[w]} :: w in t.depth && w in t.node ==> HeadOrGone(ch', B - {x}, t.node[w])
  {
    forall w | w in t.depth && w in t.node ensures HeadOrGone(ch', B - {x}, t.node[w]) {
      assert SizeOk(t, B, w);
      assert HeadOk(t, ch, w);
    }
  }

  lemma MapKept(tm: Word32, t: Shape, t': Shape)
    requires TreeMapOk(tm, t) && (forall i {:trigger Slot(i, 1)} :: Slot(i, 1) in t.pos <==> Slot(i, 1) in t'.pos)
    ensures TreeMapOk(tm, t')
  {
    forall i | 0 <= i < 32 ensures Mapped(tm, t', i) { assert Mapped(tm, t, i); }
  }

  /** x heads a longer chain: its bk neighbour r takes over the node in place. */
  lemma UnlinkToChain(m: Mem, m': Mem, tm: Word32, t: Shape, ch: Chains, B: Stock, gm: int, lo: int, hi: int, x: int, s: int)
    requires TreeOk(m, tm, t, ch, B, gm) && Placed(B, lo, hi, gm) && lo > 0
    requires s in ch && |ch[s]| >= 2 && ch[s][0] == x && s in t.depth && s >= 0
    requires var r := ch[s]; Hung(LinkOut(m, Prev(r, 0), Next(r, 0)), m', LinkWord(t, gm, s, t.depth[s]), x, Prev(r, 0))
    ensures TreeOk(m', tm, Substituted(t, s, s, Prev(ch[s], 0)), ch[s := Dropped(ch[s], 0)], B - {x}, gm)
  {
    hide TreeIndex, Key, NodeOk, RootOk, LinkWord, Hung;
    var c := ch[s];
    var r, f := Prev(c, 0), Next(c, 0);
    var m1, ch', B', t' := LinkOut(m, r, f), ch[s := Dropped(c, 0)], B - {x}, Substituted(t, s, s, r);
    assert HeadOk(t, ch, s);
    assert ChainOk(m, ch, B, s);
    MemberIn(m, ch, B, s, |c| - 1);
    MemberIn(m, ch, B, s, 1);
    ApartAt(c, 0, |c| - 1);
    ShapeSurvivesLinkOut(m, t, B, gm, lo, hi, r, f);
    assert SizeOk(t, B, s);
    Substitute(m1, m', t, B, gm, lo, hi, s, s, r);
    forall u | u in t'.depth && u in t'.node ensures t'.node[u] != x {
      if u != s { assert SizeOk(t, B, u); }
    }
    StockShrinks(m', t', B, gm, x);
    ChainDrop(m, ch, B, gm, lo, hi, x, s, 0);
    HeadsOrGone(m, t, ch, ch', B, gm, s, x);
    HungChains(m1, m', t, ch', B', B, gm, lo, hi, s, r);
    forall u | u in ch' ensures HeadOk(t', ch', u) { assert HeadOk(t, ch, u); }
    MapKept(tm, t, t');
  }

  /** Removing a whole chain of one. */
  lemma ChainGone(m: Mem, ch: Chains, B: Stock, x: int, s: int)
    requires ChainsOk(m, ch, B) && s in ch && ch[s] == [x]
    ensures ChainsOk(m, ch - {s}, B - {x})
  {
    var ch', B' := ch - {s}, B - {x};
    MemberIn(m, ch, B, s, 0);
    forall u | u in ch' ensures ChainOk(m, ch', B', u) {
      assert ChainOk(m, ch, B, u);
      forall k | 0 <= k < |ch[u]| ensures MemberKept(m, m, ch[u][k], k) && ch[u][k] in B' && B'[ch[u][k]] == u {
        MemberIn(m, ch, B, u, k);
      }
      ChainFrame(m, m, ch, ch', B, B', u);
    }
    forall y | y in B' ensures Chained(ch', B', y) {
      assert Chained(ch, B, y);
      assert B[y] == s && s >= 256 ==> y in [x];
    }
  }

  lemma NulledReads(m: Mem, link: int, x: int)
    ensures LinkedTo(m, m[link := 0], link, 0, x)
  {
  }

  /** Nulling the link of a stored size writes a trie word, so no chain notices. */
  lemma NulledChains(m: Mem, t: Shape, ch: Chains, B: Stock, gm: int, lo: int, hi: int, z: int)
    requires ShapeOk(m, t, B, gm) && ChainsOk(m, ch, B) && HeadsOk(t, ch) && Placed(B, lo, hi, gm) && z in t.depth && z >= 0
    ensures ChainsOk(m[LinkWord(t, gm, z, t.depth[z]) := 0], ch, B)
  {
    hide TreeIndex, Key, LinkWord;
    var link := LinkWord(t, gm, z, t.depth[z]);
    assert SizeOk(t, B, z);
    assert NodeOk(m, t, gm, SlotAt(z, t.depth[z]));
    forall u, k | u in ch && 0 <= k < |ch[u]| ensures MemberKept(m, m[link := 0], ch[u][k], k) {
      LinkUnread(m, t, ch, B, gm, lo, hi, z, t.depth[z], u, k);
      KeptByReads(m, m[link := 0], ch[u][k], k);
    }
    ChainsFrame(m, m[link := 0], ch, B);
  }

  lemma MapDetached(tm: Word32, t: Shape, s: int)
    requires TreeMapOk(tm, t) && s in t.depth && s >= 0
    ensures TreeMapOk(if t.depth[s] == 0 then And(tm, Not(Bit(TreeIndex(s)))) else tm, Detached(t, s))
  {
    hide TreeIndex, Key;
    var tm' := if t.depth[s] == 0 then And(tm, Not(Bit(TreeIndex(s)))) else tm;
    assert t.depth[s] > 0 ==> SlotAt(s, t.depth[s]).id >= 2;
    forall i | 0 <= i < 32 ensures Mapped(tm', Detached(t, s), i) { assert Mapped(tm, t, i); }
  }

  lemma HeadsWithout(t: Shape, ch: Chains, s: int)
    requires HeadsOk(t, ch) && s in t.depth && s >= 0
    ensures HeadsOk(Detached(t, s), ch - {s})
  {
    forall u | u in ch - {s} ensures HeadOk(Detached(t, s), ch - {s}, u) { assert HeadOk(t, ch, u); }
  }

  /** x is the last chunk of its size and a leaf: its slot empties. */
  lemma UnlinkLeaf(m: Mem, tm: Word32, t: Shape, ch: Chains, B: Stock, gm: int, lo: int, hi: int, x: int, s: int)
    requires TreeOk(m, tm, t, ch, B, gm) && Placed(B, lo, hi, gm) && s in ch && ch[s] == [x] && IsLeaf(t, s)
    ensures TreeOk(m[LinkWord(t, gm, s, t.depth[s]) := 0],
                   if t.depth[s] == 0 then And(tm, Not(Bit(TreeIndex(s)))) else tm, Detached(t, s), ch - {s}, B - {x}, gm)
  {
    hide TreeIndex, Key, NodeOk, RootOk, LinkWord;
    var link := LinkWord(t, gm, s, t.depth[s]);
    assert HeadOk(t, ch, s);
    NulledReads(m, link, x);
    Detach(m, m[link := 0], t, B, gm, lo, hi, s);
    forall u | u in Detached(t, s).depth && u in Detached(t, s).node ensures Detached(t, s).node[u] != x {
      assert SizeOk(t, B, u);
      assert SizeOk(t, B, s);
    }
    StockShrinks(m[link := 0], Detached(t, s), B, gm, x);
    NulledChains(m, t, ch, B, gm, lo, hi, s);
    ChainGone(m[link := 0], ch, B, x, s);
    HeadsWithout(t, ch, s);
    MapDetached(tm, t, s);
  }

  /** Detaching the leaf z leaves the link of a size above it where it was. */
  lemma LinkAfterDetach(m: Mem, t: Shape, B: Stock, gm: int, s: int, z: int)
    requires ShapeOk(m, t, B, gm) && s in t.depth && s >= 0 && z in t.depth && z >= 0 && t.depth[s] < t.depth[z]
    ensures LinkWord(Detached(t, z), gm, s, t.depth[s]) == LinkWord(t, gm, s, t.depth[s])
  {
    hide TreeIndex, Key;
    var d := t.depth[s];
    if d > 0 {
      DetachAt(m, t, B, gm, z, SlotAt(s, d - 1));
      if SlotAt(s, d - 1) == SlotAt(z, t.depth[z]) { IdDepth(SizeKey(s), d - 1, SizeKey(z), t.depth[z]); }
    }
  }

  /** x is the last chunk of its size: a leaf r of its subtree moves up into its slot. */
  lemma UnlinkToLeaf(m: Mem, m': Mem, tm: Word32, t: Shape, ch: Chains, B: Stock, gm: int, lo: int, hi: int, x: int, s: int, z: int)
    requires TreeOk(m, tm, t, ch, B, gm) && Placed(B, lo, hi, gm) && lo > 0
    requires s in ch && ch[s] == [x] && s in t.depth && s >= 0
    requires z != s && IsLeaf(t, z) && z in t.node && t.depth[s] < t.depth[z] && SlotAt(z, t.depth[s]) == SlotAt(s, t.depth[s])
    requires Hung(m[LinkWord(t, gm, z, t.depth[z]) := 0], m', LinkWord(t, gm, s, t.depth[s]), x, t.node[z])
    ensures TreeOk(m', tm, Substituted(Detached(t, z), s, z, t.node[z]), ch - {s}, B - {x}, gm)
  {
    hide TreeIndex, Key, NodeOk, RootOk, LinkWord, Hung;
    var r, t1 := t.node[z], Detached(t, z);
    var m1, ch', B', t' := m[LinkWord(t, gm, z, t.depth[z]) := 0], ch - {s}, B - {x}, Substituted(t1, s, z, r);
    assert HeadOk(t, ch, s) && HeadOk(t, ch, z);
    assert SizeOk(t, B, s) && SizeOk(t, B, z);
    NulledReads(m, LinkWord(t, gm, z, t.depth[z]), r);
    Detach(m, m1, t, B, gm, lo, hi, z);
    LinkAfterDetach(m, t, B, gm, s, z);
    Substitute(m1, m', t1, B, gm, lo, hi, s, z, r);
    forall u | u in t'.depth && u in t'.node ensures t'.node[u] != x {
      if u != z { assert SizeOk(t, B, u); }
    }
    StockShrinks(m', t', B, gm, x);
    NulledChains(m, t, ch, B, gm, lo, hi, z);
    ChainGone(m1, ch, B, x, s);
    HeadsOrGone(m, t, ch, ch', B, gm, s, x);
    HungChains(m1, m', t1, ch', B', B, gm, lo, hi, s, r);
    forall u | u in ch' ensures HeadOk(t', ch', u) { assert HeadOk(t, ch, u); }
    MapMoved(tm, t, s, z, r, B);
  }

  lemma MapMoved(tm: Word32, t: Shape, s: int, z: int, r: int, B: Stock)
    requires TreeMapOk(tm, t) && s in t.depth && s >= 0 && z in t.depth && z >= 0 && z != s && t.depth[s] < t.depth[z]
    requires SizeOk(t, B, s)
    ensures TreeMapOk(tm, Substituted(Detached(t, z), s, z, r))
  {
    hide TreeIndex, Key;
    assert SlotAt(z, t.depth[z]).id >= 2;
    if SlotAt(s, t.depth[s]) == SlotAt(z, t.depth[z]) { IdDepth(SizeKey(s), t.depth[s], SizeKey(z), t.depth[z]); }
    MapKept(tm, t, Substituted(Detached(t, z), s, z, r));
  }
}
