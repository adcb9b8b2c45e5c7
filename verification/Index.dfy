/** Small bins and tree bins together: the allocator's whole index of free chunks. */
module FreeIndex {
  import opened Memory
  import opened Bitmap
  import opened SizeClass
  import opened Trie
  import opened Rings
  import opened SmallBins
  import opened TreeShape
  import opened TreeBins
  import opened TreeUnlink
  import opened TreeSearch

  /** Everything malloc_state and the link words record, with the set B of chunks they record it for. */
  datatype Index = Index(sm: Word32, tm: Word32, bins: seq<seq<int>>, t: Shape, ch: Chains, B: Stock)

  ghost predicate IndexOk(m: Mem, x: Index, gm: int, lo: int, hi: int) {
    && lo > 0 && gm > 0 && Placed(x.B, lo, hi, gm)
    && SmallOk(m, x.sm, x.bins, x.B, gm) && TreeOk(m, x.tm, x.t, x.ch, x.B, gm)
  }

  /** a is neither in malloc_state nor between the header and the end of a stocked chunk. */
  ghost predicate Outside(B: Stock, gm: int, a: int) {
    && (a < gm || gm + STATE_SIZE <= a)
    && forall p {:trigger B[p]} :: p in B ==> a < p + 16 || p + B[p] <= a
  }

  /** Only index words changed. */
  ghost predicate Quiet(m: Mem, m': Mem, B: Stock, gm: int) {
    forall a {:trigger Rd(m', a)} :: Outside(B, gm, a) ==> Rd(m', a) == Rd(m, a)
  }

  ghost predicate SizedAt(m: Mem, B: Stock, p: int)
    requires p in B
  {
    ChunkSize(Rd(m, p + 8)) == B[p]
  }

  /** Stocked chunks carry their size in their head word. */
  ghost predicate Sized(m: Mem, B: Stock) {
    forall p {:trigger SizedAt(m, B, p)} :: p in B ==> SizedAt(m, B, p)
  }

  // ---------------------------------------------------------------- small chunks

  lemma LargeSurvivesSmall(m: Mem, m': Mem, x: Index, B': Stock, gm: int, lo: int, hi: int, h: int, f: int, p: int, i: int)
    requires IndexOk(m, x, gm, lo, hi) && 0 <= i < 32
    requires (f == Header(gm, i) || (f in x.B && x.B[f] < 256)) && (h == Header(gm, i) || (h in x.B && x.B[h] < 256))
    requires p in B' && B'[p] < 256 && Placed(B', lo, hi, gm) && (B' == x.B || (B' == x.B[p := 8 * i] && p !in x.B))
    requires forall a {:trigger Rd(m', a)} :: a != h + 16 && a != f + 24 && a != p + 16 && a != p + 24 ==> Rd(m', a) == Rd(m, a)
    ensures TreeOk(m', x.tm, x.t, x.ch, B', gm)
  {
    hide TreeOk, SmallOk;
    forall y | y in x.B && x.B[y] >= 256 ensures y in B' && B'[y] == x.B[y] && MemberKept(m, m', y, 1) {
      assert InPlace(B', y, lo, hi) && InPlace(B', p, lo, hi);
      assert Disjoint(B', p, y) && Disjoint(B', y, p);
      if f in x.B { assert InPlace(B', f, lo, hi) && Disjoint(B', f, y) && Disjoint(B', y, f); }
      if h in x.B { assert InPlace(B', h, lo, hi) && Disjoint(B', h, y) && Disjoint(B', y, h); }
    }
    forall j | 0 <= j < 32 ensures Rd(m', TreeBin(gm, j)) == Rd(m, TreeBin(gm, j)) {
      assert InPlace(B', p, lo, hi);
      if f in x.B { assert InPlace(B', f, lo, hi); }
      if h in x.B { assert InPlace(B', h, lo, hi); }
    }
    TreeFrame(m, m', x.tm, x.t, x.ch, x.B, B', gm);
  }

  lemma LinkInReads(m: Mem, h: int, f: int, p: int)
    ensures var m' := LinkIn(m, h, f, p);
            forall a {:trigger Rd(m', a)} :: a != h + 16 && a != f + 24 && a != p + 16 && a != p + 24 ==> Rd(m', a) == Rd(m, a)
  {
  }

  /** insert_small_chunk */
  lemma PutSmall(m: Mem, x: Index, gm: int, lo: int, hi: int, p: int, i: int)
    requires IndexOk(m, x, gm, lo, hi) && 0 <= i < 32 && p !in x.B && Placed(x.B[p := 8 * i], lo, hi, gm)
    ensures var h := Header(gm, i);
            var f := if x.sm[i] then Fd(m, h) else h;
            && (x.sm[i] ==> f >= lo)
            && IndexOk(LinkIn(m, h, f, p),
                       x.(sm := Or(x.sm, Bit(i)), bins := x.bins[i := [p] + x.bins[i]], B := x.B[p := 8 * i]), gm, lo, hi)
            && Quiet(m, LinkIn(m, h, f, p), x.B[p := 8 * i], gm)
  {
    hide TreeOk, SmallOk, Or, Bit;
    var h := Header(gm, i);
    var f := if x.sm[i] then Fd(m, h) else h;
    var m', B' := LinkIn(m, h, f, p), x.B[p := 8 * i];
    InsertTarget(m, x.sm, x.bins, x.B, gm, lo, hi, p, i);
    InsertSmall(m, x.sm, x.bins, x.B, gm, lo, hi, p, i);
    LinkInReads(m, h, f, p);
    assert InPlace(B', p, lo, hi);
    if x.sm[i] { assert InPlace(B', f, lo, hi); }
    LargeSurvivesSmall(m, m', x, B', gm, lo, hi, h, f, p, i);
    forall a | Outside(B', gm, a) ensures Rd(m', a) == Rd(m, a) {
      assert a < p + 16 || p + B'[p] <= a;
      if x.sm[i] { assert a < f + 16 || f + B'[f] <= a; }
    }
  }

  lemma PlacedWithout(B: Stock, lo: int, hi: int, gm: int, p: int)
    requires Placed(B, lo, hi, gm)
    ensures Placed(B - {p}, lo, hi, gm)
  {
    forall q | q in B - {p} ensures InPlace(B - {p}, q, lo, hi) { assert InPlace(B, q, lo, hi); }
    forall q, r | q in B - {p} && r in B - {p} ensures Disjoint(B - {p}, q, r) { assert Disjoint(B, q, r); }
  }

  lemma LargeSurvivesDrop(m: Mem, x: Index, gm: int, lo: int, hi: int, p: int)
    requires IndexOk(m, x, gm, lo, hi) && p in x.B && x.B[p] < 256
    ensures TreeOk(m, x.tm, x.t, x.ch, x.B - {p}, gm)
  {
    hide TreeOk, SmallOk;
    TreeFrame(m, m, x.tm, x.t, x.ch, x.B, x.B - {p}, gm);
  }

  /** unlink_small_chunk and unlink_first_small_chunk, with k the place of p in bin i. */
  lemma TakeSmall(m: Mem, x: Index, gm: int, lo: int, hi: int, p: int, i: int, k: int)
    requires IndexOk(m, x, gm, lo, hi) && 0 <= i < 32 && p in x.B && x.B[p] == 8 * i
    requires 0 <= k < |x.bins[i]| && x.bins[i][k] == p
    requires Bk(m, p) == if k == 0 then Header(gm, i) else x.bins[i][k - 1]
    requires Fd(m, p) == if k + 1 == |x.bins[i]| then Header(gm, i) else x.bins[i][k + 1]
    ensures var y := x.(bins := x.bins[i := Without(x.bins[i], k)], B := x.B - {p});
            if |x.bins[i]| == 1 then
              IndexOk(m, y.(sm := And(x.sm, Not(Bit(i)))), gm, lo, hi)
            else
              var m' := LinkOut(m, Bk(m, p), Fd(m, p));
              IndexOk(m', y, gm, lo, hi) && Quiet(m, m', x.B, gm)
  {
    hide TreeOk, And, Not, Bit, Ring;
    UnlinkSmall(m, x.sm, x.bins, x.B, gm, lo, hi, p, i, k);
    PlacedWithout(x.B, lo, hi, gm, p);
    var f, b := Fd(m, p), Bk(m, p);
    var m' := LinkOut(m, b, f);
    assert BinOk(m, x.sm, x.bins, x.B, gm, i);
    assert InPlace(x.B, p, lo, hi);
    if f != Header(gm, i) { assert InPlace(x.B, f, lo, hi); }
    if b != Header(gm, i) { assert InPlace(x.B, b, lo, hi); }
    LargeSurvivesSmall(m, m', x, x.B, gm, lo, hi, b, f, p, i);
    LargeSurvivesDrop(m, x, gm, lo, hi, p);
    hide SmallOk;
    TreeFrame(m', m', x.tm, x.t, x.ch, x.B, x.B - {p}, gm);
    forall a | Outside(x.B, gm, a) ensures Rd(m', a) == Rd(m, a) {
      if f in x.B { assert a < f + 16 || f + x.B[f] <= a; }
      if b in x.B { assert a < b + 16 || b + x.B[b] <= a; }
    }
  }

  // ---------------------------------------------------------------- large chunks

  /** Only the treebins array and fields of stocked large chunks changed. */
  ghost predicate TreeQuiet(m: Mem, m': Mem, B: Stock, gm: int) {
    forall a {:trigger Rd(m', a)} :: TreeOutside(B, gm, a) ==> Rd(m', a) == Rd(m, a)
  }

  ghost predicate TreeOutside(B: Stock, gm: int, a: int) {
    && (a < gm + 600 || gm + 856 <= a)
    && forall p {:trigger B[p]} :: p in B && B[p] >= 256 ==> a < p + 16 || p + 64 <= a
  }

  lemma TreeQuietIsQuiet(m: Mem, m': Mem, B: Stock, gm: int)
    requires TreeQuiet(m, m', B, gm)
    ensures Quiet(m, m', B, gm)
  {
    forall a | Outside(B, gm, a) ensures Rd(m', a) == Rd(m, a) { assert TreeOutside(B, gm, a); }
  }

  lemma SmallWordOutside(B: Stock, gm: int, lo: int, hi: int, y: int, a: int)
    requires Placed(B, lo, hi, gm) && y in B && B[y] < 256 && y + 16 <= a < y + 32
    ensures TreeOutside(B, gm, a)
  {
    assert InPlace(B, y, lo, hi);
    forall p | p in B && B[p] >= 256 ensures a < p + 16 || p + 64 <= a {
      assert Disjoint(B, p, y) && Disjoint(B, y, p);
    }
  }

  lemma HeaderOutside(B: Stock, gm: int, lo: int, hi: int, i: int, a: int)
    requires Placed(B, lo, hi, gm) && 0 <= i < 32 && Header(gm, i) + 16 <= a < Header(gm, i) + 32
    ensures TreeOutside(B, gm, a)
  {
    forall p | p in B && B[p] >= 256 ensures a < p + 16 || p + 64 <= a { assert InPlace(B, p, lo, hi); }
  }

  /** Tree steps leave the small bins as they were; B0 is the larger of the two stocks. */
  lemma SmallSurvives(m: Mem, m': Mem, x: Index, B': Stock, B0: Stock, gm: int, lo: int, hi: int)
    requires IndexOk(m, x, gm, lo, hi) && Placed(B0, lo, hi, gm) && TreeQuiet(m, m', B0, gm)
    requires Within(x.B, B0) && (forall y {:trigger y in B'} :: y in B' && B'[y] < 256 ==> y in x.B && x.B[y] == B'[y])
    requires forall y {:trigger x.B[y]} :: y in x.B && x.B[y] < 256 ==> y in B' && B'[y] == x.B[y]
    ensures SmallOk(m', x.sm, x.bins, B', gm)
  {
    hide SmallOk, TreeOk;
    forall y | y in x.B && x.B[y] < 256 ensures LinksKept(m, m', y) {
      assert y in B0 && B0[y] == x.B[y];
      SmallWordOutside(B0, gm, lo, hi, y, y + 16);
      SmallWordOutside(B0, gm, lo, hi, y, y + 24);
    }
    forall i | 0 <= i < 32 ensures LinksKept(m, m', Header(gm, i)) {
      HeaderOutside(B0, gm, lo, hi, i, Header(gm, i) + 16);
      HeaderOutside(B0, gm, lo, hi, i, Header(gm, i) + 24);
    }
    SmallFrame(m, m', x.sm, x.bins, x.B, B', gm);
  }

  lemma LinkInside(m: Mem, t: Shape, B: Stock, gm: int, s: int, d: nat, a: int)
    requires ShapeOk(m, t, B, gm) && s >= 0 && (d > 0 ==> SlotAt(s, d - 1) in t.pos) && TreeOutside(B, gm, a)
    ensures a != LinkWord(t, gm, s, d)
  {
    hide TreeIndex;
    if d > 0 {
      var j := SlotAt(s, d - 1);
      assert NodeOk(m, t, gm, j);
      assert SizeOk(t, B, t.pos[j]);
      var p := t.node[t.pos[j]];
      assert a < p + 16 || p + 64 <= a;
    }
  }

  /** insert_large_chunk, when the search ends at a free slot. */
  lemma PutLargeNew(m: Mem, m': Mem, x: Index, gm: int, lo: int, hi: int, p: int, s: int, d: nat)
    requires IndexOk(m, x, gm, lo, hi) && p !in x.B && Placed(x.B[p := s], lo, hi, gm) && Vacant(x.t, s, d)
    requires m' == AttachMem(m, TreeIndex(s), p, LinkWord(x.t, gm, s, d), ParentWord(x.t, gm, s, d))
    ensures IndexOk(m', x.(tm := if d == 0 then Or(x.tm, Bit(TreeIndex(s))) else x.tm,
                           t := Attached(x.t, s, d, p), ch := x.ch[s := [p]], B := x.B[p := s]), gm, lo, hi)
    ensures Quiet(m, m', x.B[p := s], gm)
  {
    hide TreeIndex, Or, Bit, SmallOk, LinkWord, ParentWord;
    var link, B' := LinkWord(x.t, gm, s, d), x.B[p := s];
    StockGrows(m, x.t, x.B, gm, p, s);
    NotANode(x.t, B', s, p, m, gm);
    LinkPlace(m, x.t, B', gm, lo, hi, s, d, p);
    AttachReads(m, TreeIndex(s), p, link, ParentWord(x.t, gm, s, d));
    AttachRing(m, TreeIndex(s), p, link, ParentWord(x.t, gm, s, d));
    InsertNewSize(m, m', x.tm, x.t, x.ch, x.B, gm, lo, hi, p, s, d);
    hide TreeOk;
    forall a | TreeOutside(B', gm, a) ensures Rd(m', a) == Rd(m, a) {
      LinkInside(m, x.t, B', gm, s, d, a);
      assert a < p + 16 || p + 64 <= a;
    }
    TreeQuietIsQuiet(m, m', B', gm);
    SmallSurvives(m, m', x, B', B', gm, lo, hi);
  }

  lemma AttachRing(m: Mem, i: int, x: int, link: int, par: int)
    requires link < x + 16 || link >= x + 64
    ensures var m' := AttachMem(m, i, x, link, par); Fd(m', x) == x && Bk(m', x) == x && BinIndex(m', x) == i
  {
  }

  /** insert_large_chunk, when the size is already stored. */
  lemma PutLargeChained(m: Mem, x: Index, gm: int, lo: int, hi: int, p: int, s: int)
    requires IndexOk(m, x, gm, lo, hi) && s in x.ch && s >= 256 && |x.ch[s]| > 0 && p !in x.B && Placed(x.B[p := s], lo, hi, gm)
    ensures var r := x.ch[s];
            var m' := ChainMem(m, TreeIndex(s), p, r[0], Next(r, 0));
            && IndexOk(m', x.(ch := x.ch[s := [r[0], p] + r[1..]], B := x.B[p := s]), gm, lo, hi)
            && Quiet(m, m', x.B[p := s], gm)
  {
    hide TreeIndex, SmallOk;
    var r, B' := x.ch[s], x.B[p := s];
    var m' := ChainMem(m, TreeIndex(s), p, r[0], Next(r, 0));
    ChainHead(m, x.t, x.ch, x.B, s);
    LargeApart(B', lo, hi, gm, r[0], p);
    LargeApart(B', lo, hi, gm, Next(r, 0), p);
    ChainMemReads(m, TreeIndex(s), p, r[0], Next(r, 0));
    InsertChained(m, x.tm, x.t, x.ch, x.B, gm, lo, hi, p, s);
    hide TreeOk, ChainMem;
    forall a | TreeOutside(B', gm, a) ensures Rd(m', a) == Rd(m, a) {
      assert a < p + 16 || p + 64 <= a;
      assert a < r[0] + 16 || r[0] + 64 <= a;
      var f := Next(r, 0);
      assert a < f + 16 || f + 64 <= a;
    }
    TreeQuietIsQuiet(m, m', B', gm);
    SmallSurvives(m, m', x, B', B', gm, lo, hi);
  }

  // ---------------------------------------------------------------- unlink_large_chunk

  /** The relinking at the end of unlink_large_chunk. */
  function HangMem(m: Mem, link: int, par: int, r: int, c0: int, c1: int): Mem {
    var m1 := m[link := r][r + 48 := par];
    var m2 := if c0 != 0 then m1[r + 32 := c0][c0 + 48 := r] else m1;
    if c1 != 0 then m2[r + 40 := c1][c1 + 48 := r] else m2
  }

  ghost predicate Far(x: int, y: int) { x + 256 <= y || y + 256 <= x }

  lemma HangReads(m: Mem, link: int, x: int, r: int)
    requires Child(m, r, 0) == 0 && Child(m, r, 1) == 0
    requires link < r + 32 || r + 56 <= link
    requires var c0, c1 := Child(m, x, 0), Child(m, x, 1);
             && (c0 != 0 ==> Far(c0, r) && link != c0 + 48) && (c1 != 0 ==> Far(c1, r) && link != c1 + 48)
             && (c0 != 0 && c1 != 0 ==> Far(c0, c1))
    ensures Hung(m, HangMem(m, link, Parent(m, x), r, Child(m, x, 0), Child(m, x, 1)), link, x, r)
  {
  }

  /** How the code finds the word that points at a trie node. */
  lemma FindLink(m: Mem, t: Shape, B: Stock, gm: int, lo: int, hi: int, s: int)
    requires ShapeOk(m, t, B, gm) && Placed(B, lo, hi, gm) && lo > 0 && gm > 0 && s in t.depth && s in t.node && s >= 0
    ensures var x, d, par := t.node[s], t.depth[s], Parent(m, t.node[s]);
            && (Rd(m, TreeBin(gm, TreeIndex(s))) == x <==> d == 0)
            && (d > 0 ==> par in B && B[par] >= 256 && LinkWord(t, gm, s, d) == ChildAt(par, if Child(m, par, 0) == x then 0 else 1))
            && (d == 0 ==> LinkWord(t, gm, s, d) == TreeBin(gm, TreeIndex(s)))
            && par == ParentWord(t, gm, s, d) && par != 0
  {
    hide TreeIndex, Key;
    var d := t.depth[s];
    NodeHasParent(m, t, B, gm, lo, hi, s);
    assert SizeOk(t, B, s);
    assert NodeOk(m, t, gm, SlotAt(s, d));
    assert RootOk(m, t, gm, TreeIndex(s));
    OffState(B, lo, hi, gm, t.node[s]);
    if d > 0 {
      assert SlotAt(s, d).id >= 2;
      if Slot(TreeIndex(s), 1) in t.pos && At(t, Slot(TreeIndex(s), 1)) == t.node[s] {
        assert At(t, SlotAt(s, d)) == t.node[s];
        SameNode(m, t, B, gm, Slot(TreeIndex(s), 1), SlotAt(s, d));
      }
      ParentSide(m, t, B, gm, lo, hi, s);
    }
  }

  lemma ParentSide(m: Mem, t: Shape, B: Stock, gm: int, lo: int, hi: int, s: int)
    requires ShapeOk(m, t, B, gm) && Placed(B, lo, hi, gm) && lo > 0 && s in t.depth && s in t.node && s >= 0 && t.depth[s] > 0
    ensures var k := SlotAt(s, t.depth[s] - 1);
            Child(m, At(t, k), 0) == t.node[s] <==> KeyBit(SizeKey(s), t.depth[s] - 1) == 0
  {
    hide TreeIndex, Key;
    var d := t.depth[s];
    var k := SlotAt(s, d - 1);
    assert SizeOk(t, B, s);
    assert NodeOk(m, t, gm, SlotAt(s, d));
    assert NodeOk(m, t, gm, k);
    OffState(B, lo, hi, gm, t.node[s]);
    var c := Slot(k.bin, 2 * k.id);
    assert At(t, SlotAt(s, d)) == t.node[s];
    if c in t.pos && At(t, c) == t.node[s] { SameNode(m, t, B, gm, c, SlotAt(s, d)); }
  }

  lemma HangIsHung(m: Mem, t: Shape, B: Stock, gm: int, lo: int, hi: int, s: int, z: int, r: int)
    requires ShapeOk(m, t, B, gm) && Placed(B, lo, hi, gm) && lo > 0 && gm > 0 && Heir(t, B, s, z, r)
    requires Child(m, r, 0) == 0 && Child(m, r, 1) == 0
    ensures var x, link := t.node[s], LinkWord(t, gm, s, t.depth[s]);
            Hung(m, HangMem(m, link, Parent(m, x), r, Child(m, x, 0), Child(m, x, 1)), link, x, r)
  {
    hide TreeIndex, Key, LinkWord, HangMem, Hung;
    var x, d := t.node[s], t.depth[s];
    var link := LinkWord(t, gm, s, d);
    var c0, c1 := Child(m, x, 0), Child(m, x, 1);
    ChildIsNode(m, t, B, gm, lo, hi, s, 0);
    ChildIsNode(m, t, B, gm, lo, hi, s, 1);
    if c0 != 0 { LargeApart(B, lo, hi, gm, c0, r); }
    if c1 != 0 { LargeApart(B, lo, hi, gm, c1, r); }
    if c0 != 0 && c1 != 0 {
      var n := Id(SizeKey(s), d);
      if c0 == c1 { SameNode(m, t, B, gm, Slot(TreeIndex(s), 2 * n), Slot(TreeIndex(s), 2 * n + 1)); }
      LargeApart(B, lo, hi, gm, c0, c1);
    }
    LinkFar(m, t, B, gm, lo, hi, s, z, r);
    HangReads(m, link, x, r);
  }

  lemma LinkFar(m: Mem, t: Shape, B: Stock, gm: int, lo: int, hi: int, s: int, z: int, r: int)
    requires ShapeOk(m, t, B, gm) && Placed(B, lo, hi, gm) && lo > 0 && gm > 0 && Heir(t, B, s, z, r)
    ensures var link, c0, c1 := LinkWord(t, gm, s, t.depth[s]), Child(m, t.node[s], 0), Child(m, t.node[s], 1);
            (link < r + 32 || r + 56 <= link) && (c0 != 0 ==> link != c0 + 48) && (c1 != 0 ==> link != c1 + 48)
  {
    hide TreeIndex, Key;
    var d := t.depth[s];
    ChildIsNode(m, t, B, gm, lo, hi, s, 0);
    ChildIsNode(m, t, B, gm, lo, hi, s, 1);
    var c0, c1 := Child(m, t.node[s], 0), Child(m, t.node[s], 1);
    OffState(B, lo, hi, gm, r);
    if c0 != 0 { OffState(B, lo, hi, gm, c0); }
    if c1 != 0 { OffState(B, lo, hi, gm, c1); }
    NodeHasParent(m, t, B, gm, lo, hi, s);
    if d > 0 {
      var k := SlotAt(s, d - 1);
      var p := At(t, k);
      assert SizeOk(t, B, t.pos[k]) && SizeOk(t, B, s);
      assert p != r;
      LargeApart(B, lo, hi, gm, p, r);
      if c0 != 0 && c0 != p { LargeApart(B, lo, hi, gm, p, c0); }
      if c1 != 0 && c1 != p { LargeApart(B, lo, hi, gm, p, c1); }
    }
  }

  lemma LinkOutQuiet(m: Mem, B: Stock, gm: int, lo: int, hi: int, h: int, f: int)
    requires Placed(B, lo, hi, gm) && h in B && B[h] >= 256 && f in B && B[f] >= 256
    ensures TreeQuiet(m, LinkOut(m, h, f), B, gm)
  {
    var m' := LinkOut(m, h, f);
    forall a | TreeOutside(B, gm, a) ensures Rd(m', a) == Rd(m, a) {
      assert a < h + 16 || h + 64 <= a;
      assert a < f + 16 || f + 64 <= a;
    }
  }

  lemma HungQuiet(m: Mem, m': Mem, t: Shape, B: Stock, gm: int, lo: int, hi: int, s: int, z: int, r: int)
    requires ShapeOk(m, t, B, gm) && Placed(B, lo, hi, gm) && lo > 0 && Heir(t, B, s, z, r)
    requires Hung(m, m', LinkWord(t, gm, s, t.depth[s]), t.node[s], r)
    ensures TreeQuiet(m, m', B, gm)
  {
    hide TreeIndex, Key, LinkWord;
    ChildIsNode(m, t, B, gm, lo, hi, s, 0);
    ChildIsNode(m, t, B, gm, lo, hi, s, 1);
    var c0, c1 := Child(m, t.node[s], 0), Child(m, t.node[s], 1);
    assert SizeOk(t, B, s) && NodeOk(m, t, gm, SlotAt(s, t.depth[s]));
    forall a | TreeOutside(B, gm, a) ensures Rd(m', a) == Rd(m, a) {
      LinkInside(m, t, B, gm, s, t.depth[s], a);
      assert a < r + 16 || r + 64 <= a;
      if c0 != 0 { assert a < c0 + 16 || c0 + 64 <= a; }
      if c1 != 0 { assert a < c1 + 16 || c1 + 64 <= a; }
    }
  }

  lemma TreeQuietTwice(m: Mem, m1: Mem, m': Mem, B: Stock, gm: int)
    requires TreeQuiet(m, m1, B, gm) && TreeQuiet(m1, m', B, gm)
    ensures TreeQuiet(m, m', B, gm)
  {
    forall a | TreeOutside(B, gm, a) ensures Rd(m', a) == Rd(m, a) { assert Rd(m1, a) == Rd(m, a); }
  }

  /** The small-bin half of every unlink_large_chunk case. */
  lemma TakeLargeRest(m: Mem, m': Mem, x: Index, gm: int, lo: int, hi: int, p: int)
    requires IndexOk(m, x, gm, lo, hi) && p in x.B && x.B[p] >= 256 && TreeQuiet(m, m', x.B, gm)
    ensures Placed(x.B - {p}, lo, hi, gm) && SmallOk(m', x.sm, x.bins, x.B - {p}, gm) && Quiet(m, m', x.B, gm)
  {
    hide SmallOk, TreeOk;
    PlacedWithout(x.B, lo, hi, gm, p);
    SmallSurvives(m, m', x, x.B - {p}, x.B, gm, lo, hi);
    TreeQuietIsQuiet(m, m', x.B, gm);
  }

  lemma TakeChained(m: Mem, x: Index, gm: int, lo: int, hi: int, p: int, s: int, j: int)
    requires IndexOk(m, x, gm, lo, hi) && p in x.B && x.B[p] == s && s in x.ch && 1 <= j < |x.ch[s]| && x.ch[s][j] == p
    ensures var m' := LinkOut(m, Prev(x.ch[s], j), Next(x.ch[s], j));
            && IndexOk(m', x.(ch := x.ch[s := Dropped(x.ch[s], j)], B := x.B - {p}), gm, lo, hi)
            && Quiet(m, m', x.B, gm)
  {
    hide SmallOk, TreeIndex;
    var r := x.ch[s];
    MemberIn(m, x.ch, x.B, s, j - 1);
    MemberIn(m, x.ch, x.B, s, if j + 1 < |r| then j + 1 else 0);
    LinkOutQuiet(m, x.B, gm, lo, hi, Prev(r, j), Next(r, j));
    TakeLargeRest(m, LinkOut(m, Prev(r, j), Next(r, j)), x, gm, lo, hi, p);
    UnlinkChained(m, x.tm, x.t, x.ch, x.B, gm, lo, hi, p, s, j);
  }

  /** The chain takes over the node: first the ring closes around p, then its bk neighbour is hung in its place. */
  lemma TakeToChain(m: Mem, x: Index, gm: int, lo: int, hi: int, p: int, s: int)
    requires IndexOk(m, x, gm, lo, hi) && p in x.B && x.B[p] == s && s in x.ch && |x.ch[s]| >= 2 && x.ch[s][0] == p
    ensures s in x.t.depth && s >= 0
    ensures var c := x.ch[s];
            var r, m1, link := Prev(c, 0), LinkOut(m, Prev(c, 0), Next(c, 0)), LinkWord(x.t, gm, s, x.t.depth[s]);
            var m' := HangMem(m1, link, Parent(m1, p), r, Child(m1, p, 0), Child(m1, p, 1));
            && IndexOk(m', x.(t := Substituted(x.t, s, s, r), ch := x.ch[s := Dropped(c, 0)], B := x.B - {p}), gm, lo, hi)
            && Quiet(m, m', x.B, gm)
  {
    hide SmallOk, TreeIndex, Key, LinkWord, HangMem, Hung;
    var c := x.ch[s];
    assert HeadOk(x.t, x.ch, s);
    assert SizeOk(x.t, x.B, s);
    var r, f := Prev(c, 0), Next(c, 0);
    var m1, link := LinkOut(m, r, f), LinkWord(x.t, gm, s, x.t.depth[s]);
    var m' := HangMem(m1, link, Parent(m1, p), r, Child(m1, p, 0), Child(m1, p, 1));
    MemberIn(m, x.ch, x.B, s, 1);
    MemberIn(m, x.ch, x.B, s, |c| - 1);
    assert ChainOk(m, x.ch, x.B, s);
    ApartAt(c, 0, |c| - 1);
    ShapeSurvivesLinkOut(m, x.t, x.B, gm, lo, hi, r, f);
    if r != f { LargeApart(x.B, lo, hi, gm, r, f); }
    LinkOutReads(m, r, f);
    HangIsHung(m1, x.t, x.B, gm, lo, hi, s, s, r);
    LinkOutQuiet(m, x.B, gm, lo, hi, r, f);
    HungQuiet(m1, m', x.t, x.B, gm, lo, hi, s, s, r);
    TreeQuietTwice(m, m1, m', x.B, gm);
    TakeLargeRest(m, m', x, gm, lo, hi, p);
    UnlinkToChain(m, m', x.tm, x.t, x.ch, x.B, gm, lo, hi, p, s);
  }

  lemma TakeLeaf(m: Mem, x: Index, gm: int, lo: int, hi: int, p: int, s: int)
    requires IndexOk(m, x, gm, lo, hi) && p in x.B && x.B[p] == s && s in x.ch && x.ch[s] == [p] && IsLeaf(x.t, s)
    ensures var d := x.t.depth[s];
            var m' := m[LinkWord(x.t, gm, s, d) := 0];
            && IndexOk(m', x.(tm := if d == 0 then And(x.tm, Not(Bit(TreeIndex(s)))) else x.tm,
                              t := Detached(x.t, s), ch := x.ch - {s}, B := x.B - {p}), gm, lo, hi)
            && Quiet(m, m', x.B, gm)
  {
    hide SmallOk, TreeIndex, Key, LinkWord;
    var m' := m[LinkWord(x.t, gm, s, x.t.depth[s]) := 0];
    NulledQuiet(m, x.t, x.B, gm, s);
    MemberIn(m, x.ch, x.B, s, 0);
    TakeLargeRest(m, m', x, gm, lo, hi, p);
    UnlinkLeaf(m, x.tm, x.t, x.ch, x.B, gm, lo, hi, p, s);
  }

  lemma NulledQuiet(m: Mem, t: Shape, B: Stock, gm: int, s: int)
    requires ShapeOk(m, t, B, gm) && s in t.depth && s >= 0
    ensures TreeQuiet(m, m[LinkWord(t, gm, s, t.depth[s]) := 0], B, gm)
  {
    hide TreeIndex, Key, LinkWord;
    var m' := m[LinkWord(t, gm, s, t.depth[s]) := 0];
    assert SizeOk(t, B, s) && NodeOk(m, t, gm, SlotAt(s, t.depth[s]));
    forall a | TreeOutside(B, gm, a) ensures Rd(m', a) == Rd(m, a) {
      LinkInside(m, t, B, gm, s, t.depth[s], a);
    }
  }

  /** A leaf z of the subtree moves up: it is cut off where it hung and hung where p was. */
  lemma TakeToLeaf(m: Mem, x: Index, gm: int, lo: int, hi: int, p: int, s: int, z: int)
    requires IndexOk(m, x, gm, lo, hi) && p in x.B && x.B[p] == s && s in x.ch && x.ch[s] == [p] && s in x.t.depth && s >= 0
    requires z != s && IsLeaf(x.t, z) && z in x.t.node && x.t.depth[s] < x.t.depth[z]
    requires SlotAt(z, x.t.depth[s]) == SlotAt(s, x.t.depth[s])
    ensures var r, m1 := x.t.node[z], m[LinkWord(x.t, gm, z, x.t.depth[z]) := 0];
            var link := LinkWord(x.t, gm, s, x.t.depth[s]);
            var m' := HangMem(m1, link, Parent(m1, p), r, Child(m1, p, 0), Child(m1, p, 1));
            && IndexOk(m', x.(t := Substituted(Detached(x.t, z), s, z, r), ch := x.ch - {s}, B := x.B - {p}), gm, lo, hi)
            && Quiet(m, m', x.B, gm)
  {
    hide SmallOk, TreeIndex, Key, LinkWord, HangMem, Hung;
    var t, B := x.t, x.B;
    var r, m1, t1 := t.node[z], m[LinkWord(t, gm, z, t.depth[z]) := 0], Detached(t, z);
    var link := LinkWord(t, gm, s, t.depth[s]);
    var m' := HangMem(m1, link, Parent(m1, p), r, Child(m1, p, 0), Child(m1, p, 1));
    assert HeadOk(t, x.ch, s) && SizeOk(t, B, s) && SizeOk(t, B, z);
    NulledReads(m, LinkWord(t, gm, z, t.depth[z]), r);
    Detach(m, m1, t, B, gm, lo, hi, z);
    LinkAfterDetach(m, t, B, gm, s, z);
    LeafChildren(m, t, B, gm, lo, hi, z);
    HangIsHung(m1, t1, B, gm, lo, hi, s, z, r);
    NulledQuiet(m, t, B, gm, z);
    HungQuiet(m1, m', t1, B, gm, lo, hi, s, z, r);
    TreeQuietTwice(m, m1, m', B, gm);
    TakeLargeRest(m, m', x, gm, lo, hi, p);
    UnlinkToLeaf(m, m', x.tm, t, x.ch, B, gm, lo, hi, p, s, z);
  }

  /** A leaf has null children, before and after its own link is nulled. */
  lemma LeafChildren(m: Mem, t: Shape, B: Stock, gm: int, lo: int, hi: int, z: int)
    requires ShapeOk(m, t, B, gm) && Placed(B, lo, hi, gm) && lo > 0 && IsLeaf(t, z) && z in t.node
    ensures var m1 := m[LinkWord(t, gm, z, t.depth[z]) := 0]; Child(m1, t.node[z], 0) == 0 && Child(m1, t.node[z], 1) == 0
  {
    hide TreeIndex, Key, LinkWord;
    ChildIsNode(m, t, B, gm, lo, hi, z, 0);
    ChildIsNode(m, t, B, gm, lo, hi, z, 1);
  }

  /** X->index = I; X->child[0] = X->child[1] = 0 */
  function FreshFields(m: Mem, x: int, i: int): Mem { m[x + 56 := i][x + 40 := 0][x + 32 := 0] }

  lemma FreshReads(m: Mem, x: int, i: int, a: int)
    requires a < x + 16 || x + 64 <= a
    ensures Rd(FreshFields(m, x, i), a) == Rd(m, a)
  {
  }

  /** A trie node is a stocked chunk of its size, clear of the chunk being inserted. */
  lemma NodeApart(m: Mem, x: Index, gm: int, lo: int, hi: int, c: int, p: int, s: int)
    requires IndexOk(m, x, gm, lo, hi) && c in x.t.depth && p !in x.B && s >= 256 && Placed(x.B[p := s], lo, hi, gm)
    ensures c in x.t.node && Far(x.t.node[c], p) && x.t.node[c] in x.B && x.B[x.t.node[c]] == c && x.t.node[c] >= lo
  {
    hide TreeIndex, Key;
    assert SizeOk(x.t, x.B, c);
    var B' := x.B[p := s];
    LargeApart(B', lo, hi, gm, x.t.node[c], p);
    OffState(B', lo, hi, gm, x.t.node[c]);
  }

  // ---------------------------------------------------------------- what the code reads while unlinking

  /** From the trie node p the code can reach the word that points at it, and everything it dereferences is in range. */
  ghost predicate Relinkable(m: Mem, gm: int, lo: int, p: int, link: int, i: int, root: bool) {
    && BinIndex(m, p) == i && 0 <= i < 32
    && (Rd(m, TreeBin(gm, i)) == p <==> root)
    && (root ==> link == TreeBin(gm, i))
    && (!root ==> Parent(m, p) >= lo && link == ChildAt(Parent(m, p), if Child(m, Parent(m, p), 0) == p then 0 else 1))
    && (Child(m, p, 0) != 0 ==> Child(m, p, 0) >= lo && Far(Child(m, p, 0), p))
    && (Child(m, p, 1) != 0 ==> Child(m, p, 1) >= lo)
    && (link < p + 16 || p + 64 <= link)
  }

  lemma ShapeRelinkable(m: Mem, t: Shape, B: Stock, gm: int, lo: int, hi: int, s: int)
    requires ShapeOk(m, t, B, gm) && Placed(B, lo, hi, gm) && lo > 0 && gm > 0 && s in t.depth && s in t.node && s >= 0
    requires BinIndex(m, t.node[s]) == TreeIndex(s)
    ensures Relinkable(m, gm, lo, t.node[s], LinkWord(t, gm, s, t.depth[s]), TreeIndex(s), t.depth[s] == 0)
  {
    hide TreeIndex, Key, LinkWord;
    FindLink(m, t, B, gm, lo, hi, s);
    ChildWord(m, t, B, gm, lo, hi, s, 0);
    ChildWord(m, t, B, gm, lo, hi, s, 1);
    ChildSub(m, t, B, gm, s, 0);
    if ChildSize(t, s, 0) != 0 { LargeApart(B, lo, hi, gm, Child(m, t.node[s], 0), t.node[s]); }
    OffState(B, lo, hi, gm, t.node[s]);
    if t.depth[s] > 0 {
      OffState(B, lo, hi, gm, Parent(m, t.node[s]));
      ParentElsewhere(m, t, B, gm, lo, hi, s);
    }
  }

  lemma ParentElsewhere(m: Mem, t: Shape, B: Stock, gm: int, lo: int, hi: int, s: int)
    requires ShapeOk(m, t, B, gm) && Placed(B, lo, hi, gm) && s in t.depth && s in t.node && s >= 0 && t.depth[s] > 0
    ensures Far(Parent(m, t.node[s]), t.node[s])
  {
    hide TreeIndex, Key;
    assert SizeOk(t, B, s);
    assert NodeOk(m, t, gm, SlotAt(s, t.depth[s]));
    var k := SlotAt(s, t.depth[s] - 1);
    assert NodeOk(m, t, gm, k);
    assert SizeOk(t, B, t.pos[k]);
    if t.pos[k] == s { IdDepth(SizeKey(s), t.depth[s], SizeKey(s), t.depth[s] - 1); }
    OtherNode(t, B, lo, hi, gm, t.pos[k], s);
  }

  lemma RelinkToChain(m: Mem, x: Index, gm: int, lo: int, hi: int, p: int, s: int)
    requires IndexOk(m, x, gm, lo, hi) && p in x.B && x.B[p] == s && s in x.ch && |x.ch[s]| >= 2 && x.ch[s][0] == p
    ensures s in x.t.depth && s >= 0
    ensures var c := x.ch[s];
            Relinkable(LinkOut(m, Prev(c, 0), Next(c, 0)), gm, lo, p, LinkWord(x.t, gm, s, x.t.depth[s]), TreeIndex(s), x.t.depth[s] == 0)
  {
    hide TreeIndex, Key, LinkWord, SmallOk, Relinkable;
    var c := x.ch[s];
    assert HeadOk(x.t, x.ch, s);
    assert SizeOk(x.t, x.B, s);
    var r, f := Prev(c, 0), Next(c, 0);
    MemberIn(m, x.ch, x.B, s, 0);
    MemberIn(m, x.ch, x.B, s, 1);
    MemberIn(m, x.ch, x.B, s, |c| - 1);
    if r != f { LargeApart(x.B, lo, hi, gm, r, f); }
    if p != r { LargeApart(x.B, lo, hi, gm, p, r); }
    if p != f { LargeApart(x.B, lo, hi, gm, p, f); }
    LinkOutReads(m, r, f);
    ShapeSurvivesLinkOut(m, x.t, x.B, gm, lo, hi, r, f);
    ShapeRelinkable(LinkOut(m, r, f), x.t, x.B, gm, lo, hi, s);
  }

  lemma RelinkAlone(m: Mem, x: Index, gm: int, lo: int, hi: int, p: int, s: int)
    requires IndexOk(m, x, gm, lo, hi) && p in x.B && x.B[p] == s && s in x.ch && |x.ch[s]| >= 1 && x.ch[s][0] == p
    ensures s in x.t.depth && s >= 0 && s in x.t.node && x.t.node[s] == p
    ensures Relinkable(m, gm, lo, p, LinkWord(x.t, gm, s, x.t.depth[s]), TreeIndex(s), x.t.depth[s] == 0)
  {
    hide TreeIndex, Key, LinkWord, SmallOk, Relinkable;
    assert HeadOk(x.t, x.ch, s);
    assert SizeOk(x.t, x.B, s);
    MemberIn(m, x.ch, x.B, s, 0);
    ShapeRelinkable(m, x.t, x.B, gm, lo, hi, s);
  }

  lemma RelinkToLeaf(m: Mem, x: Index, gm: int, lo: int, hi: int, p: int, s: int, z: int)
    requires IndexOk(m, x, gm, lo, hi) && p in x.B && x.B[p] == s && s in x.ch && |x.ch[s]| >= 1 && x.ch[s][0] == p
    requires s in x.t.depth && s >= 0
    requires z != s && IsLeaf(x.t, z) && z in x.t.node && x.t.depth[s] < x.t.depth[z]
    ensures Relinkable(m[LinkWord(x.t, gm, z, x.t.depth[z]) := 0], gm, lo, p, LinkWord(x.t, gm, s, x.t.depth[s]), TreeIndex(s), x.t.depth[s] == 0)
    ensures LinkWord(x.t, gm, z, x.t.depth[z]) != p + 48
  {
    hide TreeIndex, Key, LinkWord, SmallOk, Relinkable;
    var t, link := x.t, LinkWord(x.t, gm, z, x.t.depth[z]);
    assert HeadOk(t, x.ch, s);
    assert SizeOk(t, x.B, s) && SizeOk(t, x.B, z);
    NulledReads(m, link, t.node[z]);
    Detach(m, m[link := 0], t, x.B, gm, lo, hi, z);
    LinkAfterDetach(m, t, x.B, gm, s, z);
    MemberIn(m, x.ch, x.B, s, 0);
    assert NodeOk(m, t, gm, SlotAt(z, t.depth[z]));
    LinkUnread(m, t, x.ch, x.B, gm, lo, hi, z, t.depth[z], s, 0);
    ShapeRelinkable(m[link := 0], Detached(t, z), x.B, gm, lo, hi, s);
    LinkNotParentWord(m, t, x.B, gm, lo, hi, s, z);
  }

  lemma LinkNotParentWord(m: Mem, t: Shape, B: Stock, gm: int, lo: int, hi: int, s: int, z: int)
    requires ShapeOk(m, t, B, gm) && Placed(B, lo, hi, gm) && s in t.depth && s in t.node && z in t.depth && z >= 0 && t.depth[z] > 0
    ensures LinkWord(t, gm, z, t.depth[z]) != t.node[s] + 48
  {
    hide TreeIndex, Key;
    assert SizeOk(t, B, z) && SizeOk(t, B, s);
    assert NodeOk(m, t, gm, SlotAt(z, t.depth[z]));
    var k := SlotAt(z, t.depth[z] - 1);
    assert NodeOk(m, t, gm, k);
    assert SizeOk(t, B, t.pos[k]);
    if t.pos[k] != s { OtherNode(t, B, lo, hi, gm, t.pos[k], s); }
  }

  /** The child word leading to a child is the link word of the size stored there. */
  lemma ChildLink(m: Mem, x: Index, gm: int, lo: int, hi: int, y: int, b: int)
    requires IndexOk(m, x, gm, lo, hi) && y in x.t.depth && y >= 0 && (b == 0 || b == 1)
    ensures y in x.t.node && x.t.node[y] in x.B && x.t.node[y] >= lo
    ensures var w, z := Child(m, x.t.node[y], b), ChildSize(x.t, y, b);
            && (w == 0 <==> z == 0)
            && (z != 0 ==> z in x.t.depth && z >= 256 && z in x.t.node && x.t.node[z] == w && w >= lo)
            && (z != 0 ==> x.t.depth[z] == x.t.depth[y] + 1 && x.t.depth[z] <= 64)
            && (z != 0 ==> SlotAt(z, x.t.depth[y]) == SlotAt(y, x.t.depth[y]))
            && (z != 0 ==> LinkWord(x.t, gm, z, x.t.depth[z]) == ChildAt(x.t.node[y], b))
  {
    hide TreeIndex, Key;
    var t := x.t;
    ChildWord(m, t, x.B, gm, lo, hi, y, b);
    ChildSub(m, t, x.B, gm, y, b);
    assert SizeOk(t, x.B, y);
    OffState(x.B, lo, hi, gm, t.node[y]);
    var z := ChildSize(t, y, b);
    if z != 0 { assert SizeOk(t, x.B, z); }
  }

  /** Slots along one downward walk agree above the start. */
  lemma WalkDown(t: Shape, s: int, y: int, z: int)
    requires s in t.depth && y in t.depth && z in t.depth && s >= 0 && y >= 0 && z >= 0 && t.depth[s] <= t.depth[y]
    requires SlotAt(y, t.depth[s]) == SlotAt(s, t.depth[s]) && SlotAt(z, t.depth[y]) == SlotAt(y, t.depth[y])
    ensures SlotAt(z, t.depth[s]) == SlotAt(s, t.depth[s])
  {
    hide TreeIndex, Key;
    IdAgree(SizeKey(z), SizeKey(y), t.depth[y], t.depth[s]);
  }

  /** Memory changes that stay outside the index words leave the index as it was. */
  lemma IndexFrame(m: Mem, m': Mem, x: Index, gm: int, lo: int, hi: int)
    requires IndexOk(m, x, gm, lo, hi)
    requires forall a {:trigger Rd(m', a)} :: !Outside(x.B, gm, a) ==> Rd(m', a) == Rd(m, a)
    ensures IndexOk(m', x, gm, lo, hi)
  {
    hide SmallOk, TreeOk;
    forall y | y in x.B ensures LinksKept(m, m', y) && (x.B[y] >= 256 ==> MemberKept(m, m', y, 1)) {
      assert InPlace(x.B, y, lo, hi);
      forall a | y + 16 <= a < y + x.B[y] ensures Rd(m', a) == Rd(m, a) { assert !Outside(x.B, gm, a); }
    }
    forall i | 0 <= i < 32 ensures LinksKept(m, m', Header(gm, i)) && Rd(m', TreeBin(gm, i)) == Rd(m, TreeBin(gm, i)) {
    }
    SmallFrame(m, m', x.sm, x.bins, x.B, x.B, gm);
    TreeFrame(m, m', x.tm, x.t, x.ch, x.B, x.B, gm);
  }
}
