/** The parent and child pointers of the 32 tree bins, each a bitwise trie keyed on chunk size. */
module TreeShape {
  import opened Memory
  import opened SizeClass
  import opened Trie
  import opened SmallBins

  const MAX_SIZE := 0x100_0000_0000

  /** treebin_at(M, i) */
  function TreeBin(gm: int, i: int): int { gm + 600 + 8 * i }

  function ChildAt(x: int, b: int): int { x + 32 + 8 * b }

  function Child(m: Mem, x: int, b: int): int { Rd(m, ChildAt(x, b)) }

  function Parent(m: Mem, x: int): int { Rd(m, x + 48) }

  /** A position in a bin's trie; id 1 is the root and id n has children 2n and 2n + 1. */
  datatype Slot = Slot(bin: int, id: int)

  /** Which size occupies each slot, how deep each size sits, and which chunk is its tree node. */
  datatype Shape = Shape(pos: map<Slot, int>, depth: map<int, nat>, node: map<int, int>)

  function SizeKey(s: int): int
    requires s >= 0
  {
    Key(s, TreeIndex(s))
  }

  function SlotAt(s: int, d: nat): Slot
    requires s >= 0
  {
    Slot(TreeIndex(s), Id(SizeKey(s), d))
  }

  function At(t: Shape, k: Slot): int {
    if k in t.pos && t.pos[k] in t.node then t.node[t.pos[k]] else 0
  }

  /** A stored size occupies the slot its own key bits lead to, and its node is a stocked chunk of that size. */
  ghost predicate SizeOk(t: Shape, B: Stock, s: int)
    requires s in t.depth
  {
    && 256 <= s < MAX_SIZE && t.depth[s] <= 64
    && s in t.node && t.node[s] in B && B[t.node[s]] == s
    && SlotAt(s, t.depth[s]) in t.pos && t.pos[SlotAt(s, t.depth[s])] == s
  }

  /** The occupant of slot k points at its children and its parent. */
  ghost predicate NodeOk(m: Mem, t: Shape, gm: int, k: Slot)
    requires k in t.pos
  {
    var s := t.pos[k];
    && s in t.depth && s in t.node && s >= 0 && SlotAt(s, t.depth[s]) == k
    && Child(m, t.node[s], 0) == At(t, Slot(k.bin, 2 * k.id))
    && Child(m, t.node[s], 1) == At(t, Slot(k.bin, 2 * k.id + 1))
    && (t.depth[s] == 0 ==> Parent(m, t.node[s]) == TreeBin(gm, k.bin))
    && (t.depth[s] > 0 ==> SlotAt(s, t.depth[s] - 1) in t.pos && Parent(m, t.node[s]) == At(t, SlotAt(s, t.depth[s] - 1)))
  }

  ghost predicate RootOk(m: Mem, t: Shape, gm: int, i: int)
    requires 0 <= i < 32
  {
    Rd(m, TreeBin(gm, i)) == At(t, Slot(i, 1))
  }

  ghost predicate ShapeOk(m: Mem, t: Shape, B: Stock, gm: int) {
    && (forall s {:trigger SizeOk(t, B, s)} :: s in t.depth ==> SizeOk(t, B, s))
    && (forall k {:trigger NodeOk(m, t, gm, k)} :: k in t.pos ==> NodeOk(m, t, gm, k))
    && (forall i {:trigger RootOk(m, t, gm, i)} :: 0 <= i < 32 ==> RootOk(m, t, gm, i))
  }

  /** Two stocked chunks of tree size are far enough apart that no tree field is shared. */
  lemma LargeApart(B: Stock, lo: int, hi: int, gm: int, x: int, y: int)
    requires Placed(B, lo, hi, gm) && x in B && y in B && B[x] >= 256 && B[y] >= 256 && x != y
    ensures x + 256 <= y || y + 256 <= x
  {
    assert Disjoint(B, x, y) && Disjoint(B, y, x);
  }

  lemma OffState(B: Stock, lo: int, hi: int, gm: int, x: int)
    requires Placed(B, lo, hi, gm) && x in B && B[x] >= 256
    ensures x + 256 <= gm || gm + STATE_SIZE <= x
    ensures x >= lo
  {
    assert InPlace(B, x, lo, hi);
  }

  lemma OtherNode(t: Shape, B: Stock, lo: int, hi: int, gm: int, s: int, u: int)
    requires Placed(B, lo, hi, gm) && s in t.depth && u in t.depth && s != u && SizeOk(t, B, s) && SizeOk(t, B, u)
    ensures t.node[s] + 256 <= t.node[u] || t.node[u] + 256 <= t.node[s]
  {
    LargeApart(B, lo, hi, gm, t.node[s], t.node[u]);
  }

  /** Tree words of node x are the same in both memories. */
  ghost predicate TreeWordsKept(m: Mem, m': Mem, x: int) {
    Child(m', x, 0) == Child(m, x, 0) && Child(m', x, 1) == Child(m, x, 1) && Parent(m', x) == Parent(m, x)
  }

  lemma ShapeFrame(m: Mem, m': Mem, t: Shape, B: Stock, B': Stock, gm: int)
    requires ShapeOk(m, t, B, gm)
    requires forall s {:trigger t.node[s]} :: s in t.depth && s in t.node ==>
               TreeWordsKept(m, m', t.node[s]) && t.node[s] in B' && (t.node[s] in B ==> B'[t.node[s]] == B[t.node[s]])
    requires forall i {:trigger TreeBin(gm, i)} :: 0 <= i < 32 ==> Rd(m', TreeBin(gm, i)) == Rd(m, TreeBin(gm, i))
    ensures ShapeOk(m', t, B', gm)
  {
    forall s | s in t.depth ensures SizeOk(t, B', s) { assert SizeOk(t, B, s); }
    forall k | k in t.pos ensures NodeOk(m', t, gm, k) { assert NodeOk(m, t, gm, k); }
    forall i | 0 <= i < 32 ensures RootOk(m', t, gm, i) {
      assert RootOk(m, t, gm, i);
      assert Rd(m', TreeBin(gm, i)) == Rd(m, TreeBin(gm, i));
    }
  }

  /** Every ancestor slot of an occupied slot is occupied. */
  lemma {:induction false} AncestorOccupied(m: Mem, t: Shape, B: Stock, gm: int, s: int, d: nat)
    requires ShapeOk(m, t, B, gm) && s in t.depth && s >= 0 && d <= t.depth[s]
    ensures SlotAt(s, d) in t.pos
    decreases t.depth[s] - d
  {
    hide TreeIndex, Key;
    assert SizeOk(t, B, s);
    if d < t.depth[s] {
      AncestorOccupied(m, t, B, gm, s, d + 1);
      var k := SlotAt(s, d + 1);
      var u := t.pos[k];
      assert NodeOk(m, t, gm, k);
      IdDepth(SizeKey(u), t.depth[u], SizeKey(s), d + 1);
      IdAgree(SizeKey(u), SizeKey(s), d + 1, d);
    }
  }

  /** Size s, which is new, takes the free slot at depth d below an occupied one (or a free root). */
  ghost predicate Vacant(t: Shape, s: int, d: nat) {
    && 256 <= s < MAX_SIZE && d <= 64 && s !in t.depth
    && SlotAt(s, d) !in t.pos && (d > 0 ==> SlotAt(s, d - 1) in t.pos)
  }

  function Attached(t: Shape, s: int, d: nat, x: int): Shape
    requires s >= 0
  {
    Shape(t.pos[SlotAt(s, d) := s], t.depth[s := d], t.node[s := x])
  }

  /** The word through which the slot of size s at depth d is reached. */
  function LinkWord(t: Shape, gm: int, s: int, d: nat): int
    requires s >= 0
  {
    if d == 0 then TreeBin(gm, TreeIndex(s)) else ChildAt(At(t, SlotAt(s, d - 1)), KeyBit(SizeKey(s), d - 1))
  }

  function ParentWord(t: Shape, gm: int, s: int, d: nat): int
    requires s >= 0
  {
    if d == 0 then TreeBin(gm, TreeIndex(s)) else At(t, SlotAt(s, d - 1))
  }

  /** X->index = I; X->child[0] = X->child[1] = 0; *link = X; X->parent = par; X->fd = X->bk = X */
  function AttachMem(m: Mem, i: int, x: int, link: int, par: int): Mem {
    m[x + 56 := i][x + 40 := 0][x + 32 := 0][link := x][x + 48 := par][x + 24 := x][x + 16 := x]
  }

  /** What attaching changes: the link word and the fields of x. */
  lemma AttachReads(m: Mem, i: int, x: int, link: int, par: int)
    requires link < x + 16 || link >= x + 64
    ensures var m' := AttachMem(m, i, x, link, par);
            && Rd(m', link) == x && Child(m', x, 0) == 0 && Child(m', x, 1) == 0 && Parent(m', x) == par
            && forall a {:trigger Rd(m', a)} :: a != link && (a < x + 16 || a >= x + 64) ==> Rd(m', a) == Rd(m, a)
  {
  }

  /** The link word belongs to the state or to another node, never to x. */
  lemma LinkPlace(m: Mem, t: Shape, B: Stock, gm: int, lo: int, hi: int, s: int, d: nat, x: int)
    requires ShapeOk(m, t, B, gm) && Placed(B, lo, hi, gm) && s >= 0
    requires d > 0 ==> SlotAt(s, d - 1) in t.pos
    requires x in B && B[x] >= 256 && (forall u :: u in t.node && u in t.depth ==> t.node[u] != x)
    ensures var link := LinkWord(t, gm, s, d); link + 256 <= x + 64 || link >= x + 64 || link < x + 16
    ensures d > 0 ==> var u := t.pos[SlotAt(s, d - 1)]; u in t.depth && u in t.node && At(t, SlotAt(s, d - 1)) == t.node[u]
  {
    if d == 0 {
      OffState(B, lo, hi, gm, x);
    } else {
      var k := SlotAt(s, d - 1);
      var u := t.pos[k];
      assert NodeOk(m, t, gm, k);
      assert SizeOk(t, B, u);
      LargeApart(B, lo, hi, gm, t.node[u], x);
    }
  }

  lemma ChildSlot(s: int, d: nat, u: int, e: nat, b: int)
    requires s >= 0 && u >= 0 && (b == 0 || b == 1)
    requires Id(SizeKey(u), e) == 2 * Id(SizeKey(s), d) + b
    ensures e == d + 1 && Id(SizeKey(u), d) == Id(SizeKey(s), d) && KeyBit(SizeKey(u), d) == b
  {
    assert e != 0;
    IdDepth(SizeKey(u), e - 1, SizeKey(s), d);
  }

  /** Below a free slot every slot is free. */
  lemma NoOrphans(m: Mem, t: Shape, B: Stock, gm: int, s: int, d: nat, b: int)
    requires ShapeOk(m, t, B, gm) && s >= 0 && SlotAt(s, d) !in t.pos && (b == 0 || b == 1)
    ensures Slot(TreeIndex(s), 2 * Id(SizeKey(s), d) + b) !in t.pos
  {
    var k := Slot(TreeIndex(s), 2 * Id(SizeKey(s), d) + b);
    if k in t.pos {
      assert NodeOk(m, t, gm, k);
      ChildSlot(s, d, t.pos[k], t.depth[t.pos[k]], b);
    }
  }

  /** m' differs from m only in the link word, which now holds v, and in the fields of x. */
  ghost predicate LinkedTo(m: Mem, m': Mem, link: int, v: int, x: int) {
    && Rd(m', link) == v
    && forall a {:trigger Rd(m', a)} :: a != link && (a < x + 16 || a >= x + 64) ==> Rd(m', a) == Rd(m, a)
  }

  /** Relinking the slot of s at depth d changes one child word of its parent and no word of a node away from x. */
  lemma PatchWords(m: Mem, m': Mem, t: Shape, B: Stock, gm: int, lo: int, hi: int, s: int, d: nat, v: int, x: int, k: Slot)
    requires ShapeOk(m, t, B, gm) && Placed(B, lo, hi, gm)
    requires s >= 0 && (d > 0 ==> SlotAt(s, d - 1) in t.pos)
    requires x in B && B[x] >= 256 && LinkedTo(m, m', LinkWord(t, gm, s, d), v, x)
    requires k in t.pos && t.pos[k] in t.node && t.node[t.pos[k]] != x
    ensures d == 0 || k != SlotAt(s, d - 1) ==> TreeWordsKept(m, m', t.node[t.pos[k]])
    ensures d > 0 && k == SlotAt(s, d - 1) ==>
              var y, b := t.node[t.pos[k]], KeyBit(SizeKey(s), d - 1);
              Child(m', y, b) == v && Child(m', y, 1 - b) == Child(m, y, 1 - b) && Parent(m', y) == Parent(m, y)
  {
    hide TreeIndex, Key;
    var u := t.pos[k];
    var y := t.node[u];
    assert NodeOk(m, t, gm, k);
    assert SizeOk(t, B, u);
    LargeApart(B, lo, hi, gm, x, y);
    if d == 0 {
      OffState(B, lo, hi, gm, y);
    } else {
      var j := SlotAt(s, d - 1);
      var p := t.pos[j];
      assert NodeOk(m, t, gm, j);
      assert SizeOk(t, B, p);
      if p != u { OtherNode(t, B, lo, hi, gm, p, u); }
    }
  }

  lemma PatchRoot(m: Mem, m': Mem, t: Shape, B: Stock, gm: int, lo: int, hi: int, s: int, d: nat, v: int, x: int, i: int)
    requires ShapeOk(m, t, B, gm) && Placed(B, lo, hi, gm)
    requires s >= 0 && (d > 0 ==> SlotAt(s, d - 1) in t.pos)
    requires x in B && B[x] >= 256 && LinkedTo(m, m', LinkWord(t, gm, s, d), v, x) && 0 <= i < 32
    ensures Rd(m', TreeBin(gm, i)) == if d == 0 && i == TreeIndex(s) then v else Rd(m, TreeBin(gm, i))
  {
    hide TreeIndex, Key;
    OffState(B, lo, hi, gm, x);
    if d > 0 {
      var j := SlotAt(s, d - 1);
      assert NodeOk(m, t, gm, j);
      assert SizeOk(t, B, t.pos[j]);
      OffState(B, lo, hi, gm, t.node[t.pos[j]]);
    }
  }

  lemma AttachNode(m: Mem, m': Mem, t: Shape, B: Stock, gm: int, lo: int, hi: int, s: int, d: nat, x: int, k: Slot)
    requires ShapeOk(m, t, B, gm) && Placed(B, lo, hi, gm) && Vacant(t, s, d)
    requires x in B && B[x] == s && LinkedTo(m, m', LinkWord(t, gm, s, d), x, x)
    requires k in t.pos
    ensures NodeOk(m', Attached(t, s, d, x), gm, k)
  {
    hide TreeIndex, Key;
    assert NodeOk(m, t, gm, k);
    assert SizeOk(t, B, t.pos[k]);
    PatchWords(m, m', t, B, gm, lo, hi, s, d, x, x, k);
    AttachAt(m, t, B, gm, s, d, x, Slot(k.bin, 2 * k.id));
    AttachAt(m, t, B, gm, s, d, x, Slot(k.bin, 2 * k.id + 1));
    var u := t.pos[k];
    if t.depth[u] > 0 { AttachAt(m, t, B, gm, s, d, x, SlotAt(u, t.depth[u] - 1)); }
    var n := SlotAt(s, d);
    if d > 0 {
      assert n.id == 2 * Id(SizeKey(s), d - 1) + KeyBit(SizeKey(s), d - 1);
    }
  }

  lemma NotANode(t: Shape, B: Stock, s: int, x: int, m: Mem, gm: int)
    requires ShapeOk(m, t, B, gm) && s !in t.depth && x in B && B[x] == s
    ensures forall u :: u in t.node && u in t.depth ==> t.node[u] != x
  {
    forall u | u in t.node && u in t.depth ensures t.node[u] != x { assert SizeOk(t, B, u); }
  }

  lemma AttachAt(m: Mem, t: Shape, B: Stock, gm: int, s: int, d: nat, x: int, k: Slot)
    requires ShapeOk(m, t, B, gm) && Vacant(t, s, d)
    ensures At(Attached(t, s, d, x), k) == if k == SlotAt(s, d) then x else At(t, k)
  {
    hide TreeIndex, Key;
    if k in t.pos { assert NodeOk(m, t, gm, k); }
  }

  lemma AttachNew(m: Mem, m': Mem, t: Shape, B: Stock, gm: int, s: int, d: nat, x: int)
    requires ShapeOk(m, t, B, gm) && Vacant(t, s, d)
    requires Child(m', x, 0) == 0 && Child(m', x, 1) == 0 && Parent(m', x) == ParentWord(t, gm, s, d)
    ensures NodeOk(m', Attached(t, s, d, x), gm, SlotAt(s, d))
  {
    hide TreeIndex, Key;
    NoOrphans(m, t, B, gm, s, d, 0);
    NoOrphans(m, t, B, gm, s, d, 1);
    if d > 0 { AttachAt(m, t, B, gm, s, d, x, SlotAt(s, d - 1)); }
  }

  lemma AttachRoot(m: Mem, m': Mem, t: Shape, B: Stock, gm: int, lo: int, hi: int, s: int, d: nat, x: int, i: int)
    requires ShapeOk(m, t, B, gm) && Placed(B, lo, hi, gm) && Vacant(t, s, d)
    requires x in B && B[x] == s && LinkedTo(m, m', LinkWord(t, gm, s, d), x, x) && 0 <= i < 32
    ensures RootOk(m', Attached(t, s, d, x), gm, i)
  {
    hide TreeIndex, Key;
    assert RootOk(m, t, gm, i);
    AttachAt(m, t, B, gm, s, d, x, Slot(i, 1));
    PatchRoot(m, m', t, B, gm, lo, hi, s, d, x, x, i);
    assert d > 0 ==> SlotAt(s, d).id >= 2;
  }

  /** Attaching a new size at the free slot its key leads to keeps every trie well formed. */
  lemma Attach(m: Mem, m': Mem, t: Shape, B: Stock, gm: int, lo: int, hi: int, s: int, d: nat, x: int)
    requires ShapeOk(m, t, B, gm) && Placed(B, lo, hi, gm) && Vacant(t, s, d)
    requires x in B && B[x] == s && LinkedTo(m, m', LinkWord(t, gm, s, d), x, x)
    requires Child(m', x, 0) == 0 && Child(m', x, 1) == 0 && Parent(m', x) == ParentWord(t, gm, s, d)
    ensures ShapeOk(m', Attached(t, s, d, x), B, gm)
  {
    hide TreeIndex, Key;
    var t' := Attached(t, s, d, x);
    forall u | u in t'.depth ensures SizeOk(t', B, u) {
      if u != s { assert SizeOk(t, B, u); }
    }
    forall k | k in t'.pos ensures NodeOk(m', t', gm, k) {
      if k == SlotAt(s, d) {
        AttachNew(m, m', t, B, gm, s, d, x);
      } else {
        AttachNode(m, m', t, B, gm, lo, hi, s, d, x, k);
      }
    }
    forall i | 0 <= i < 32 ensures RootOk(m', t', gm, i) {
      AttachRoot(m, m', t, B, gm, lo, hi, s, d, x, i);
    }
  }

  // ---------------------------------------------------------------- removing a leaf

  /** s is stored at a slot with no occupied child. */
  ghost predicate IsLeaf(t: Shape, s: int) {
    && s in t.depth && s >= 0
    && Slot(TreeIndex(s), 2 * Id(SizeKey(s), t.depth[s])) !in t.pos
    && Slot(TreeIndex(s), 2 * Id(SizeKey(s), t.depth[s]) + 1) !in t.pos
  }

  function Detached(t: Shape, s: int): Shape
    requires s in t.depth && s >= 0
  {
    Shape(t.pos - {SlotAt(s, t.depth[s])}, t.depth - {s}, t.node - {s})
  }

  lemma DetachAt(m: Mem, t: Shape, B: Stock, gm: int, s: int, k: Slot)
    requires ShapeOk(m, t, B, gm) && s in t.depth && s >= 0
    ensures At(Detached(t, s), k) == if k == SlotAt(s, t.depth[s]) then 0 else At(t, k)
  {
    hide TreeIndex, Key;
    assert SizeOk(t, B, s);
    if k in t.pos { assert NodeOk(m, t, gm, k); }
  }

  lemma DetachNode(m: Mem, m': Mem, t: Shape, B: Stock, gm: int, lo: int, hi: int, s: int, k: Slot)
    requires ShapeOk(m, t, B, gm) && Placed(B, lo, hi, gm) && IsLeaf(t, s) && s in t.node
    requires LinkedTo(m, m', LinkWord(t, gm, s, t.depth[s]), 0, t.node[s])
    requires k in t.pos && k != SlotAt(s, t.depth[s])
    ensures NodeOk(m', Detached(t, s), gm, k)
  {
    hide TreeIndex, Key;
    var d, u := t.depth[s], t.pos[k];
    assert SizeOk(t, B, s) && NodeOk(m, t, gm, SlotAt(s, d));
    assert NodeOk(m, t, gm, k) && SizeOk(t, B, u);
    PatchWords(m, m', t, B, gm, lo, hi, s, d, 0, t.node[s], k);
    assert d > 0 ==> SlotAt(s, d).id == 2 * SlotAt(s, d - 1).id + KeyBit(SizeKey(s), d - 1);
    DetachAt(m, t, B, gm, s, Slot(k.bin, 2 * k.id));
    DetachAt(m, t, B, gm, s, Slot(k.bin, 2 * k.id + 1));
    if t.depth[u] > 0 {
      DetachAt(m, t, B, gm, s, SlotAt(u, t.depth[u] - 1));
      NotAbove(t, s, u);
    }
  }

  lemma NotAbove(t: Shape, s: int, u: int)
    requires IsLeaf(t, s) && u in t.depth && u >= 0 && t.depth[u] > 0
    requires SlotAt(u, t.depth[u]) in t.pos
    ensures SlotAt(u, t.depth[u] - 1) != SlotAt(s, t.depth[s])
  {
  }

  lemma DetachRoot(m: Mem, m': Mem, t: Shape, B: Stock, gm: int, lo: int, hi: int, s: int, i: int)
    requires ShapeOk(m, t, B, gm) && Placed(B, lo, hi, gm) && IsLeaf(t, s) && s in t.node && 0 <= i < 32
    requires LinkedTo(m, m', LinkWord(t, gm, s, t.depth[s]), 0, t.node[s])
    ensures RootOk(m', Detached(t, s), gm, i)
  {
    hide TreeIndex, Key;
    var d := t.depth[s];
    assert RootOk(m, t, gm, i);
    DetachAt(m, t, B, gm, s, Slot(i, 1));
    assert SizeOk(t, B, s) && NodeOk(m, t, gm, SlotAt(s, d));
    PatchRoot(m, m', t, B, gm, lo, hi, s, d, 0, t.node[s], i);
    assert d > 0 ==> SlotAt(s, d).id >= 2;
  }

  /** Nulling the one word that reaches a leaf removes exactly that size from its trie. */
  lemma Detach(m: Mem, m': Mem, t: Shape, B: Stock, gm: int, lo: int, hi: int, s: int)
    requires ShapeOk(m, t, B, gm) && Placed(B, lo, hi, gm) && IsLeaf(t, s) && s in t.node
    requires LinkedTo(m, m', LinkWord(t, gm, s, t.depth[s]), 0, t.node[s])
    ensures ShapeOk(m', Detached(t, s), B, gm)
  {
    hide TreeIndex, Key;
    var t' := Detached(t, s);
    assert SizeOk(t, B, s);
    forall u | u in t'.depth ensures SizeOk(t', B, u) { assert SizeOk(t, B, u); }
    forall k | k in t'.pos ensures NodeOk(m', t', gm, k) { DetachNode(m, m', t, B, gm, lo, hi, s, k); }
    forall i | 0 <= i < 32 ensures RootOk(m', t', gm, i) { DetachRoot(m, m', t, B, gm, lo, hi, s, i); }
  }

  // ---------------------------------------------------------------- replacing a node

  /** m' hangs r where x was: from the link word, with x's parent and children. */
  ghost predicate Hung(m: Mem, m': Mem, link: int, x: int, r: int) {
    var c0, c1 := Child(m, x, 0), Child(m, x, 1);
    && Rd(m', link) == r && Parent(m', r) == Parent(m, x) && Child(m', r, 0) == c0 && Child(m', r, 1) == c1
    && (c0 != 0 ==> Parent(m', c0) == r) && (c1 != 0 ==> Parent(m', c1) == r)
    && forall a {:trigger Rd(m', a)} ::
         (a != link && (a < r + 32 || a >= r + 56) && (c0 == 0 || a != c0 + 48) && (c1 == 0 || a != c1 + 48)) ==>
           Rd(m', a) == Rd(m, a)
  }

  /** Size z with node r may take over the slot of size s: its key passes through that slot. */
  ghost predicate Heir(t: Shape, B: Stock, s: int, z: int, r: int) {
    && s in t.depth && s >= 0 && s in t.node
    && 256 <= z < MAX_SIZE && (z == s || z !in t.depth)
    && SlotAt(z, t.depth[s]) == SlotAt(s, t.depth[s])
    && r in B && B[r] == z && r != t.node[s]
  }

  function Substituted(t: Shape, s: int, z: int, r: int): Shape
    requires s in t.depth && s >= 0
  {
    Shape(t.pos[SlotAt(s, t.depth[s]) := z], (t.depth - {s})[z := t.depth[s]], (t.node - {s})[z := r])
  }

  lemma SubAt(m: Mem, t: Shape, B: Stock, gm: int, s: int, z: int, r: int, k: Slot)
    requires ShapeOk(m, t, B, gm) && Heir(t, B, s, z, r)
    ensures At(Substituted(t, s, z, r), k) == if k == SlotAt(s, t.depth[s]) then r else At(t, k)
  {
    hide TreeIndex, Key;
    if k in t.pos { assert NodeOk(m, t, gm, k); }
  }

  /** The nodes below x in m, as stocked chunks. */
  lemma ChildIsNode(m: Mem, t: Shape, B: Stock, gm: int, lo: int, hi: int, s: int, b: int)
    requires ShapeOk(m, t, B, gm) && Placed(B, lo, hi, gm) && lo > 0 && s in t.depth && s >= 0 && s in t.node && (b == 0 || b == 1)
    ensures var c := Child(m, t.node[s], b);
            var k := Slot(TreeIndex(s), 2 * Id(SizeKey(s), t.depth[s]) + b);
            && (c == 0 <==> k !in t.pos)
            && (c != 0 ==> var u := t.pos[k]; u in t.depth && u in t.node && u != s && c == t.node[u] && c in B && B[c] == u && u >= 256)
            && (c != 0 ==> var u := t.pos[k]; t.depth[u] == t.depth[s] + 1 && SlotAt(u, t.depth[s]) == SlotAt(s, t.depth[s]))
  {
    hide TreeIndex, Key;
    assert SizeOk(t, B, s);
    assert NodeOk(m, t, gm, SlotAt(s, t.depth[s]));
    var k := Slot(TreeIndex(s), 2 * Id(SizeKey(s), t.depth[s]) + b);
    if k in t.pos {
      var u := t.pos[k];
      assert NodeOk(m, t, gm, k);
      assert SizeOk(t, B, u);
      OffState(B, lo, hi, gm, t.node[u]);
      ChildSlot(s, t.depth[s], u, t.depth[u], b);
    }
  }

  /** Two occupied slots with the same node are the same slot. */
  lemma SameNode(m: Mem, t: Shape, B: Stock, gm: int, k: Slot, j: Slot)
    requires ShapeOk(m, t, B, gm) && k in t.pos && j in t.pos && At(t, k) == At(t, j)
    ensures k == j
  {
    assert NodeOk(m, t, gm, k) && NodeOk(m, t, gm, j);
    assert SizeOk(t, B, t.pos[k]) && SizeOk(t, B, t.pos[j]);
  }

  lemma HungChildren(m: Mem, m': Mem, t: Shape, B: Stock, gm: int, lo: int, hi: int, s: int, z: int, r: int, k: Slot)
    requires ShapeOk(m, t, B, gm) && Placed(B, lo, hi, gm) && lo > 0 && Heir(t, B, s, z, r)
    requires Hung(m, m', LinkWord(t, gm, s, t.depth[s]), t.node[s], r)
    requires k in t.pos && k != SlotAt(s, t.depth[s]) && t.pos[k] in t.node
    ensures var y, d := t.node[t.pos[k]], t.depth[s];
            if d > 0 && k == SlotAt(s, d - 1) then
              var b := KeyBit(SizeKey(s), d - 1);
              Child(m', y, b) == r && Child(m', y, 1 - b) == Child(m, y, 1 - b)
            else
              Child(m', y, 0) == Child(m, y, 0) && Child(m', y, 1) == Child(m, y, 1)
  {
    hide TreeIndex, Key;
    var u, d := t.pos[k], t.depth[s];
    var y := t.node[u];
    assert NodeOk(m, t, gm, k) && SizeOk(t, B, u) && SizeOk(t, B, s) && NodeOk(m, t, gm, SlotAt(s, d));
    LargeApart(B, lo, hi, gm, r, y);
    ChildIsNode(m, t, B, gm, lo, hi, s, 0);
    ChildIsNode(m, t, B, gm, lo, hi, s, 1);
    var c0, c1 := Child(m, t.node[s], 0), Child(m, t.node[s], 1);
    if c0 != 0 && c0 != y { LargeApart(B, lo, hi, gm, c0, y); }
    if c1 != 0 && c1 != y { LargeApart(B, lo, hi, gm, c1, y); }
    if d == 0 {
      OffState(B, lo, hi, gm, y);
    } else {
      var j := SlotAt(s, d - 1);
      assert NodeOk(m, t, gm, j) && SizeOk(t, B, t.pos[j]);
      if t.pos[j] != u { OtherNode(t, B, lo, hi, gm, t.pos[j], u); }
    }
  }

  lemma HungParent(m: Mem, m': Mem, t: Shape, B: Stock, gm: int, lo: int, hi: int, s: int, z: int, r: int, k: Slot)
    requires ShapeOk(m, t, B, gm) && Placed(B, lo, hi, gm) && lo > 0 && Heir(t, B, s, z, r)
    requires Hung(m, m', LinkWord(t, gm, s, t.depth[s]), t.node[s], r)
    requires k in t.pos && k != SlotAt(s, t.depth[s]) && t.pos[k] in t.node
    ensures var y := t.node[t.pos[k]];
            Parent(m', y) == if y == Child(m, t.node[s], 0) || y == Child(m, t.node[s], 1) then r else Parent(m, y)
  {
    hide TreeIndex, Key;
    var u, d := t.pos[k], t.depth[s];
    var y := t.node[u];
    assert NodeOk(m, t, gm, k) && SizeOk(t, B, u) && SizeOk(t, B, s) && NodeOk(m, t, gm, SlotAt(s, d));
    OffState(B, lo, hi, gm, y);
    LargeApart(B, lo, hi, gm, r, y);
    if d > 0 {
      var j := SlotAt(s, d - 1);
      assert NodeOk(m, t, gm, j) && SizeOk(t, B, t.pos[j]);
      if t.pos[j] != u { OtherNode(t, B, lo, hi, gm, t.pos[j], u); }
    }
  }

  lemma SubNode(m: Mem, m': Mem, t: Shape, B: Stock, gm: int, lo: int, hi: int, s: int, z: int, r: int, k: Slot)
    requires ShapeOk(m, t, B, gm) && Placed(B, lo, hi, gm) && lo > 0 && Heir(t, B, s, z, r)
    requires Hung(m, m', LinkWord(t, gm, s, t.depth[s]), t.node[s], r)
    requires k in t.pos && k != SlotAt(s, t.depth[s])
    ensures NodeOk(m', Substituted(t, s, z, r), gm, k)
  {
    hide TreeIndex, Key;
    var u, d := t.pos[k], t.depth[s];
    assert NodeOk(m, t, gm, k) && SizeOk(t, B, u) && SizeOk(t, B, s);
    HungChildren(m, m', t, B, gm, lo, hi, s, z, r, k);
    HungParent(m, m', t, B, gm, lo, hi, s, z, r, k);
    SubAt(m, t, B, gm, s, z, r, Slot(k.bin, 2 * k.id));
    SubAt(m, t, B, gm, s, z, r, Slot(k.bin, 2 * k.id + 1));
    assert d > 0 ==> SlotAt(s, d).id == 2 * SlotAt(s, d - 1).id + KeyBit(SizeKey(s), d - 1);
    SubParent(m, t, B, gm, lo, hi, s, z, r, k);
  }

  /** Exactly the children of slot s see r as their parent. */
  lemma SubParent(m: Mem, t: Shape, B: Stock, gm: int, lo: int, hi: int, s: int, z: int, r: int, k: Slot)
    requires ShapeOk(m, t, B, gm) && Placed(B, lo, hi, gm) && lo > 0 && Heir(t, B, s, z, r)
    requires k in t.pos && k != SlotAt(s, t.depth[s])
    ensures var u := t.pos[k];
            u in t.node && u in t.depth && u >= 0 &&
            var below := t.node[u] == Child(m, t.node[s], 0) || t.node[u] == Child(m, t.node[s], 1);
            && (below ==> t.depth[u] > 0 && SlotAt(u, t.depth[u] - 1) == SlotAt(s, t.depth[s]))
            && (t.depth[u] > 0 && !below ==>
                  At(Substituted(t, s, z, r), SlotAt(u, t.depth[u] - 1)) == At(t, SlotAt(u, t.depth[u] - 1)))
  {
    hide TreeIndex, Key;
    var u, d := t.pos[k], t.depth[s];
    assert NodeOk(m, t, gm, k) && SizeOk(t, B, u);
    OffState(B, lo, hi, gm, t.node[u]);
    ChildIsNode(m, t, B, gm, lo, hi, s, 0);
    ChildIsNode(m, t, B, gm, lo, hi, s, 1);
    var e := t.depth[u];
    if e > 0 {
      SubAt(m, t, B, gm, s, z, r, SlotAt(u, e - 1));
      if SlotAt(u, e - 1) == SlotAt(s, d) {
        assert k.id == 2 * Id(SizeKey(s), d) + KeyBit(SizeKey(u), e - 1);
      }
    }
  }

  lemma SubHeir(m: Mem, m': Mem, t: Shape, B: Stock, gm: int, s: int, z: int, r: int)
    requires ShapeOk(m, t, B, gm) && Heir(t, B, s, z, r)
    requires Hung(m, m', LinkWord(t, gm, s, t.depth[s]), t.node[s], r)
    ensures NodeOk(m', Substituted(t, s, z, r), gm, SlotAt(s, t.depth[s]))
  {
    hide TreeIndex, Key;
    var d := t.depth[s];
    var k := SlotAt(s, d);
    assert SizeOk(t, B, s) && NodeOk(m, t, gm, k);
    SubAt(m, t, B, gm, s, z, r, Slot(k.bin, 2 * k.id));
    SubAt(m, t, B, gm, s, z, r, Slot(k.bin, 2 * k.id + 1));
    if d > 0 {
      IdAgree(SizeKey(z), SizeKey(s), d, d - 1);
      SubAt(m, t, B, gm, s, z, r, SlotAt(s, d - 1));
    }
  }

  lemma SubRoot(m: Mem, m': Mem, t: Shape, B: Stock, gm: int, lo: int, hi: int, s: int, z: int, r: int, i: int)
    requires ShapeOk(m, t, B, gm) && Placed(B, lo, hi, gm) && lo > 0 && Heir(t, B, s, z, r) && 0 <= i < 32
    requires Hung(m, m', LinkWord(t, gm, s, t.depth[s]), t.node[s], r)
    ensures RootOk(m', Substituted(t, s, z, r), gm, i)
  {
    hide TreeIndex, Key;
    var d := t.depth[s];
    assert RootOk(m, t, gm, i);
    SubAt(m, t, B, gm, s, z, r, Slot(i, 1));
    assert SizeOk(t, B, s) && NodeOk(m, t, gm, SlotAt(s, d));
    OffState(B, lo, hi, gm, r);
    ChildIsNode(m, t, B, gm, lo, hi, s, 0);
    ChildIsNode(m, t, B, gm, lo, hi, s, 1);
    var c0, c1 := Child(m, t.node[s], 0), Child(m, t.node[s], 1);
    if c0 != 0 { OffState(B, lo, hi, gm, c0); }
    if c1 != 0 { OffState(B, lo, hi, gm, c1); }
    if d > 0 {
      var j := SlotAt(s, d - 1);
      assert NodeOk(m, t, gm, j) && SizeOk(t, B, t.pos[j]);
      OffState(B, lo, hi, gm, t.node[t.pos[j]]);
      assert SlotAt(s, d).id >= 2;
    }
  }

  /** A node may be replaced, in place, by any chunk whose key passes through its slot. */
  lemma Substitute(m: Mem, m': Mem, t: Shape, B: Stock, gm: int, lo: int, hi: int, s: int, z: int, r: int)
    requires ShapeOk(m, t, B, gm) && Placed(B, lo, hi, gm) && lo > 0 && Heir(t, B, s, z, r)
    requires Hung(m, m', LinkWord(t, gm, s, t.depth[s]), t.node[s], r)
    ensures ShapeOk(m', Substituted(t, s, z, r), B, gm)
  {
    hide TreeIndex, Key;
    var t' := Substituted(t, s, z, r);
    assert SizeOk(t, B, s);
    forall u | u in t'.depth ensures SizeOk(t', B, u) {
      if u != z { assert SizeOk(t, B, u); }
    }
    forall k | k in t'.pos ensures NodeOk(m', t', gm, k) {
      if k == SlotAt(s, t.depth[s]) {
        SubHeir(m, m', t, B, gm, s, z, r);
      } else {
        SubNode(m, m', t, B, gm, lo, hi, s, z, r, k);
      }
    }
    forall i | 0 <= i < 32 ensures RootOk(m', t', gm, i) { SubRoot(m, m', t, B, gm, lo, hi, s, z, r, i); }
  }
}
