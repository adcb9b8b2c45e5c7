/** VirtualMapL and VirtualToPhysicalL over a radix tree that refines a map from pages to frames. */
module Paging {
  import opened Octets
  import opened PageTables

  /** Contents of physical frames, as tables. */
  type Frames = map<nat, Table>

  /** A table of the tree: level 4 is the root, level 1 holds leaves; prefix is the page number's leading part. */
  datatype Node = Node(level: nat, prefix: nat)

  /** Which frame holds which table. */
  type Tree = map<Node, nat>

  function Child(k: Node, j: nat): Node
    requires k.level > 0
  {
    Node(k.level - 1, 512 * k.prefix + j)
  }

  ghost predicate NodeOk(m: Frames, T: Tree, k: Node)
    requires k in T
  {
    && 1 <= k.level <= 4 && T[k] in m && 0 < T[k] < PageTables.Frames() && (k.level == 4 ==> k.prefix == 0)
    && (k.level < 4 ==> Node(k.level + 1, k.prefix / 512) in T)
  }

  /** An inner entry is present exactly when the child table exists, and then names its frame and lets everything through. */
  ghost predicate EntryOk(m: Frames, T: Tree, k: Node, j: nat)
    requires k in T && k.level > 1 && T[k] in m && j < 512
  {
    var w, c := m[T[k]][j], Child(k, j);
    (Present(w) <==> c in T) && (c in T ==> FrameOf(w) == T[c] && BitAt(w, RW) && BitAt(w, USER))
  }

  ghost predicate OwnFrame(T: Tree, k: Node, l: Node)
    requires k in T && l in T
  {
    T[k] == T[l] ==> k == l
  }

  ghost predicate TreeOk(m: Frames, T: Tree, root: nat) {
    && Node(4, 0) in T && T[Node(4, 0)] == root
    && (forall k {:trigger NodeOk(m, T, k)} :: k in T ==> NodeOk(m, T, k))
    && (forall k, j: nat {:trigger EntryOk(m, T, k, j)} :: k in T && k.level > 1 && T[k] in m && j < 512 ==> EntryOk(m, T, k, j))
    && (forall k, l {:trigger OwnFrame(T, k, l)} :: k in T && l in T ==> OwnFrame(T, k, l))
  }

  /** The leaf entry of page pn; 0 where there is no leaf table. */
  ghost function LeafAt(m: Frames, T: Tree, pn: nat): nat {
    var k := Node(1, pn / 512);
    if k in T && T[k] in m then m[T[k]][pn % 512] else 0
  }

  /** The frame that page pn is mapped to. */
  ghost function Lookup(m: Frames, T: Tree, pn: nat): Option<nat> {
    if Present(LeafAt(m, T, pn)) then Some(FrameOf(LeafAt(m, T, pn))) else None
  }

  /** The leaf of page pn is present and has bit b. */
  ghost predicate Access(m: Frames, T: Tree, pn: nat, b: nat) { Present(LeafAt(m, T, pn)) && BitAt(LeafAt(m, T, pn), b) }

  ghost predicate SameAt(m: Frames, T: Tree, m': Frames, T': Tree, pn: nat) { LeafAt(m', T', pn) == LeafAt(m, T, pn) }

  ghost predicate SameMap(m: Frames, T: Tree, m': Frames, T': Tree) {
    forall pn: nat {:trigger SameAt(m, T, m', T', pn)} :: SameAt(m, T, m', T', pn)
  }

  // ---------------------------------------------------------------- what the processor does

  /** Entry j of the table in frame f. */
  function EntryIn(m: Frames, f: nat, j: nat): nat { if f in m && j < 512 then m[f][j] else 0 }

  /** The four entries on the processor's walk to page pn, from the root down, as far as they are present. */
  function WalkEntries(m: Frames, root: nat, pn: nat): seq<nat> {
    var e4 := EntryIn(m, root, pn / 512 / 512 / 512);
    if !Present(e4) then [] else
      var e3 := EntryIn(m, FrameOf(e4), pn / 512 / 512 % 512);
      if !Present(e3) then [e4] else
        var e2 := EntryIn(m, FrameOf(e3), pn / 512 % 512);
        if !Present(e2) then [e4, e3] else
          var e1 := EntryIn(m, FrameOf(e2), pn % 512);
          if !Present(e1) then [e4, e3, e2] else [e4, e3, e2, e1]
  }

  /** The processor grants an access to page pn when the walk reaches a leaf and all four entries have the bit for it. */
  predicate Grants(m: Frames, root: nat, pn: nat, b: nat) {
    var es := WalkEntries(m, root, pn);
    |es| == 4 && BitAt(es[0], b) && BitAt(es[1], b) && BitAt(es[2], b) && BitAt(es[3], b)
  }

  lemma WalkOne(m: Frames, T: Tree, root: nat, k: Node, j: nat)
    requires TreeOk(m, T, root) && k in T && k.level > 1 && j < 512
    ensures var w := EntryIn(m, T[k], j);
            && (Present(w) <==> Child(k, j) in T) && (Present(w) ==> FrameOf(w) == T[Child(k, j)] && BitAt(w, RW) && BitAt(w, USER))
  {
    assert NodeOk(m, T, k);
    assert EntryOk(m, T, k, j);
  }

  /** The walk goes through the tables of the tree and ends at the page's leaf; inner entries refuse nothing. */
  lemma WalkReaches(m: Frames, T: Tree, root: nat, pn: nat, b: nat)
    requires TreeOk(m, T, root) && (b == RW || b == USER)
    ensures Grants(m, root, pn, b) <==> Access(m, T, pn, b)
    ensures var es := WalkEntries(m, root, pn); |es| == 4 <==> Lookup(m, T, pn).Some?
    ensures var es := WalkEntries(m, root, pn); |es| == 4 ==> FrameOf(es[3]) == Lookup(m, T, pn).value
  {
    hide TreeOk, BitAt, FrameOf;
    var p3, p2, p1 := pn / 512 / 512 / 512, pn / 512 / 512, pn / 512;
    if Node(1, p1) in T {
      Ancestors(m, T, root, pn);
      NodeIn(m, T, root, Node(1, p1));
      assert p3 < 512 by { TopPrefix(m, T, root, p3); }
    }
    RootIn(m, T, root);
    if p3 < 512 {
      WalkOne(m, T, root, Node(4, 0), p3);
      assert Child(Node(4, 0), p3) == Node(3, p3);
      if Node(3, p3) in T {
        WalkOne(m, T, root, Node(3, p3), p2 % 512);
        assert Child(Node(3, p3), p2 % 512) == Node(2, p2);
        if Node(2, p2) in T {
          WalkOne(m, T, root, Node(2, p2), p1 % 512);
          assert Child(Node(2, p2), p1 % 512) == Node(1, p1);
        }
      }
    }
  }

  lemma TopPrefix(m: Frames, T: Tree, root: nat, p: nat)
    requires TreeOk(m, T, root) && Node(3, p) in T
    ensures p < 512
  {
    assert NodeOk(m, T, Node(3, p));
    assert NodeOk(m, T, Node(4, p / 512));
  }

  // ---------------------------------------------------------------- adding a table

  lemma ChildSplits(k: Node, j: nat)
    requires k.level > 0 && j < 512
    ensures Child(k, j).prefix / 512 == k.prefix && Child(k, j).prefix % 512 == j
  {
  }

  ghost function Added(m: Frames, T: Tree, k: Node, j: nat, f: nat): Frames
    requires k in T && T[k] in m && j < 512
  {
    m[f := Blank()][T[k] := m[T[k]][j := TableEntry(f)]]
  }

  lemma AddedNode(m: Frames, T: Tree, root: nat, k: Node, j: nat, f: nat, l: Node)
    requires TreeOk(m, T, root) && k in T && k.level > 1 && T[k] in m && j < 512 && 0 < f < PageTables.Frames()
    requires l in T[Child(k, j) := f]
    ensures NodeOk(Added(m, T, k, j, f), T[Child(k, j) := f], l)
  {
    assert NodeOk(m, T, k);
    ChildSplits(k, j);
    if l != Child(k, j) { assert NodeOk(m, T, l); }
  }

  lemma AddedEntry(m: Frames, T: Tree, root: nat, k: Node, j: nat, f: nat, l: Node, i: nat)
    requires TreeOk(m, T, root) && k in T && k.level > 1 && T[k] in m && j < 512 && f < PageTables.Frames()
    requires Child(k, j) !in T && forall x {:trigger T[x]} :: x in T ==> T[x] != f
    requires var T' := T[Child(k, j) := f]; l in T' && l.level > 1 && T'[l] in Added(m, T, k, j, f) && i < 512
    ensures EntryOk(Added(m, T, k, j, f), T[Child(k, j) := f], l, i)
  {
    var c, m', T' := Child(k, j), Added(m, T, k, j, f), T[Child(k, j) := f];
    TableEntryReads(f);
    TableEntryOpen(f);
    ChildSplits(k, j);
    ChildSplits(l, i);
    if l == c {
      if Child(c, i) in T {
        assert NodeOk(m, T, Child(c, i));
      }
    } else {
      assert NodeOk(m, T, l) && NodeOk(m, T, k);
      assert EntryOk(m, T, l, i);
      assert OwnFrame(T, l, k);
    }
  }

  /** A fresh zeroed frame hung below a missing entry keeps the tree and changes no translation. */
  lemma AddTable(m: Frames, T: Tree, root: nat, k: Node, j: nat, f: nat)
    requires TreeOk(m, T, root) && k in T && k.level > 1 && T[k] in m && j < 512 && 0 < f < PageTables.Frames()
    requires Child(k, j) !in T && forall x {:trigger T[x]} :: x in T ==> T[x] != f
    ensures TreeOk(Added(m, T, k, j, f), T[Child(k, j) := f], root)
    ensures SameMap(m, T, Added(m, T, k, j, f), T[Child(k, j) := f])
  {
    var c, m', T' := Child(k, j), Added(m, T, k, j, f), T[Child(k, j) := f];
    assert NodeOk(m, T, k);
    forall l | l in T' ensures NodeOk(m', T', l) { AddedNode(m, T, root, k, j, f, l); }
    forall l, i: nat | l in T' && l.level > 1 && T'[l] in m' && i < 512 ensures EntryOk(m', T', l, i) {
      AddedEntry(m, T, root, k, j, f, l, i);
    }
    forall l, l' | l in T' && l' in T' ensures OwnFrame(T', l, l') {
      if l in T && l' in T { assert OwnFrame(T, l, l'); }
    }
    forall pn: nat ensures SameAt(m, T, m', T', pn) { AddedSame(m, T, root, k, j, f, pn); }
  }

  lemma AddedSame(m: Frames, T: Tree, root: nat, k: Node, j: nat, f: nat, pn: nat)
    requires TreeOk(m, T, root) && k in T && k.level > 1 && T[k] in m && j < 512
    requires Child(k, j) !in T && forall x {:trigger T[x]} :: x in T ==> T[x] != f
    ensures SameAt(m, T, Added(m, T, k, j, f), T[Child(k, j) := f], pn)
  {
    var l := Node(1, pn / 512);
    if l in T {
      assert NodeOk(m, T, l);
      assert OwnFrame(T, l, k);
    }
  }

  // ---------------------------------------------------------------- writing a leaf

  ghost function LeafSet(m: Frames, T: Tree, k: Node, j: nat, w: nat): Frames
    requires k in T && T[k] in m && j < 512
  {
    m[T[k] := m[T[k]][j := w]]
  }

  /** The leaf of page pn after entry w is written for page at. */
  ghost predicate Updated(m: Frames, T: Tree, m': Frames, T': Tree, at: nat, w: nat, pn: nat) {
    LeafAt(m', T', pn) == if pn == at then w else LeafAt(m, T, pn)
  }

  lemma LeafUpdates(m: Frames, T: Tree, root: nat, at: nat, w: nat, pn: nat)
    requires TreeOk(m, T, root) && Node(1, at / 512) in T && T[Node(1, at / 512)] in m
    ensures Updated(m, T, LeafSet(m, T, Node(1, at / 512), at % 512, w), T, at, w, pn)
  {
    var k, l := Node(1, at / 512), Node(1, pn / 512);
    if l in T {
      assert NodeOk(m, T, l);
      assert OwnFrame(T, l, k);
    }
  }

  /** Writing a leaf entry changes the translation of one page and nothing else. */
  lemma SetLeaf(m: Frames, T: Tree, root: nat, at: nat, w: nat)
    requires TreeOk(m, T, root) && Node(1, at / 512) in T && T[Node(1, at / 512)] in m
    ensures var m' := LeafSet(m, T, Node(1, at / 512), at % 512, w);
            TreeOk(m', T, root) && forall pn: nat {:trigger Updated(m, T, m', T, at, w, pn)} :: Updated(m, T, m', T, at, w, pn)
  {
    var k := Node(1, at / 512);
    var m' := LeafSet(m, T, k, at % 512, w);
    forall l | l in T ensures NodeOk(m', T, l) { assert NodeOk(m, T, l); }
    forall l, i: nat | l in T && l.level > 1 && T[l] in m' && i < 512 ensures EntryOk(m', T, l, i) {
      assert NodeOk(m, T, l);
      assert EntryOk(m, T, l, i);
      assert OwnFrame(T, l, k);
    }
    forall pn: nat ensures Updated(m, T, m', T, at, w, pn) { LeafUpdates(m, T, root, at, w, pn); }
  }

  // ---------------------------------------------------------------- addresses

  function StripSx(v: nat): nat { v % 0x1_0000_0000_0000 }

  function PML4E(v: nat): nat { v / 0x80_0000_0000 % 512 }

  function PDPTE(v: nat): nat { v / 0x4000_0000 % 512 }

  function PDE(v: nat): nat { v / 0x20_0000 % 512 }

  function PTE(v: nat): nat { v / 0x1000 % 512 }

  /** The page a virtual address lies in, its sign extension stripped. */
  function PageOf(virt: nat): nat { StripSx(virt) / 4096 }

  lemma NestDiv(v: nat)
    ensures v / 0x20_0000 == v / 0x1000 / 512 && v / 0x4000_0000 == v / 0x20_0000 / 512 && v / 0x80_0000_0000 == v / 0x4000_0000 / 512
  {
  }

  /** The four index fields are the base-512 digits of the page number. */
  lemma IndexDigits(v: nat)
    requires v < 0x1_0000_0000_0000
    ensures var pn := v / 4096;
            PTE(v) == pn % 512 && PDE(v) == pn / 512 % 512 && PDPTE(v) == pn / 512 / 512 % 512 && PML4E(v) == pn / 512 / 512 / 512
  {
    NestDiv(v);
  }

  lemma PageAligned(virt: nat)
    ensures StripSx(virt - virt % 4096) / 4096 == PageOf(virt) && StripSx(virt - virt % 4096) < 0x1_0000_0000_0000
  {
  }

  /** Every table on the way to a leaf exists. */
  lemma Ancestors(m: Frames, T: Tree, root: nat, pn: nat)
    requires TreeOk(m, T, root) && Node(1, pn / 512) in T
    ensures Node(2, pn / 512 / 512) in T && Node(3, pn / 512 / 512 / 512) in T
  {
    assert NodeOk(m, T, Node(1, pn / 512));
    assert NodeOk(m, T, Node(2, pn / 512 / 512));
  }

  ghost predicate FreeFrame(T: Tree, f: nat) {
    0 < f < PageTables.Frames() && forall k {:trigger T[k]} :: k in T ==> T[k] != f
  }

  class AddressSpace {
    /** pagedir, as a frame number. */
    const root: nat
    /** Physical memory that holds page tables. */
    var mem: Frames
    /** Frames PhysicalAllocate has not handed out. */
    var free: set<nat>
    ghost var tree: Tree

    ghost predicate Valid()
      reads this
    {
      TreeOk(mem, tree, root) && forall f {:trigger FreeFrame(tree, f)} :: f in free ==> FreeFrame(tree, f)
    }

    /** The abstract map. */
    ghost function At(pn: nat): Option<nat>
      reads this
    {
      Lookup(mem, tree, pn)
    }

    /** An empty page directory in frame root. */
    constructor (root: nat, free: set<nat>)
      requires 0 < root < PageTables.Frames() && root !in free && forall f {:trigger f in free} :: f in free ==> 0 < f < PageTables.Frames()
      ensures Valid() && this.root == root && this.free == free && forall pn: nat {:trigger At(pn)} :: At(pn) == None
    {
      this.root, this.free := root, free;
      mem, tree := map[root := Blank()], map[Node(4, 0) := root];
    }

    /** PhysicalAllocate(1): any free frame; 0 when there is none, where the kernel panics. */
    method PhysicalAllocate() returns (f: nat)
      requires Valid()
      modifies this`free
      ensures f == 0 ==> old(free) == {} && free == old(free)
      ensures f != 0 ==> f in old(free) && free == old(free) - {f} && FreeFrame(tree, f)
    {
      if free == {} { return 0; }
      f :| f in free;
      assert FreeFrame(tree, f);
      free := free - {f};
    }

    /** PagingPhysAllocate: the frame zeroed as well. */
    method PagingPhysAllocate() returns (f: nat)
      requires Valid()
      modifies this`mem, this`free
      ensures f == 0 ==> old(free) == {} && mem == old(mem) && free == old(free)
      ensures f != 0 ==> f in old(free) && free == old(free) - {f} && mem == old(mem)[f := Blank()]
    {
      f := PhysicalAllocate();
      if f != 0 { mem := mem[f := Blank()]; }
    }

    /** One level of the walk: the table entry index of table k points at, created when missing. */
    method Descend(table: nat, index: nat, ghost k: Node) returns (next: nat)
      requires Valid() && k in tree && k.level > 1 && tree[k] == table && index < 512
      modifies this`mem, this`free, this`tree
      ensures Valid() && SameMap(old(mem), old(tree), mem, tree) && free <= old(free)
      ensures next == 0 ==> old(free) == {}
      ensures next != 0 ==> Child(k, index) in tree && tree[Child(k, index)] == next && |free| + 1 >= |old(free)|
      ensures Extends(old(tree), tree, old(free))
    {
      ghost var m0, T0, c := mem, tree, Child(k, index);
      assert NodeOk(mem, tree, k);
      assert EntryOk(mem, tree, k, index);
      if !Present(mem[table][index]) {
        var f := PagingPhysAllocate();
        if f == 0 {
          next := 0;
          forall pn: nat ensures SameAt(m0, T0, mem, tree, pn) { }
          return;
        }
        assert FreeFrame(T0, f);
        assert OwnFrame(T0, k, k);
        AddTable(m0, T0, root, k, index, f);
        mem := mem[table := mem[table][index := TableEntry(f)]];
        tree := tree[c := f];
        TableEntryReads(f);
        TableEntryOpen(f);
        forall g | g in free ensures FreeFrame(tree, g) { assert FreeFrame(T0, g); }
      } else {
        forall pn: nat ensures SameAt(m0, T0, mem, tree, pn) { }
        assert NodeOk(mem, tree, c);
      }
      next := FrameOf(mem[table][index]);
    }

    /** The first three levels of VirtualMapL: the leaf table for v, with the tables on the way created as needed. */
    method LeafTable(v: nat) returns (pt: nat)
      requires Valid() && v < 0x1_0000_0000_0000
      modifies this`mem, this`free, this`tree
      ensures Valid() && free <= old(free) && SameMap(old(mem), old(tree), mem, tree)
      ensures pt == 0 ==> |old(free)| < 3
      ensures pt != 0 ==> Node(1, Part(v, 1)) in tree && tree[Node(1, Part(v, 1))] == pt && |free| + 3 >= |old(free)|
      ensures Extends(old(tree), tree, old(free))
    {
      hide TreeOk, Child, Part, PML4E, PDPTE, PDE, SameMap, Extends;
      ghost var m0, T0, F0 := mem, tree, free;
      WalkNodes(v);
      assert Node(4, 0) in tree && tree[Node(4, 0)] == root by { RootIn(mem, tree, root); }
      var pdp := Descend(root, PML4E(v), Node(4, 0));
      ghost var m1, T1, F1 := mem, tree, free;
      pt := 0;
      if pdp == 0 { return; }
      var pd := Descend(pdp, PDPTE(v), Node(3, Part(v, 3)));
      ghost var m2, T2, F2 := mem, tree, free;
      SameTwice(m0, T0, m1, T1, m2, T2);
      ExtendsTwice(T0, T1, T2, F0, F1);
      if pd == 0 { return; }
      pt := Descend(pd, PDE(v), Node(2, Part(v, 2)));
      SameTwice(m0, T0, m2, T2, mem, tree);
      ExtendsTwice(T0, T2, tree, F0, F2);
    }

    /**
     * VirtualMapL. Translating the page afterwards gives the new frame, or nothing when phys is 0, and the processor lets
     * user code and writes through exactly as the flags say; every other page translates and grants as before. The kernel panics (ok is false) on a misaligned address or when memory for tables runs out.
     */
    method VirtualMapL(virt: nat, phys: nat, flags: nat) returns (ok: bool)
      requires Valid()
      modifies this`mem, this`free, this`tree
      ensures Valid() && free <= old(free) && (ok ==> |free| + 3 >= |old(free)|)
      ensures ok ==> virt % 4096 == 0
      ensures !ok ==> (virt % 4096 != 0 || |old(free)| < 3) && SameMap(old(mem), old(tree), mem, tree)
      ensures ok ==> forall pn: nat {:trigger Remapped(old(mem), old(tree), mem, tree, PageOf(virt), phys, flags, pn)} ::
                       Remapped(old(mem), old(tree), mem, tree, PageOf(virt), phys, flags, pn)
      ensures forall pn: nat {:trigger Granted(old(mem), mem, root, PageOf(virt), ok, phys, flags, pn)} ::
                Granted(old(mem), mem, root, PageOf(virt), ok, phys, flags, pn)
      ensures Extends(old(tree), tree, old(free))
    {
      hide TreeOk, SameMap, LeafEntry, FrameOf, BitOr, BitAt, LeafAt, Extends, Granted;
      ghost var m0, T0, at := mem, tree, PageOf(virt);
      ok := false;
      SameSelf(m0, T0);
      ExtendsSelf(T0, free);
      forall x: nat ensures Granted(m0, m0, root, at, false, phys, flags, x) { GrantsFollow(m0, T0, m0, T0, root, at, false, phys, flags, x); }
      if virt % 4096 != 0 { return; }
      var v := StripSx(virt);
      var pt := LeafTable(v);
      ghost var m1, T1 := mem, tree;
      forall x: nat ensures Granted(m0, m1, root, at, false, phys, flags, x) {
        SameIs(m0, T0, m1, T1, x);
        GrantsFollow(m0, T0, m1, T1, root, at, false, phys, flags, x);
      }
      if pt == 0 { return; }
      WalkNodes(v);
      NodeIn(mem, tree, root, Node(1, Part(v, 1)));
      var w := if phys == 0 then 0 else LeafEntry(phys, flags);
      SetLeaf(mem, tree, root, v / 4096, w);
      mem := mem[pt := mem[pt][PTE(v) := w]];
      LeafEntryReads(phys, flags);
      LeafEntryBits(phys, flags, RW);
      LeafEntryBits(phys, flags, USER);
      forall x: nat ensures Remapped(m0, T0, mem, tree, at, phys, flags, x) && Granted(m0, mem, root, at, true, phys, flags, x) {
        assert SameAt(m0, T0, m1, T1, x) by { SameIs(m0, T0, m1, T1, x); }
        assert Updated(m1, T1, mem, tree, v / 4096, w, x);
        GrantsFollow(m0, T0, mem, tree, root, at, true, phys, flags, x);
      }
      ok := true;
    }

    /** VirtualToPhysicalL: the frame's address plus the offset in the page, or 0 for a page that is not mapped. */
    method VirtualToPhysicalL(virt: nat) returns (phys: nat)
      requires Valid()
      ensures phys == match At(PageOf(virt)) case None => 0 case Some(f) => 4096 * f + virt % 4096
    {
      var v := StripSx(virt - virt % 4096);
      PageAligned(virt);
      IndexDigits(v);
      ghost var pn := v / 4096;
      phys := 0;
      if Node(1, pn / 512) in tree { Ancestors(mem, tree, root, pn); }
      assert NodeOk(mem, tree, Node(4, 0)) && EntryOk(mem, tree, Node(4, 0), PML4E(v));
      assert Child(Node(4, 0), PML4E(v)) == Node(3, pn / 512 / 512 / 512);
      var pml4 := mem[root][PML4E(v)];
      if !Present(pml4) { return; }
      ghost var k3 := Node(3, pn / 512 / 512 / 512);
      assert NodeOk(mem, tree, k3) && EntryOk(mem, tree, k3, PDPTE(v));
      assert Child(k3, PDPTE(v)) == Node(2, pn / 512 / 512);
      var pdp := mem[FrameOf(pml4)][PDPTE(v)];
      if !Present(pdp) { return; }
      ghost var k2 := Node(2, pn / 512 / 512);
      assert NodeOk(mem, tree, k2) && EntryOk(mem, tree, k2, PDE(v));
      assert Child(k2, PDE(v)) == Node(1, pn / 512);
      var pd := mem[FrameOf(pdp)][PDE(v)];
      if !Present(pd) { return; }
      assert NodeOk(mem, tree, Node(1, pn / 512));
      var pt := mem[FrameOf(pd)][PTE(v)];
      if !Present(pt) { return; }
      phys := 4096 * FrameOf(pt) + virt % 4096;
    }

    /** VirtualMapRegionByLength: every page of the region goes to its frame, and no other page changes. */
    method VirtualMapRegionByLength(virt: nat, phys: nat, len: nat, flags: nat) returns (ok: bool)
      requires Valid()
      modifies this`mem, this`free, this`tree
      ensures Valid() && free <= old(free)
      ensures !ok ==> virt % 4096 != 0 || |old(free)| < 3 * DivRoundUp(len, 4096)
      ensures ok ==> forall x: nat {:trigger RegionMapped(old(mem), old(tree), mem, tree, virt, phys, flags, DivRoundUp(len, 4096), x)} ::
                       RegionMapped(old(mem), old(tree), mem, tree, virt, phys, flags, DivRoundUp(len, 4096), x)
      ensures ok ==> forall x: nat {:trigger RegionGranted(old(mem), mem, root, virt, phys, flags, DivRoundUp(len, 4096), x)} ::
                       RegionGranted(old(mem), mem, root, virt, phys, flags, DivRoundUp(len, 4096), x)
    {
      hide TreeOk, BitOr, FrameOf, BitAt, Lookup, Access, Extends, Grants;
      ghost var m0, T0, F0 := mem, tree, free;
      var pages := DivRoundUp(len, 4096);
      var i := 0;
      while i < pages
        invariant 0 <= i <= pages && Valid() && free <= F0 && |free| + 3 * i >= |F0|
        invariant forall x: nat {:trigger RegionMapped(m0, T0, mem, tree, virt, phys, flags, i, x)} ::
                    RegionMapped(m0, T0, mem, tree, virt, phys, flags, i, x)
        invariant forall x: nat {:trigger RegionGranted(m0, mem, root, virt, phys, flags, i, x)} :: RegionGranted(m0, mem, root, virt, phys, flags, i, x)
      {
        ghost var m1, T1 := mem, tree;
        StepAligned(virt, i);
        ok := VirtualMapL(Wrap64(virt + 4096 * i), Wrap64(phys + 4096 * i), flags);
        if !ok { return; }
        ghost var n := i + 1;
        forall x: nat ensures RegionMapped(m0, T0, mem, tree, virt, phys, flags, n, x) && RegionGranted(m0, mem, root, virt, phys, flags, n, x) {
          assert RegionMapped(m0, T0, m1, T1, virt, phys, flags, i, x) && RegionGranted(m0, m1, root, virt, phys, flags, i, x);
          assert Remapped(m1, T1, mem, tree, PageOf(Wrap64(virt + 4096 * i)), Wrap64(phys + 4096 * i), flags, x);
          assert Granted(m1, mem, root, PageOf(Wrap64(virt + 4096 * i)), true, Wrap64(phys + 4096 * i), flags, x);
        }
        i := i + 1;
      }
      ok := true;
    }
  }

  /** What VirtualMapL does to page x: its translation, and which of its leaf's two access bits are set. */
  ghost predicate Remapped(m: Frames, T: Tree, m': Frames, T': Tree, at: nat, phys: nat, flags: nat, x: nat) {
    && Lookup(m', T', x) == (if x != at then Lookup(m, T, x) else if phys == 0 then None else Some(BitOr(FrameOf(phys), FrameOf(flags))))
    && (Access(m', T', x, RW) <==> if x != at then Access(m, T, x, RW) else phys != 0 && BitAt(flags, RW))
    && (Access(m', T', x, USER) <==> if x != at then Access(m, T, x, USER) else phys != 0 && BitAt(flags, USER))
  }

  /** What it does to the accesses the processor grants to page x. */
  ghost predicate Granted(m: Frames, m': Frames, root: nat, at: nat, ok: bool, phys: nat, flags: nat, x: nat) {
    && (Grants(m', root, x, RW) <==> if ok && x == at then phys != 0 && BitAt(flags, RW) else Grants(m, root, x, RW))
    && (Grants(m', root, x, USER) <==> if ok && x == at then phys != 0 && BitAt(flags, USER) else Grants(m, root, x, USER))
  }

  lemma GrantsFollow(m: Frames, T: Tree, m': Frames, T': Tree, root: nat, at: nat, ok: bool, phys: nat, flags: nat, x: nat)
    requires TreeOk(m, T, root) && TreeOk(m', T', root)
    requires if ok then Remapped(m, T, m', T', at, phys, flags, x) else SameAt(m, T, m', T', x)
    ensures Granted(m, m', root, at, ok, phys, flags, x)
  {
    hide TreeOk, Grants, BitAt, Lookup;
    WalkReaches(m, T, root, x, RW);
    WalkReaches(m, T, root, x, USER);
    WalkReaches(m', T', root, x, RW);
    WalkReaches(m', T', root, x, USER);
  }

  lemma SameSelf(m: Frames, T: Tree)
    ensures SameMap(m, T, m, T)
  {
    forall pn: nat ensures SameAt(m, T, m, T, pn) { }
  }

  lemma SameTwice(m: Frames, T: Tree, m1: Frames, T1: Tree, m2: Frames, T2: Tree)
    requires SameMap(m, T, m1, T1) && SameMap(m1, T1, m2, T2)
    ensures SameMap(m, T, m2, T2)
  {
    forall pn: nat ensures SameAt(m, T, m2, T2, pn) { assert SameAt(m, T, m1, T1, pn) && SameAt(m1, T1, m2, T2, pn); }
  }

  /** The prefix of v's page number that names its table at each level. */
  function Part(v: nat, level: nat): nat {
    if level == 0 then v / 4096 else Part(v, level - 1) / 512
  }

  lemma WalkNodes(v: nat)
    requires v < 0x1_0000_0000_0000
    ensures PML4E(v) < 512 && PDPTE(v) < 512 && PDE(v) < 512 && PTE(v) < 512 && PTE(v) == v / 4096 % 512 && Part(v, 1) == v / 4096 / 512
    ensures Child(Node(4, 0), PML4E(v)) == Node(3, Part(v, 3))
    ensures Child(Node(3, Part(v, 3)), PDPTE(v)) == Node(2, Part(v, 2))
    ensures Child(Node(2, Part(v, 2)), PDE(v)) == Node(1, Part(v, 1))
  {
    IndexDigits(v);
    assert Part(v, 3) == Part(v, 2) / 512 && Part(v, 2) == Part(v, 1) / 512;
  }

  lemma RootIn(m: Frames, T: Tree, root: nat)
    requires TreeOk(m, T, root)
    ensures Node(4, 0) in T && T[Node(4, 0)] == root
  {
  }

  lemma NodeIn(m: Frames, T: Tree, root: nat, k: Node)
    requires TreeOk(m, T, root) && k in T
    ensures T[k] in m && 0 < T[k] < PageTables.Frames()
  {
    assert NodeOk(m, T, k);
  }

  lemma SameIs(m: Frames, T: Tree, m': Frames, T': Tree, pn: nat)
    requires SameMap(m, T, m', T')
    ensures SameAt(m, T, m', T', pn)
  {
  }

  /** Existing tables stay where they are; new ones use frames of F. */
  ghost predicate Extends(T: Tree, T': Tree, F: set<nat>) {
    && (forall l {:trigger T[l]} {:trigger T'[l]} :: l in T ==> l in T' && T'[l] == T[l])
    && (forall l {:trigger T'[l]} :: l in T' ==> l in T || T'[l] in F)
  }

  lemma ExtendsSelf(T: Tree, F: set<nat>)
    ensures Extends(T, T, F)
  {
  }

  lemma ExtendsTwice(T: Tree, T1: Tree, T2: Tree, F: set<nat>, F1: set<nat>)
    requires Extends(T, T1, F) && Extends(T1, T2, F1) && F1 <= F
    ensures Extends(T, T2, F)
  {
    forall l | l in T ensures l in T2 && T2[l] == T[l] { assert T1[l] == T[l]; }
    forall l | l in T2 ensures l in T || T2[l] in F { if l in T1 { assert T2[l] == T1[l]; } }
  }

  function DivRoundUp(a: nat, b: nat): nat
    requires b > 0
  {
    (a + b - 1) / b
  }

  function Wrap64(x: nat): nat { x % 0x1_0000_0000_0000_0000 }

  lemma StepAligned(virt: nat, i: nat)
    ensures Wrap64(virt + 4096 * i) % 4096 == virt % 4096
  {
  }

  /** The last of the first n pages of a region at virt that is page x. */
  ghost function LastIndex(virt: nat, n: nat, x: nat): Option<nat> {
    if n == 0 then None
    else if PageOf(Wrap64(virt + 4096 * (n - 1))) == x then Some(n - 1)
    else LastIndex(virt, n - 1, x)
  }

  /** What mapping n pages from virt to phys does to the translation of page x. */
  ghost predicate RegionMapped(m: Frames, T: Tree, m': Frames, T': Tree, virt: nat, phys: nat, flags: nat, n: nat, x: nat) {
    match LastIndex(virt, n, x)
    case None => Lookup(m', T', x) == Lookup(m, T, x)
    case Some(i) =>
      var p := Wrap64(phys + 4096 * i);
      Lookup(m', T', x) == if p == 0 then None else Some(BitOr(FrameOf(p), FrameOf(flags)))
  }

  /** And to the accesses the processor grants to page x. */
  ghost predicate RegionGranted(m: Frames, m': Frames, root: nat, virt: nat, phys: nat, flags: nat, n: nat, x: nat) {
    var i := LastIndex(virt, n, x);
    && (Grants(m', root, x, RW) <==> if i.None? then Grants(m, root, x, RW) else Wrap64(phys + 4096 * i.value) != 0 && BitAt(flags, RW))
    && (Grants(m', root, x, USER) <==> if i.None? then Grants(m, root, x, USER) else Wrap64(phys + 4096 * i.value) != 0 && BitAt(flags, USER))
  }

  lemma NthPage(virt: nat, i: nat)
    requires PageOf(virt) + i < 0x10_0000_0000
    ensures PageOf(Wrap64(virt + 4096 * i)) == PageOf(virt) + i
  {
    var v := virt % 0x1_0000_0000_0000;
    StripWrap(virt + 4096 * i);
    StripAdd(virt, 4096 * i);
    assert StripSx(virt + 4096 * i) == v + 4096 * i;
  }

  lemma StripWrap(y: nat)
    ensures StripSx(Wrap64(y)) == StripSx(y)
  {
    var q := y / 0x1_0000_0000_0000_0000;
    var r := y % 0x1_0000_0000_0000_0000;
    assert y == 0x1_0000_0000_0000 * (0x1_0000 * q) + r;
    StripShift(r, 0x1_0000 * q);
  }

  lemma StripShift(r: nat, q: nat)
    ensures (0x1_0000_0000_0000 * q + r) % 0x1_0000_0000_0000 == r % 0x1_0000_0000_0000
  {
  }

  lemma StripAdd(a: nat, b: nat)
    requires a % 0x1_0000_0000_0000 + b < 0x1_0000_0000_0000
    ensures StripSx(a + b) == a % 0x1_0000_0000_0000 + b
  {
  }

  /** A region that does not run past the top of the address space covers exactly its n pages, each once. */
  lemma {:induction false} RegionPages(virt: nat, n: nat, x: nat)
    requires PageOf(virt) + n <= 0x10_0000_0000
    ensures LastIndex(virt, n, x) == if PageOf(virt) <= x < PageOf(virt) + n then Some(x - PageOf(virt)) else None
  {
    if n > 0 {
      NthPage(virt, n - 1);
      RegionPages(virt, n - 1, x);
    }
  }
}
