/** Best-fit search over the tries: what the two search loops of tmalloc_large have covered. */
module TreeSearch {
  import opened Memory
  import opened SizeClass
  import opened Trie
  import opened SmallBins
  import opened TreeShape

  /** Size u lies in the subtree rooted at the slot of size s. */
  ghost predicate InSub(t: Shape, s: int, u: int) {
    && s in t.depth && u in t.depth && s >= 0 && u >= 0
    && t.depth[s] <= t.depth[u] && SlotAt(u, t.depth[s]) == SlotAt(s, t.depth[s])
  }

  /** u exceeds every size in the subtree of s. */
  ghost predicate Above(t: Shape, s: int, u: int) {
    forall w {:trigger InSub(t, s, w)} :: InSub(t, s, w) ==> w < u
  }

  /** The stored sizes in the subtree of s all exceed nb - 1. */
  ghost predicate AllFit(t: Shape, s: int, nb: int) {
    forall w {:trigger InSub(t, s, w)} :: InSub(t, s, w) ==> nb <= w
  }

  ghost predicate Settled(t: Shape, best: int, c: int, u: int) {
    best <= u || (c != 0 && (InSub(t, c, u) || Above(t, c, u)))
  }

  /** Every stored size that fits is no better than best, or still below c, or beyond everything below c. */
  ghost predicate Covers(t: Shape, nb: int, best: int, c: int) {
    forall u {:trigger Settled(t, best, c, u)} :: u in t.depth && nb <= u ==> Settled(t, best, c, u)
  }

  /** The size at child b of size s, or 0. */
  function ChildSize(t: Shape, s: int, b: int): int
    requires s in t.depth && s >= 0
  {
    var k := Slot(TreeIndex(s), 2 * Id(SizeKey(s), t.depth[s]) + b);
    if k in t.pos then t.pos[k] else 0
  }

  lemma ClassOf(m: Mem, t: Shape, B: Stock, gm: int, s: int)
    requires ShapeOk(m, t, B, gm) && s in t.depth
    ensures 256 <= s < MAX_SIZE && InClass(s, TreeIndex(s)) && s < W
  {
    hide TreeIndex, InClass;
    assert SizeOk(t, B, s);
    TreeIndexClass(s);
  }

  lemma SelfSub(m: Mem, t: Shape, B: Stock, gm: int, s: int)
    requires ShapeOk(m, t, B, gm) && s in t.depth
    ensures InSub(t, s, s)
  {
    hide TreeIndex, Key;
    assert SizeOk(t, B, s);
  }

  lemma ChildSub(m: Mem, t: Shape, B: Stock, gm: int, s: int, b: int)
    requires ShapeOk(m, t, B, gm) && s in t.depth && s >= 0 && (b == 0 || b == 1)
    ensures var c := ChildSize(t, s, b);
            c != 0 ==> c in t.depth && c >= 256 && t.depth[c] == t.depth[s] + 1 && SlotAt(c, t.depth[s]) == SlotAt(s, t.depth[s])
                       && KeyBit(SizeKey(c), t.depth[s]) == b && InSub(t, s, c)
  {
    hide TreeIndex, Key;
    var k := Slot(TreeIndex(s), 2 * Id(SizeKey(s), t.depth[s]) + b);
    if k in t.pos {
      var c := t.pos[k];
      assert NodeOk(m, t, gm, k);
      assert SizeOk(t, B, c);
      ChildSlot(s, t.depth[s], c, t.depth[c], b);
    }
  }

  /** Members of a child's subtree are members of the parent's, on that side. */
  lemma SubOfChild(m: Mem, t: Shape, B: Stock, gm: int, s: int, b: int, w: int)
    requires ShapeOk(m, t, B, gm) && s in t.depth && s >= 0 && (b == 0 || b == 1)
    requires ChildSize(t, s, b) != 0 && InSub(t, ChildSize(t, s, b), w)
    ensures InSub(t, s, w) && t.depth[s] < t.depth[w] && KeyBit(SizeKey(w), t.depth[s]) == b
  {
    hide TreeIndex, Key;
    var c, d := ChildSize(t, s, b), t.depth[s];
    ChildSub(m, t, B, gm, s, b);
    IdAgree(SizeKey(w), SizeKey(c), d + 1, d);
  }

  /** A proper member of a subtree lies below the child its next bit selects. */
  lemma SubSides(m: Mem, t: Shape, B: Stock, gm: int, s: int, u: int)
    requires ShapeOk(m, t, B, gm) && InSub(t, s, u) && u != s
    ensures t.depth[s] < t.depth[u]
    ensures var b := KeyBit(SizeKey(u), t.depth[s]); ChildSize(t, s, b) != 0 && InSub(t, ChildSize(t, s, b), u)
  {
    hide TreeIndex, Key;
    var d := t.depth[s];
    assert SizeOk(t, B, s) && SizeOk(t, B, u);
    AncestorOccupied(m, t, B, gm, u, d + 1);
    var b := KeyBit(SizeKey(u), d);
    var k := SlotAt(u, d + 1);
    assert k == Slot(TreeIndex(s), 2 * Id(SizeKey(s), d) + b);
    ChildSub(m, t, B, gm, s, b);
    assert NodeOk(m, t, gm, k);
    assert SizeOk(t, B, t.pos[k]);
  }

  /** Two sizes of one class that part at depth d are ordered by the bit there. */
  lemma PartedSizes(s: int, u: int, d: nat)
    requires 0 <= s < W && 0 <= u < W && InClass(s, TreeIndex(s)) && InClass(u, TreeIndex(u)) && SlotAt(s, d) == SlotAt(u, d)
    requires KeyBit(SizeKey(s), d) == 0 && KeyBit(SizeKey(u), d) == 1
    ensures s < u
  {
    hide TreeIndex, Key, InClass;
    LeftIsLess(SizeKey(s), SizeKey(u), d);
    KeyMono(s, u, TreeIndex(s));
  }

  lemma LeftBelowRight(m: Mem, t: Shape, B: Stock, gm: int, s: int, w: int, u: int)
    requires ShapeOk(m, t, B, gm) && s in t.depth && s >= 0 && ChildSize(t, s, 0) != 0 && ChildSize(t, s, 1) != 0
    requires InSub(t, ChildSize(t, s, 0), w) && InSub(t, ChildSize(t, s, 1), u)
    ensures w < u
  {
    hide TreeIndex, Key;
    SubOfChild(m, t, B, gm, s, 0, w);
    SubOfChild(m, t, B, gm, s, 1, u);
    ClassOf(m, t, B, gm, w);
    ClassOf(m, t, B, gm, u);
    PartedSizes(w, u, t.depth[s]);
  }

  // ---------------------------------------------------------------- the second loop: smallest of a subtree

  function Leftmost(t: Shape, s: int): int
    requires s in t.depth && s >= 0
  {
    if ChildSize(t, s, 0) != 0 then ChildSize(t, s, 0) else ChildSize(t, s, 1)
  }

  lemma LeftmostOne(m: Mem, t: Shape, B: Stock, gm: int, nb: int, best: int, c: int, u: int)
    requires ShapeOk(m, t, B, gm) && c in t.depth && c >= 0 && best <= c
    requires u in t.depth && nb <= u && Settled(t, best, c, u)
    ensures Settled(t, best, Leftmost(t, c), u)
  {
    hide TreeIndex, Key;
    var l := Leftmost(t, c);
    if best > u {
      if InSub(t, c, u) {
        SubSides(m, t, B, gm, c, u);
        if l != 0 && !InSub(t, l, u) {
          forall w | InSub(t, l, w) ensures w < u { LeftBelowRight(m, t, B, gm, c, w, u); }
        }
      } else {
        SelfSub(m, t, B, gm, c);
      }
    }
  }

  /** Moving to the leftmost child loses no candidate, once c itself has been considered. */
  lemma LeftmostStep(m: Mem, t: Shape, B: Stock, gm: int, nb: int, best: int, c: int)
    requires ShapeOk(m, t, B, gm) && c in t.depth && c >= 0 && best <= c && Covers(t, nb, best, c) && AllFit(t, c, nb)
    ensures var l := Leftmost(t, c);
            && Covers(t, nb, best, l) && (l != 0 ==> l in t.depth && l >= 256 && AllFit(t, l, nb) && t.depth[l] == t.depth[c] + 1)
  {
    hide TreeIndex, Key;
    var l := Leftmost(t, c);
    forall u | u in t.depth && nb <= u ensures Settled(t, best, l, u) {
      assert Settled(t, best, c, u);
      LeftmostOne(m, t, B, gm, nb, best, c, u);
    }
    if l != 0 {
      var b := if ChildSize(t, c, 0) != 0 then 0 else 1;
      ChildSub(m, t, B, gm, c, b);
      forall w | InSub(t, l, w) ensures nb <= w { SubOfChild(m, t, B, gm, c, b, w); }
    }
  }

  /** Lowering best keeps what was covered. */
  lemma BetterCovers(t: Shape, nb: int, best: int, better: int, c: int)
    requires Covers(t, nb, best, c) && better <= best
    ensures Covers(t, nb, better, c)
  {
    forall u | u in t.depth && nb <= u ensures Settled(t, better, c, u) { assert Settled(t, best, c, u); }
  }

  // ---------------------------------------------------------------- the first loop: down the path of nb

  /** Every size below c is smaller than every size below the untaken right subtree rs. */
  ghost predicate Beneath(t: Shape, c: int, rs: int) {
    forall w, u {:trigger InSub(t, c, w), InSub(t, rs, u)} :: InSub(t, c, w) && InSub(t, rs, u) ==> w < u
  }

  ghost predicate PathSettled(t: Shape, best: int, c: int, rs: int, u: int) {
    || best <= u
    || (c != 0 && InSub(t, c, u))
    || (rs != 0 && (InSub(t, rs, u) || Above(t, rs, u)))
  }

  ghost predicate PathCovers(t: Shape, nb: int, best: int, c: int, rs: int)
    requires nb >= 0
  {
    forall u {:trigger PathSettled(t, best, c, rs, u)} ::
      u in t.depth && nb <= u && TreeIndex(u) == TreeIndex(nb) ==> PathSettled(t, best, c, rs, u)
  }

  /** c is the size at the current node, on nb's own path; rs the deepest untaken right subtree. */
  ghost predicate OnPath(t: Shape, nb: int, c: int, rs: int)
    requires nb >= 0
  {
    && c in t.depth && c >= 0 && SlotAt(nb, t.depth[c]) == SlotAt(c, t.depth[c])
    && (rs != 0 ==> rs in t.depth && rs >= 256 && AllFit(t, rs, nb) && Beneath(t, c, rs))
  }

  function NextRight(t: Shape, nb: int, c: int, rs: int): int
    requires nb >= 0 && c in t.depth && c >= 0
  {
    if KeyBit(SizeKey(nb), t.depth[c]) == 0 && ChildSize(t, c, 1) != 0 then ChildSize(t, c, 1) else rs
  }

  lemma PathOne(m: Mem, t: Shape, B: Stock, gm: int, nb: int, best: int, c: int, rs: int, u: int)
    requires ShapeOk(m, t, B, gm) && 256 <= nb < MAX_SIZE && OnPath(t, nb, c, rs) && (nb <= c ==> best <= c)
    requires u in t.depth && nb <= u && TreeIndex(u) == TreeIndex(nb) && PathSettled(t, best, c, rs, u)
    ensures PathSettled(t, best, ChildSize(t, c, KeyBit(SizeKey(nb), t.depth[c])), NextRight(t, nb, c, rs), u)
  {
    hide TreeIndex, Key;
    var d := t.depth[c];
    var b := KeyBit(SizeKey(nb), d);
    if best > u {
      if InSub(t, c, u) {
        SubSides(m, t, B, gm, c, u);
        var e := KeyBit(SizeKey(u), d);
        if e == 0 && b == 1 {
          ClassOf(m, t, B, gm, u);
          TreeIndexClass(nb);
          PartedSizes(u, nb, d);
        }
      } else if NextRight(t, nb, c, rs) != rs {
        var rt := ChildSize(t, c, 1);
        SelfSub(m, t, B, gm, rs);
        forall w | InSub(t, rt, w) ensures w < u {
          SubOfChild(m, t, B, gm, c, 1, w);
          assert InSub(t, c, w) && InSub(t, rs, rs);
        }
      }
    }
  }

  /** The untaken right subtree holds only sizes that fit. */
  lemma RightFits(m: Mem, t: Shape, B: Stock, gm: int, nb: int, c: int)
    requires ShapeOk(m, t, B, gm) && 256 <= nb < MAX_SIZE && c in t.depth && c >= 0 && SlotAt(nb, t.depth[c]) == SlotAt(c, t.depth[c])
    requires KeyBit(SizeKey(nb), t.depth[c]) == 0 && ChildSize(t, c, 1) != 0
    ensures AllFit(t, ChildSize(t, c, 1), nb)
  {
    hide TreeIndex, Key;
    forall w | InSub(t, ChildSize(t, c, 1), w) ensures nb <= w {
      SubOfChild(m, t, B, gm, c, 1, w);
      ClassOf(m, t, B, gm, w);
      TreeIndexClass(nb);
      PartedSizes(nb, w, t.depth[c]);
    }
  }

  lemma PathBeneath(m: Mem, t: Shape, B: Stock, gm: int, nb: int, c: int, rs: int)
    requires ShapeOk(m, t, B, gm) && nb >= 0 && OnPath(t, nb, c, rs)
    requires ChildSize(t, c, KeyBit(SizeKey(nb), t.depth[c])) != 0 && NextRight(t, nb, c, rs) != 0
    ensures Beneath(t, ChildSize(t, c, KeyBit(SizeKey(nb), t.depth[c])), NextRight(t, nb, c, rs))
  {
    hide TreeIndex, Key;
    var b := KeyBit(SizeKey(nb), t.depth[c]);
    var l, r := ChildSize(t, c, b), NextRight(t, nb, c, rs);
    forall w, u | InSub(t, l, w) && InSub(t, r, u) ensures w < u {
      if r == ChildSize(t, c, 1) && b == 0 {
        LeftBelowRight(m, t, B, gm, c, w, u);
      } else {
        SubOfChild(m, t, B, gm, c, b, w);
      }
    }
  }

  /** One step of the first loop keeps every fitting size of the class accounted for. */
  lemma PathStep(m: Mem, t: Shape, B: Stock, gm: int, nb: int, best: int, c: int, rs: int)
    requires ShapeOk(m, t, B, gm) && 256 <= nb < MAX_SIZE && OnPath(t, nb, c, rs) && PathCovers(t, nb, best, c, rs)
    requires nb <= c ==> best <= c
    ensures var l, r := ChildSize(t, c, KeyBit(SizeKey(nb), t.depth[c])), NextRight(t, nb, c, rs);
            && PathCovers(t, nb, best, l, r)
            && (l != 0 ==> OnPath(t, nb, l, r) && t.depth[l] == t.depth[c] + 1)
            && (r != 0 ==> r in t.depth && r >= 256 && AllFit(t, r, nb))
  {
    hide TreeIndex, Key;
    var b := KeyBit(SizeKey(nb), t.depth[c]);
    var l, r := ChildSize(t, c, b), NextRight(t, nb, c, rs);
    forall u | u in t.depth && nb <= u && TreeIndex(u) == TreeIndex(nb) ensures PathSettled(t, best, l, r, u) {
      assert PathSettled(t, best, c, rs, u);
      PathOne(m, t, B, gm, nb, best, c, rs, u);
    }
    ChildSub(m, t, B, gm, c, b);
    ChildSub(m, t, B, gm, c, 1);
    if r != rs { RightFits(m, t, B, gm, nb, c); }
    if l != 0 && r != 0 { PathBeneath(m, t, B, gm, nb, c, rs); }
  }

  // ---------------------------------------------------------------- where the loops start and meet

  lemma ClassOrder(a: int, i: nat, b: int, j: nat)
    requires InClass(a, i) && InClass(b, j) && i < j
    ensures a < b
  {
    hide MinSize;
    if i + 1 < j { MinSizeMono(i + 1, j); }
  }

  /** Everything of a class hangs below its root. */
  lemma BelowRoot(m: Mem, t: Shape, B: Stock, gm: int, u: int)
    requires ShapeOk(m, t, B, gm) && u in t.depth && u >= 0
    ensures Slot(TreeIndex(u), 1) in t.pos
    ensures var c := t.pos[Slot(TreeIndex(u), 1)];
            c in t.depth && c >= 256 && c in t.node && t.depth[c] == 0 && TreeIndex(c) == TreeIndex(u) && InSub(t, c, u)
  {
    hide TreeIndex, Key;
    AncestorOccupied(m, t, B, gm, u, 0);
    RootSize(m, t, B, gm, TreeIndex(u));
  }

  lemma RootSize(m: Mem, t: Shape, B: Stock, gm: int, i: int)
    requires ShapeOk(m, t, B, gm) && Slot(i, 1) in t.pos
    ensures var c := t.pos[Slot(i, 1)]; c in t.depth && c >= 256 && c in t.node && t.depth[c] == 0 && TreeIndex(c) == i
  {
    hide TreeIndex, Key;
    var c := t.pos[Slot(i, 1)];
    assert NodeOk(m, t, gm, Slot(i, 1));
    assert SizeOk(t, B, c);
    assert t.depth[c] > 0 ==> Id(SizeKey(c), t.depth[c]) >= 2;
  }

  /** A member of a root's subtree is of the root's class. */
  lemma StartPath(m: Mem, t: Shape, B: Stock, gm: int, nb: int, best: int)
    requires ShapeOk(m, t, B, gm) && nb >= 0
    ensures Slot(TreeIndex(nb), 1) !in t.pos ==> PathCovers(t, nb, best, 0, 0)
    ensures Slot(TreeIndex(nb), 1) in t.pos ==>
              var c := t.pos[Slot(TreeIndex(nb), 1)]; PathCovers(t, nb, best, c, 0) && OnPath(t, nb, c, 0) && t.depth[c] == 0
  {
    hide TreeIndex, Key;
    var k := Slot(TreeIndex(nb), 1);
    if k in t.pos { RootSize(m, t, B, gm, TreeIndex(nb)); }
    var c := if k in t.pos then t.pos[k] else 0;
    forall u | u in t.depth && nb <= u && TreeIndex(u) == TreeIndex(nb) ensures PathSettled(t, best, c, 0, u) {
      BelowRoot(m, t, B, gm, u);
    }
  }

  /** When the first loop has a candidate or an untaken subtree, larger classes cannot do better. */
  lemma FinishPath(m: Mem, t: Shape, B: Stock, gm: int, nb: int, best: int, rs: int)
    requires ShapeOk(m, t, B, gm) && 256 <= nb < MAX_SIZE && PathCovers(t, nb, best, 0, rs)
    requires rs != 0 ==> rs in t.depth && rs >= 0 && TreeIndex(rs) == TreeIndex(nb)
    requires rs == 0 ==> best in t.depth && best >= 0 && TreeIndex(best) == TreeIndex(nb)
    ensures Covers(t, nb, best, rs)
  {
    hide TreeIndex, Key;
    forall u | u in t.depth && nb <= u ensures Settled(t, best, rs, u) {
      ClassOf(m, t, B, gm, u);
      TreeIndexClass(nb);
      if TreeIndex(u) == TreeIndex(nb) {
        assert PathSettled(t, best, 0, rs, u);
      } else {
        if TreeIndex(u) < TreeIndex(nb) { ClassOrder(u, TreeIndex(u), nb, TreeIndex(nb)); }
        if rs == 0 {
          ClassOf(m, t, B, gm, best);
          ClassOrder(best, TreeIndex(best), u, TreeIndex(u));
        } else {
          forall w | InSub(t, rs, w) ensures w < u {
            ClassOf(m, t, B, gm, w);
            ClassOrder(w, TreeIndex(w), u, TreeIndex(u));
          }
        }
      }
    }
  }

  /** i is the lowest occupied class at or above lo. */
  ghost predicate LowestClass(t: Shape, lo: int, i: int) {
    Slot(i, 1) in t.pos && lo <= i && forall j {:trigger Slot(j, 1)} :: lo <= j < i ==> Slot(j, 1) !in t.pos
  }

  /** Starting over at the lowest occupied class misses nothing that fits. */
  lemma StartAtClass(m: Mem, t: Shape, B: Stock, gm: int, nb: int, lo: int, i: int)
    requires ShapeOk(m, t, B, gm) && LowestClass(t, lo, i)
    requires forall u {:trigger u in t.depth} :: u in t.depth && nb <= u ==> u >= 0 && TreeIndex(u) >= lo
    requires forall u {:trigger u in t.depth} :: u in t.depth && u >= 0 && TreeIndex(u) >= lo ==> nb <= u
    ensures var c := t.pos[Slot(i, 1)]; c in t.depth && Covers(t, nb, W, c) && AllFit(t, c, nb)
  {
    hide TreeIndex, Key;
    RootSize(m, t, B, gm, i);
    var c := t.pos[Slot(i, 1)];
    forall u | u in t.depth && nb <= u ensures Settled(t, W, c, u) {
      ClassOf(m, t, B, gm, u);
      BelowRoot(m, t, B, gm, u);
      assert Slot(TreeIndex(u), 1) in t.pos;
      if TreeIndex(u) != i {
        forall w | InSub(t, c, w) ensures w < u {
          ClassOf(m, t, B, gm, w);
          ClassOrder(w, TreeIndex(w), u, TreeIndex(u));
        }
      }
    }
    forall w | InSub(t, c, w) ensures nb <= w { }
  }

  /** With nothing fitting in nb's own class, what fits lies in the higher classes, and all of those fit. */
  lemma HigherClasses(m: Mem, t: Shape, B: Stock, gm: int, nb: int, u: int)
    requires ShapeOk(m, t, B, gm) && 256 <= nb < MAX_SIZE && PathCovers(t, nb, W, 0, 0) && u in t.depth
    ensures u >= 0 && (nb <= u <==> TreeIndex(u) >= TreeIndex(nb) + 1)
  {
    hide TreeIndex, Key;
    ClassOf(m, t, B, gm, u);
    TreeIndexClass(nb);
    if TreeIndex(u) > TreeIndex(nb) {
      ClassOrder(nb, TreeIndex(nb), u, TreeIndex(u));
    } else if TreeIndex(u) < TreeIndex(nb) {
      ClassOrder(u, TreeIndex(u), nb, TreeIndex(nb));
    } else if nb <= u {
      assert PathSettled(t, W, 0, 0, u);
    }
  }

  // ---------------------------------------------------------------- searching for an exact size

  /** c is on the path of s, and s, if stored at all, is at c or below it. */
  ghost predicate Descends(t: Shape, s: int, c: int) {
    && 256 <= s < MAX_SIZE && c in t.depth && c >= 0 && SlotAt(s, t.depth[c]) == SlotAt(c, t.depth[c])
    && (s in t.depth ==> t.depth[c] <= t.depth[s])
  }

  lemma StartDescent(m: Mem, t: Shape, B: Stock, gm: int, s: int)
    requires ShapeOk(m, t, B, gm) && 256 <= s < MAX_SIZE
    ensures Slot(TreeIndex(s), 1) in t.pos ==>
              var c := t.pos[Slot(TreeIndex(s), 1)]; Descends(t, s, c) && t.depth[c] == 0 && c in t.node
    ensures Slot(TreeIndex(s), 1) !in t.pos ==> Vacant(t, s, 0)
  {
    hide TreeIndex, Key;
    if Slot(TreeIndex(s), 1) in t.pos { RootSize(m, t, B, gm, TreeIndex(s)); }
    if s in t.depth { BelowRoot(m, t, B, gm, s); }
  }

  /** Sixty-four levels are enough to tell two sizes apart. */
  lemma NotTooDeep(m: Mem, t: Shape, B: Stock, gm: int, s: int, c: int)
    requires ShapeOk(m, t, B, gm) && Descends(t, s, c) && c != s
    ensures t.depth[c] < 64
  {
    hide TreeIndex, Key;
    assert SizeOk(t, B, c);
    if t.depth[c] == 64 {
      KeyEq(SizeKey(s), SizeKey(c));
      ClassOf(m, t, B, gm, c);
      TreeIndexClass(s);
      KeyMono(s, c, TreeIndex(s));
    }
  }

  /** A node of another size sends the search on, or leaves a free slot for s. */
  lemma DescentStep(m: Mem, t: Shape, B: Stock, gm: int, s: int, c: int)
    requires ShapeOk(m, t, B, gm) && Descends(t, s, c) && c != s
    ensures var l := ChildSize(t, c, KeyBit(SizeKey(s), t.depth[c]));
            && t.depth[c] < 64
            && (l != 0 ==> Descends(t, s, l) && t.depth[l] == t.depth[c] + 1)
            && (l == 0 ==> Vacant(t, s, t.depth[c] + 1) && SlotAt(s, t.depth[c]) in t.pos && t.pos[SlotAt(s, t.depth[c])] == c)
  {
    hide TreeIndex, Key;
    var d := t.depth[c];
    var b := KeyBit(SizeKey(s), d);
    NotTooDeep(m, t, B, gm, s, c);
    assert SizeOk(t, B, c);
    ChildSub(m, t, B, gm, c, b);
    assert SlotAt(s, d + 1) == Slot(TreeIndex(c), 2 * Id(SizeKey(c), d) + b);
    if s in t.depth {
      assert SizeOk(t, B, s);
      AncestorOccupied(m, t, B, gm, s, d + 1);
      StoredNonZero(m, t, B, gm, SlotAt(s, d + 1));
    }
    if SlotAt(s, d + 1) in t.pos { StoredNonZero(m, t, B, gm, SlotAt(s, d + 1)); }
  }

  lemma StoredNonZero(m: Mem, t: Shape, B: Stock, gm: int, k: Slot)
    requires ShapeOk(m, t, B, gm) && k in t.pos
    ensures t.pos[k] >= 256 && t.pos[k] in t.depth && t.pos[k] in t.node
  {
    hide TreeIndex, Key;
    assert NodeOk(m, t, gm, k);
    assert SizeOk(t, B, t.pos[k]);
  }

  /** The child word of a node names the node of its child size. */
  lemma ChildWord(m: Mem, t: Shape, B: Stock, gm: int, lo: int, hi: int, c: int, b: int)
    requires ShapeOk(m, t, B, gm) && Placed(B, lo, hi, gm) && lo > 0 && c in t.depth && c >= 0 && (b == 0 || b == 1)
    ensures c in t.node && t.node[c] in B && B[t.node[c]] == c && c >= 256
    ensures var w, l := Child(m, t.node[c], b), ChildSize(t, c, b);
            (w == 0 <==> l == 0) && (l != 0 ==> l in t.node && l in t.depth && t.node[l] == w && w in B && B[w] == l && w >= lo)
  {
    hide TreeIndex, Key;
    assert SizeOk(t, B, c);
    ChildIsNode(m, t, B, gm, lo, hi, c, b);
    var k := Slot(TreeIndex(c), 2 * Id(SizeKey(c), t.depth[c]) + b);
    if k in t.pos {
      StoredNonZero(m, t, B, gm, k);
      OffState(B, lo, hi, gm, t.node[t.pos[k]]);
    }
  }

  lemma RootWord(m: Mem, t: Shape, B: Stock, gm: int, lo: int, hi: int, i: int)
    requires ShapeOk(m, t, B, gm) && Placed(B, lo, hi, gm) && lo > 0 && 0 <= i < 32
    ensures Rd(m, TreeBin(gm, i)) == 0 <==> Slot(i, 1) !in t.pos
    ensures Slot(i, 1) in t.pos ==>
              var c := t.pos[Slot(i, 1)]; c in t.depth && c in t.node && c >= 256 && Rd(m, TreeBin(gm, i)) == t.node[c] && t.node[c] in B && B[t.node[c]] == c
  {
    hide TreeIndex, Key;
    assert RootOk(m, t, gm, i);
    if Slot(i, 1) in t.pos {
      RootSize(m, t, B, gm, i);
      var c := t.pos[Slot(i, 1)];
      assert SizeOk(t, B, c);
      OffState(B, lo, hi, gm, t.node[c]);
    }
  }

  // ---------------------------------------------------------------- summaries for the search loops

  /** Nothing stored reaches nb, or the search is at an exact fit. */
  lemma TrivialCovers(m: Mem, t: Shape, B: Stock, gm: int, nb: int, best: int, c: int)
    requires ShapeOk(m, t, B, gm) && (nb >= MAX_SIZE || best <= nb)
    ensures Covers(t, nb, best, c)
  {
    hide TreeIndex, Key;
    forall u | u in t.depth && nb <= u ensures Settled(t, best, c, u) { assert SizeOk(t, B, u); }
  }

  /** The second loop's state at node size c (0 once it has run off a leaf). */
  ghost predicate Narrowing(t: Shape, nb: int, best: int, c: int) {
    && Covers(t, nb, best, c)
    && (best <= nb || nb >= MAX_SIZE || c == 0 || AllFit(t, c, nb))
  }

  lemma NarrowStep(m: Mem, t: Shape, B: Stock, gm: int, nb: int, best: int, c: int)
    requires ShapeOk(m, t, B, gm) && c in t.depth && c >= 0 && Narrowing(t, nb, best, c)
    ensures var better := if nb <= c && c < best then c else best; Narrowing(t, nb, better, Leftmost(t, c))
  {
    hide TreeIndex, Key;
    var better := if nb <= c && c < best then c else best;
    if best <= nb || nb >= MAX_SIZE {
      TrivialCovers(m, t, B, gm, nb, better, Leftmost(t, c));
    } else {
      SelfSub(m, t, B, gm, c);
      ClassOf(m, t, B, gm, c);
      BetterCovers(t, nb, best, better, c);
      LeftmostStep(m, t, B, gm, nb, better, c);
    }
  }

  /** The first loop's state: the path of nb has led to size c. */
  ghost predicate Following(t: Shape, nb: int, best: int, c: int, rs: int)
    requires nb >= 0
  {
    nb < MAX_SIZE ==>
      && PathCovers(t, nb, best, c, rs)
      && (c != 0 ==> OnPath(t, nb, c, rs))
      && (rs != 0 ==> rs in t.depth && rs >= 0 && AllFit(t, rs, nb) && TreeIndex(rs) == TreeIndex(nb))
  }

  lemma BetterPath(t: Shape, nb: int, best: int, better: int, c: int, rs: int)
    requires nb >= 0 && PathCovers(t, nb, best, c, rs) && better <= best
    ensures PathCovers(t, nb, better, c, rs)
  {
    forall u | u in t.depth && nb <= u && TreeIndex(u) == TreeIndex(nb) ensures PathSettled(t, better, c, rs, u) {
      assert PathSettled(t, best, c, rs, u);
    }
  }

  lemma FollowStep(m: Mem, t: Shape, B: Stock, gm: int, nb: int, best: int, c: int, rs: int)
    requires ShapeOk(m, t, B, gm) && nb >= 256 && c in t.depth && c >= 0 && Following(t, nb, best, c, rs) && c != 0
    ensures var better := if nb <= c && c < best then c else best;
            Following(t, nb, better, ChildSize(t, c, KeyBit(SizeKey(nb), t.depth[c])), NextRight(t, nb, c, rs))
  {
    hide TreeIndex, Key;
    var better := if nb <= c && c < best then c else best;
    if nb < MAX_SIZE {
      BetterPath(t, nb, best, better, c, rs);
      PathStep(m, t, B, gm, nb, better, c, rs);
      ChildSub(m, t, B, gm, c, 1);
    }
  }

  lemma FollowStart(m: Mem, t: Shape, B: Stock, gm: int, nb: int)
    requires ShapeOk(m, t, B, gm) && nb >= 256
    ensures Slot(TreeIndex(nb), 1) !in t.pos ==> Following(t, nb, W, 0, 0)
    ensures Slot(TreeIndex(nb), 1) in t.pos ==> Following(t, nb, W, t.pos[Slot(TreeIndex(nb), 1)], 0)
  {
    hide TreeIndex, Key;
    StartPath(m, t, B, gm, nb, W);
  }

  /** Handing over from the first loop to the second with a candidate or an untaken subtree. */
  lemma FollowToNarrow(m: Mem, t: Shape, B: Stock, gm: int, nb: int, best: int, rs: int)
    requires ShapeOk(m, t, B, gm) && nb >= 256 && Following(t, nb, best, 0, rs)
    requires rs != 0 || (best in t.depth && TreeIndexOf(best) == TreeIndexOf(nb))
    ensures Narrowing(t, nb, best, rs)
  {
    hide TreeIndex, Key;
    if nb >= MAX_SIZE {
      TrivialCovers(m, t, B, gm, nb, best, rs);
    } else {
      if best in t.depth { ClassOf(m, t, B, gm, best); }
      FinishPath(m, t, B, gm, nb, best, rs);
    }
  }

  function TreeIndexOf(s: int): int { if s >= 0 then TreeIndex(s) else -1 }

  /** Handing over with nothing in nb's own class: restart at the lowest higher class, if any. */
  lemma FollowToNext(m: Mem, t: Shape, B: Stock, gm: int, nb: int, i: int)
    requires ShapeOk(m, t, B, gm) && nb >= 256 && Following(t, nb, W, 0, 0) && LowestClass(t, TreeIndex(nb) + 1, i)
    ensures Narrowing(t, nb, W, t.pos[Slot(i, 1)])
  {
    hide TreeIndex, Key;
    if nb >= MAX_SIZE {
      TrivialCovers(m, t, B, gm, nb, W, t.pos[Slot(i, 1)]);
    } else {
      forall u | u in t.depth ensures u >= 0 && (nb <= u <==> TreeIndex(u) >= TreeIndex(nb) + 1) {
        HigherClasses(m, t, B, gm, nb, u);
      }
      StartAtClass(m, t, B, gm, nb, TreeIndex(nb) + 1, i);
    }
  }

  lemma FollowToNone(m: Mem, t: Shape, B: Stock, gm: int, nb: int)
    requires ShapeOk(m, t, B, gm) && nb >= 256 && Following(t, nb, W, 0, 0)
    requires forall i {:trigger Slot(i, 1)} :: TreeIndex(nb) + 1 <= i < 32 ==> Slot(i, 1) !in t.pos
    ensures Narrowing(t, nb, W, 0)
  {
    hide TreeIndex, Key;
    if nb >= MAX_SIZE {
      TrivialCovers(m, t, B, gm, nb, W, 0);
    } else {
      forall u | u in t.depth && nb <= u ensures Settled(t, W, 0, u) {
        HigherClasses(m, t, B, gm, nb, u);
        BelowRoot(m, t, B, gm, u);
        assert Slot(TreeIndex(u), 1) in t.pos;
      }
    }
  }

  /** All stored sizes exceed a small request, so its search starts at the lowest occupied class of all. */
  lemma NarrowFromLeast(m: Mem, t: Shape, B: Stock, gm: int, nb: int, i: int)
    requires ShapeOk(m, t, B, gm) && nb < 256 && LowestClass(t, 0, i)
    ensures Narrowing(t, nb, W, t.pos[Slot(i, 1)])
  {
    hide TreeIndex, Key;
    forall u | u in t.depth ensures u >= 0 && nb <= u && TreeIndex(u) >= 0 { ClassOf(m, t, B, gm, u); }
    StartAtClass(m, t, B, gm, nb, 0, i);
  }
}
