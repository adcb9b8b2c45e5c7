/** Circular doubly-linked lists threaded through the fd and bk words of chunks. */
module Rings {
  import opened Memory

  function Fd(m: Mem, p: int): int { Rd(m, p + 16) }

  function Bk(m: Mem, p: int): int { Rd(m, p + 24) }

  function Next(r: seq<int>, i: int): int
    requires 0 <= i < |r|
  {
    if i + 1 < |r| then r[i + 1] else r[0]
  }

  /** Forward and backward links agree between element i and its successor. */
  ghost predicate Hop(m: Mem, r: seq<int>, i: int)
    requires 0 <= i < |r|
  {
    Fd(m, r[i]) == Next(r, i) && Bk(m, Next(r, i)) == r[i]
  }

  /** The link words of two nodes do not overlap. */
  predicate Apart(x: int, y: int) { x + 16 <= y || y + 16 <= x }

  ghost predicate Spread(r: seq<int>) {
    forall i, j {:trigger Apart(r[i], r[j])} :: 0 <= i < j < |r| ==> Apart(r[i], r[j])
  }

  /** r, read cyclically, is exactly the list reached by following fd from r[0]. */
  ghost predicate Ring(m: Mem, r: seq<int>) {
    && |r| > 0
    && (forall i {:trigger Hop(m, r, i)} :: 0 <= i < |r| ==> Hop(m, r, i))
    && Spread(r)
  }

  /** h->fd = x; f->bk = x; x->fd = f; x->bk = h */
  function LinkIn(m: Mem, h: int, f: int, x: int): Mem {
    m[h + 16 := x][f + 24 := x][x + 16 := f][x + 24 := h]
  }

  /** f->bk = b; b->fd = f */
  function LinkOut(m: Mem, b: int, f: int): Mem {
    m[f + 24 := b][b + 16 := f]
  }

  lemma ApartAt(r: seq<int>, i: int, j: int)
    requires Spread(r) && 0 <= i < |r| && 0 <= j < |r| && i != j
    ensures Apart(r[i], r[j])
  {
    assert if i < j then Apart(r[i], r[j]) else Apart(r[j], r[i]);
  }

  lemma SpreadInsert(r: seq<int>, x: int)
    requires |r| > 0 && Spread(r)
    requires forall i {:trigger r[i]} :: 0 <= i < |r| ==> Apart(x, r[i])
    ensures Spread([r[0], x] + r[1..])
  {
    var s := [r[0], x] + r[1..];
    forall i, j | 0 <= i < j < |s| ensures Apart(s[i], s[j]) {
      if j >= 2 && i != 1 {
        assert Apart(r[if i == 0 then 0 else i - 1], r[j - 1]);
      }
    }
  }

  /** Linking x in after the head lengthens the ring by exactly x; a stale one-element ring needs no old links. */
  lemma RingInsert(m: Mem, r: seq<int>, x: int)
    requires |r| > 0 && Spread(r) && (|r| == 1 || Ring(m, r))
    requires forall i {:trigger r[i]} :: 0 <= i < |r| ==> Apart(x, r[i])
    ensures Ring(LinkIn(m, r[0], Next(r, 0), x), [r[0], x] + r[1..])
  {
    var f := Next(r, 0);
    var m' := LinkIn(m, r[0], f, x);
    var s := [r[0], x] + r[1..];
    forall i | 0 <= i < |s| ensures Hop(m', s, i) {
      if i >= 2 {
        RingInsertHop(m, r, x, i);
      } else if |r| > 1 {
        assert Apart(r[0], r[1]);
        assert s[2] == r[1];
      }
    }
    SpreadInsert(r, x);
  }

  lemma RingInsertHop(m: Mem, r: seq<int>, x: int, i: int)
    requires |r| > 1 && Ring(m, r) && 2 <= i < |r| + 1
    requires forall i {:trigger r[i]} :: 0 <= i < |r| ==> Apart(x, r[i])
    ensures Hop(LinkIn(m, r[0], r[1], x), [r[0], x] + r[1..], i)
  {
    var s := [r[0], x] + r[1..];
    assert Hop(m, r, i - 1);
    assert s[i] == r[i - 1];
    ApartAt(r, 0, i - 1);
    if i != 2 { ApartAt(r, 1, i - 1); }
    if i < |r| {
      assert s[i + 1] == r[i];
      ApartAt(r, 0, i);
      ApartAt(r, 1, i);
    } else {
      ApartAt(r, 0, 1);
    }
  }

  lemma SpreadRemove(r: seq<int>, j: int)
    requires Spread(r) && 0 <= j < |r|
    ensures Spread(r[..j] + r[j + 1..])
  {
    var s := r[..j] + r[j + 1..];
    forall i, k | 0 <= i < k < |s| ensures Apart(s[i], s[k]) {
      assert Apart(r[if i < j then i else i + 1], r[if k < j then k else k + 1]);
    }
  }

  lemma RingRemoveHop(m: Mem, r: seq<int>, j: int, i: int)
    requires Ring(m, r) && 1 <= j < |r| && 0 <= i < |r| - 1
    ensures Hop(LinkOut(m, r[j - 1], Next(r, j)), r[..j] + r[j + 1..], i)
  {
    var s := r[..j] + r[j + 1..];
    var o := if i < j then i else i + 1;
    assert Hop(m, r, o);
    assert s[i] == r[o];
    var f := if j + 1 < |r| then j + 1 else 0;
    if i != j - 1 {
      var n := if o + 1 < |r| then o + 1 else 0;
      assert Next(s, i) == r[n];
      ApartAt(r, o, j - 1);
      if n != f { ApartAt(r, n, f); }
      if o != f { ApartAt(r, o, f); }
      if n != j - 1 { ApartAt(r, n, j - 1); }
    } else {
      assert Next(s, i) == r[f];
      if f != j - 1 { ApartAt(r, f, j - 1); }
    }
  }

  /** Unlinking element j (never the head) leaves the ring of the others, in order. */
  lemma RingRemove(m: Mem, r: seq<int>, j: int)
    requires Ring(m, r) && 1 <= j < |r|
    ensures Ring(LinkOut(m, r[j - 1], Next(r, j)), r[..j] + r[j + 1..])
  {
    var s := r[..j] + r[j + 1..];
    var m' := LinkOut(m, r[j - 1], Next(r, j));
    forall i | 0 <= i < |s| ensures Hop(m', s, i) {
      RingRemoveHop(m, r, j, i);
    }
    SpreadRemove(r, j);
  }

  /** A ring may be read from its last element. */
  lemma RingRotate(m: Mem, r: seq<int>)
    requires Ring(m, r)
    ensures Ring(m, [r[|r| - 1]] + r[..|r| - 1])
  {
    var n := |r|;
    var s := [r[n - 1]] + r[..n - 1];
    forall i | 0 <= i < n ensures Hop(m, s, i) {
      assert Hop(m, r, if i == 0 then n - 1 else i - 1);
    }
    forall i, j | 0 <= i < j < |s| ensures Apart(s[i], s[j]) {
      if i == 0 { assert Apart(r[j - 1], r[n - 1]); } else { assert Apart(r[i - 1], r[j - 1]); }
    }
  }

  lemma RingFrame(m: Mem, m': Mem, r: seq<int>)
    requires Ring(m, r)
    requires forall i {:trigger r[i]} :: 0 <= i < |r| ==> Fd(m', r[i]) == Fd(m, r[i]) && Bk(m', r[i]) == Bk(m, r[i])
    ensures Ring(m', r)
  {
    forall i | 0 <= i < |r| ensures Hop(m', r, i) {
      assert Hop(m, r, i);
    }
  }
}
