/** The 32 small bins: circular lists of equal-sized free chunks with headers inside malloc_state. */
module SmallBins {
  import opened Memory
  import opened Bitmap
  import opened Rings

  /** Free chunks held by the bins, with their sizes. */
  type Stock = map<int, int>

  const STATE_SIZE := 1024

  /** smallbin_at(M, i): the header, repositioned so that its fd and bk are the array entries. */
  function Header(gm: int, i: int): int { gm + 72 + 16 * i }

  ghost predicate InPlace(B: Stock, p: int, lo: int, hi: int)
    requires p in B
  {
    lo <= p && B[p] >= 32 && B[p] % 16 == 0 && p + B[p] <= hi
  }

  ghost predicate Disjoint(B: Stock, p: int, q: int)
    requires p in B && q in B
  {
    p < q ==> p + B[p] <= q
  }

  /** Stocked chunks lie in [lo, hi) without overlap, away from the static state at gm. */
  ghost predicate Placed(B: Stock, lo: int, hi: int, gm: int) {
    && (gm + STATE_SIZE <= lo || hi <= gm)
    && (forall p {:trigger InPlace(B, p, lo, hi)} :: p in B ==> InPlace(B, p, lo, hi))
    && (forall p, q {:trigger Disjoint(B, p, q)} :: p in B && q in B ==> Disjoint(B, p, q))
  }

  /** Bin i: its map bit, its ring, and the size of what it holds. The links count only when the bit is set. */
  ghost predicate BinOk(m: Mem, sm: Word32, bins: seq<seq<int>>, B: Stock, gm: int, i: int)
    requires |bins| == 32 && 0 <= i < 32
  {
    && (sm[i] <==> bins[i] != [])
    && (bins[i] != [] ==> Ring(m, [Header(gm, i)] + bins[i]))
    && (forall k {:trigger bins[i][k]} :: 0 <= k < |bins[i]| ==> bins[i][k] in B && B[bins[i][k]] == 8 * i)
  }

  ghost predicate Binned(bins: seq<seq<int>>, B: Stock, p: int)
    requires |bins| == 32 && p in B
  {
    0 <= B[p] < 256 ==> p in bins[B[p] / 8]
  }

  ghost predicate SmallOk(m: Mem, sm: Word32, bins: seq<seq<int>>, B: Stock, gm: int) {
    && |bins| == 32
    && (forall i {:trigger BinOk(m, sm, bins, B, gm, i)} :: 0 <= i < 32 ==> BinOk(m, sm, bins, B, gm, i))
    && (forall p {:trigger Binned(bins, B, p)} :: p in B ==> Binned(bins, B, p))
  }

  /** A header and a stocked chunk, or two of either, never share link words. */
  lemma HeaderApart(B: Stock, lo: int, hi: int, gm: int, i: int, p: int)
    requires Placed(B, lo, hi, gm) && 0 <= i < 32 && p in B
    ensures Apart(p, Header(gm, i))
  {
    assert InPlace(B, p, lo, hi);
  }

  lemma StockApart(B: Stock, lo: int, hi: int, gm: int, p: int, q: int)
    requires Placed(B, lo, hi, gm) && p in B && q in B && p != q
    ensures Apart(p, q)
  {
    assert InPlace(B, p, lo, hi) && InPlace(B, q, lo, hi);
    assert Disjoint(B, p, q) && Disjoint(B, q, p);
  }

  /** Words a small-bin step may write: links of headers and of stocked chunks. */
  ghost predicate LinksKept(m: Mem, m': Mem, x: int) {
    Fd(m', x) == Fd(m, x) && Bk(m', x) == Bk(m, x)
  }

  /** Bins whose nodes keep their links stay well formed. */
  lemma BinFrame(m: Mem, m': Mem, sm: Word32, sm': Word32, bins: seq<seq<int>>, bins': seq<seq<int>>, B: Stock, B': Stock,
                 gm: int, i: int)
    requires |bins| == |bins'| == 32 && 0 <= i < 32 && BinOk(m, sm, bins, B, gm, i)
    requires bins'[i] == bins[i] && (sm'[i] <==> sm[i])
    requires LinksKept(m, m', Header(gm, i))
    requires forall k {:trigger bins[i][k]} :: 0 <= k < |bins[i]| ==>
               LinksKept(m, m', bins[i][k]) && bins[i][k] in B' && B'[bins[i][k]] == B[bins[i][k]]
    ensures BinOk(m', sm', bins', B', gm, i)
  {
    if bins[i] != [] {
      var r := [Header(gm, i)] + bins[i];
      forall k | 0 <= k < |r| ensures Fd(m', r[k]) == Fd(m, r[k]) && Bk(m', r[k]) == Bk(m, r[k]) {
        assert k > 0 ==> r[k] == bins[i][k - 1];
      }
      RingFrame(m, m', r);
    }
  }

  /** insert_small_chunk's list operation, with f the old first node or the header itself. */
  lemma InsertTarget(m: Mem, sm: Word32, bins: seq<seq<int>>, B: Stock, gm: int, lo: int, hi: int, p: int, i: int)
    requires SmallOk(m, sm, bins, B, gm) && 0 <= i < 32
    requires p !in B && Placed(B[p := 8 * i], lo, hi, gm)
    ensures var h := Header(gm, i);
            var f := if sm[i] then Fd(m, h) else h;
            && (sm[i] ==> f in B && B[f] == 8 * i)
            && Ring(LinkIn(m, h, f, p), [h, p] + bins[i])
  {
    var B' := B[p := 8 * i];
    var h := Header(gm, i);
    var r := [h] + bins[i];
    assert BinOk(m, sm, bins, B, gm, i);
    if bins[i] != [] {
      assert Hop(m, r, 0);
      assert r[1] == bins[i][0];
    }
    forall k | 0 <= k < |r| ensures Apart(p, r[k]) {
      if k == 0 {
        HeaderApart(B', lo, hi, gm, i, p);
      } else {
        assert r[k] == bins[i][k - 1];
        StockApart(B', lo, hi, gm, p, r[k]);
      }
    }
    RingInsert(m, r, p);
    assert [h, p] + r[1..] == [h, p] + bins[i];
  }

  lemma InsertOther(m: Mem, sm: Word32, bins: seq<seq<int>>, B: Stock, gm: int, lo: int, hi: int, p: int, i: int, j: int)
    requires SmallOk(m, sm, bins, B, gm) && 0 <= i < 32 && 0 <= j < 32 && i != j
    requires p !in B && Placed(B[p := 8 * i], lo, hi, gm)
    ensures var h := Header(gm, i);
            var f := if sm[i] then Fd(m, h) else h;
            BinOk(LinkIn(m, h, f, p), Or(sm, Bit(i)), bins[i := [p] + bins[i]], B[p := 8 * i], gm, j)
  {
    InsertTarget(m, sm, bins, B, gm, lo, hi, p, i);
    var B' := B[p := 8 * i];
    var h := Header(gm, i);
    var f := if sm[i] then Fd(m, h) else h;
    var m' := LinkIn(m, h, f, p);
    assert BinOk(m, sm, bins, B, gm, j);
    HeaderApart(B', lo, hi, gm, j, p);
    if f != h { HeaderApart(B', lo, hi, gm, j, f); }
    forall k | 0 <= k < |bins[j]|
      ensures LinksKept(m, m', bins[j][k]) && bins[j][k] in B' && B'[bins[j][k]] == B[bins[j][k]]
    {
      var q := bins[j][k];
      HeaderApart(B', lo, hi, gm, i, q);
      StockApart(B', lo, hi, gm, p, q);
      if f != h { StockApart(B', lo, hi, gm, f, q); }
    }
    BinFrame(m, m', sm, Or(sm, Bit(i)), bins, bins[i := [p] + bins[i]], B, B', gm, j);
  }

  /** Inserting p leaves every bin well formed and the stock grown by exactly p. */
  lemma InsertSmall(m: Mem, sm: Word32, bins: seq<seq<int>>, B: Stock, gm: int, lo: int, hi: int, p: int, i: int)
    requires SmallOk(m, sm, bins, B, gm) && 0 <= i < 32
    requires p !in B && Placed(B[p := 8 * i], lo, hi, gm)
    ensures var h := Header(gm, i);
            var f := if sm[i] then Fd(m, h) else h;
            SmallOk(LinkIn(m, h, f, p), Or(sm, Bit(i)), bins[i := [p] + bins[i]], B[p := 8 * i], gm)
  {
    InsertTarget(m, sm, bins, B, gm, lo, hi, p, i);
    var B' := B[p := 8 * i];
    var h := Header(gm, i);
    var f := if sm[i] then Fd(m, h) else h;
    var m' := LinkIn(m, h, f, p);
    var bins' := bins[i := [p] + bins[i]];
    var sm' := Or(sm, Bit(i));
    forall j | 0 <= j < 32 ensures BinOk(m', sm', bins', B', gm, j) {
      if j == i {
        assert BinOk(m, sm, bins, B, gm, i);
        assert [h] + bins'[i] == [h, p] + bins[i];
        forall k | 0 <= k < |bins'[i]| ensures bins'[i][k] in B' && B'[bins'[i][k]] == 8 * i {
          assert k > 0 ==> bins'[i][k] == bins[i][k - 1];
        }
      } else {
        InsertOther(m, sm, bins, B, gm, lo, hi, p, i, j);
      }
    }
    forall q | q in B' ensures Binned(bins', B', q) {
      if q == p { assert p == bins'[i][0]; } else { assert Binned(bins, B, q); }
    }
  }

  function Without<T>(s: seq<T>, k: int): seq<T>
    requires 0 <= k < |s|
  {
    s[..k] + s[k + 1..]
  }

  /** Where p sits in its bin, and what unlink_small_chunk reads there. */
  lemma LocateSmall(m: Mem, sm: Word32, bins: seq<seq<int>>, B: Stock, gm: int, lo: int, hi: int, p: int, i: int)
    returns (k: int)
    requires SmallOk(m, sm, bins, B, gm) && Placed(B, lo, hi, gm)
    requires 0 <= i < 32 && p in B && B[p] == 8 * i
    ensures 0 <= k < |bins[i]| && bins[i][k] == p && sm[i]
    ensures Bk(m, p) == if k == 0 then Header(gm, i) else bins[i][k - 1]
    ensures Fd(m, p) == if k + 1 == |bins[i]| then Header(gm, i) else bins[i][k + 1]
    ensures Bk(m, Fd(m, p)) == p && Fd(m, Bk(m, p)) == p
    ensures Fd(m, p) == Bk(m, p) <==> |bins[i]| == 1
    ensures Fd(m, p) != p && Bk(m, p) != p
  {
    assert Binned(bins, B, p);
    assert B[p] / 8 == i;
    k :| 0 <= k < |bins[i]| && bins[i][k] == p;
    assert BinOk(m, sm, bins, B, gm, i);
    var r := [Header(gm, i)] + bins[i];
    assert r[k + 1] == p;
    assert Hop(m, r, k) && Hop(m, r, k + 1);
    var n := if k + 2 < |r| then k + 2 else 0;
    if n != k { ApartAt(r, k, n); }
    ApartAt(r, k, k + 1);
    ApartAt(r, n, k + 1);
  }

  lemma UnlinkOther(m: Mem, m': Mem, sm: Word32, sm': Word32, bins: seq<seq<int>>, B: Stock, gm: int, lo: int, hi: int,
                    p: int, i: int, k: int, j: int)
    requires SmallOk(m, sm, bins, B, gm) && Placed(B, lo, hi, gm)
    requires 0 <= i < 32 && p in B && B[p] == 8 * i && 0 <= k < |bins[i]| && bins[i][k] == p
    requires 0 <= j < 32 && i != j && (sm'[j] <==> sm[j])
    requires m' == m || m' == LinkOut(m, Bk(m, p), Fd(m, p))
    requires Bk(m, p) == if k == 0 then Header(gm, i) else bins[i][k - 1]
    requires Fd(m, p) == if k + 1 == |bins[i]| then Header(gm, i) else bins[i][k + 1]
    ensures BinOk(m', sm', bins[i := Without(bins[i], k)], B - {p}, gm, j)
  {
    assert BinOk(m, sm, bins, B, gm, j) && BinOk(m, sm, bins, B, gm, i);
    var f, b := Fd(m, p), Bk(m, p);
    if k != 0 { HeaderApart(B, lo, hi, gm, j, b); }
    if k + 1 != |bins[i]| { HeaderApart(B, lo, hi, gm, j, f); }
    forall l | 0 <= l < |bins[j]|
      ensures LinksKept(m, m', bins[j][l]) && bins[j][l] in B - {p} && (B - {p})[bins[j][l]] == B[bins[j][l]]
    {
      var q := bins[j][l];
      HeaderApart(B, lo, hi, gm, i, q);
      if k != 0 { StockApart(B, lo, hi, gm, b, q); }
      if k + 1 != |bins[i]| { StockApart(B, lo, hi, gm, f, q); }
    }
    BinFrame(m, m', sm, sm', bins, bins[i := Without(bins[i], k)], B, B - {p}, gm, j);
  }

  lemma UnlinkTarget(m: Mem, sm: Word32, bins: seq<seq<int>>, B: Stock, gm: int, lo: int, hi: int, p: int, i: int, k: int)
    requires SmallOk(m, sm, bins, B, gm) && Placed(B, lo, hi, gm)
    requires 0 <= i < 32 && p in B && B[p] == 8 * i && 0 <= k < |bins[i]| && bins[i][k] == p && |bins[i]| > 1
    requires Bk(m, p) == if k == 0 then Header(gm, i) else bins[i][k - 1]
    requires Fd(m, p) == if k + 1 == |bins[i]| then Header(gm, i) else bins[i][k + 1]
    ensures BinOk(LinkOut(m, Bk(m, p), Fd(m, p)), sm, bins[i := Without(bins[i], k)], B - {p}, gm, i)
  {
    assert BinOk(m, sm, bins, B, gm, i);
    var r := [Header(gm, i)] + bins[i];
    var s := Without(bins[i], k);
    assert r[k + 1] == p;
    RingRemove(m, r, k + 1);
    assert r[..k + 1] + r[k + 2..] == [Header(gm, i)] + s;
    forall l | 0 <= l < |s| ensures s[l] in B - {p} && (B - {p})[s[l]] == 8 * i {
      var o := if l < k then l else l + 1;
      assert s[l] == bins[i][o] && r[o + 1] == bins[i][o];
      ApartAt(r, o + 1, k + 1);
    }
  }

  /** Unlinking p, with only the map bit cleared when the bin empties, removes exactly p from the stock. */
  lemma UnlinkSmall(m: Mem, sm: Word32, bins: seq<seq<int>>, B: Stock, gm: int, lo: int, hi: int, p: int, i: int, k: int)
    requires SmallOk(m, sm, bins, B, gm) && Placed(B, lo, hi, gm)
    requires 0 <= i < 32 && p in B && B[p] == 8 * i && 0 <= k < |bins[i]| && bins[i][k] == p
    requires Bk(m, p) == if k == 0 then Header(gm, i) else bins[i][k - 1]
    requires Fd(m, p) == if k + 1 == |bins[i]| then Header(gm, i) else bins[i][k + 1]
    ensures |bins[i]| == 1 ==> SmallOk(m, And(sm, Not(Bit(i))), bins[i := Without(bins[i], k)], B - {p}, gm)
    ensures |bins[i]| > 1 ==>
              SmallOk(LinkOut(m, Bk(m, p), Fd(m, p)), sm, bins[i := Without(bins[i], k)], B - {p}, gm)
  {
    var m' := if |bins[i]| == 1 then m else LinkOut(m, Bk(m, p), Fd(m, p));
    var sm' := if |bins[i]| == 1 then And(sm, Not(Bit(i))) else sm;
    var bins' := bins[i := Without(bins[i], k)];
    var B' := B - {p};
    forall j | 0 <= j < 32 ensures BinOk(m', sm', bins', B', gm, j) {
      if j != i {
        UnlinkOther(m, m', sm, sm', bins, B, gm, lo, hi, p, i, k, j);
      } else if |bins[i]| > 1 {
        UnlinkTarget(m, sm, bins, B, gm, lo, hi, p, i, k);
      }
    }
    forall q | q in B' ensures Binned(bins', B', q) {
      assert Binned(bins, B, q);
      if 0 <= B[q] < 256 && B[q] / 8 == i {
        var o :| 0 <= o < |bins[i]| && bins[i][o] == q;
        assert bins'[i][if o < k then o else o - 1] == q;
      }
    }
  }

  /** Small bins do not see changes confined to large chunks and the rest of the state. */
  lemma SmallFrame(m: Mem, m': Mem, sm: Word32, bins: seq<seq<int>>, B: Stock, B': Stock, gm: int)
    requires SmallOk(m, sm, bins, B, gm)
    requires forall y {:trigger y in B'} :: y in B' && B'[y] < 256 ==> y in B && B[y] == B'[y]
    requires forall y {:trigger B[y]} :: y in B && B[y] < 256 ==> y in B' && B'[y] == B[y] && LinksKept(m, m', y)
    requires forall i {:trigger Header(gm, i)} :: 0 <= i < 32 ==> LinksKept(m, m', Header(gm, i))
    ensures SmallOk(m', sm, bins, B', gm)
  {
    forall i | 0 <= i < 32 ensures BinOk(m', sm, bins, B', gm, i) {
      assert BinOk(m, sm, bins, B, gm, i);
      assert LinksKept(m, m', Header(gm, i));
      BinFrame(m, m', sm, sm, bins, bins, B, B', gm, i);
    }
    forall p | p in B' ensures Binned(bins, B', p) {
      if B'[p] < 256 { assert Binned(bins, B, p); }
    }
  }
}
