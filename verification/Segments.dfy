/** The list of segments: the newest in malloc_state, each older one in a record chunk at its own end. */
module Segments {
  import opened Memory
  import opened Tiles
  import opened Tags

  /** The next pointer stored with segment i. */
  ghost function NextOf(segs: seq<int>, i: nat): int { if i < |segs| then segs[i] + 16 else 0 }

  /** Segment i + 1 is described by the record chunk segs[i], which lies inside it: base, size, next. */
  ghost predicate Recorded(m: Mem, C: Tiling, A: Arena, segs: seq<int>, bases: seq<int>, sizes: seq<int>, i: int)
    requires 0 <= i < |segs| && |bases| == |sizes| == |segs| + 1
  {
    var r := segs[i];
    && r in A.records && r in C && C[r].cinuse && C[r].size == 48 && r > 0
    && bases[i + 1] <= r && (bases[i + 1] + sizes[i + 1] == r + 80 || bases[i + 1] + sizes[i + 1] == r + 96)
    && Rd(m, r + 16) == bases[i + 1] && Rd(m, r + 24) == sizes[i + 1] && Rd(m, r + 32) == NextOf(segs, i + 1)
  }

  ghost predicate SegmentOk(A: Arena, bases: seq<int>, sizes: seq<int>, i: int)
    requires 0 <= i < |bases| == |sizes|
  {
    bases[i] in A.heads && sizes[i] > 0 && Owned(A, bases[i], bases[i] + sizes[i])
  }

  ghost predicate Separate(bases: seq<int>, sizes: seq<int>, i: int, j: int)
    requires 0 <= i < |bases| == |sizes| && 0 <= j < |bases|
  {
    i != j ==> bases[i] + sizes[i] <= bases[j] || bases[j] + sizes[j] <= bases[i]
  }

  ghost predicate SegList(m: Mem, C: Tiling, A: Arena, segs: seq<int>, bases: seq<int>, sizes: seq<int>) {
    && |bases| == |sizes| == |segs| + 1
    && (forall i {:trigger Recorded(m, C, A, segs, bases, sizes, i)} :: 0 <= i < |segs| ==> Recorded(m, C, A, segs, bases, sizes, i))
    && (forall i {:trigger SegmentOk(A, bases, sizes, i)} :: 0 <= i < |bases| ==> SegmentOk(A, bases, sizes, i))
    && (forall i, j {:trigger Separate(bases, sizes, i, j)} :: 0 <= i < |bases| && 0 <= j < |bases| ==> Separate(bases, sizes, i, j))
    && (forall i, j {:trigger segs[i], segs[j]} :: 0 <= i < j < |segs| ==> segs[i] != segs[j])
    && A.records == (set r | r in segs) && A.heads == (set b | b in bases)
  }

  /** The list survives whatever leaves the record chunks in use and their payloads alone. */
  lemma SegsKept(m: Mem, m': Mem, C: Tiling, C': Tiling, A: Arena, A': Arena, segs: seq<int>, bases: seq<int>, sizes: seq<int>)
    requires SegList(m, C, A, segs, bases, sizes) && Undisturbed(m, m', Live(C))
    requires A'.heads == A.heads && A'.records == A.records && A'.granted == A.granted
    requires forall r {:trigger r in A.records} :: r in A.records && r in Live(C) ==> r in Live(C') && Live(C')[r] == Live(C)[r]
    ensures SegList(m', C', A', segs, bases, sizes)
  {
    forall i | 0 <= i < |segs| ensures Recorded(m', C', A', segs, bases, sizes, i) {
      assert Recorded(m, C, A, segs, bases, sizes, i);
      var r := segs[i];
      assert r in Live(C');
      assert PayloadKept(m, m', r, Live(C)[r]);
    }
    forall i | 0 <= i < |bases| ensures SegmentOk(A', bases, sizes, i) {
      assert SegmentOk(A, bases, sizes, i);
      assert Owned(A', bases[i], bases[i] + sizes[i]);
    }
  }

  /** Growing or extending segment k: its interval gains a grant, and its head may move. */
  lemma SegsExtended(m: Mem, m': Mem, C: Tiling, C': Tiling, A: Arena, A': Arena, segs: seq<int>, bases: seq<int>, sizes: seq<int>,
                     k: int, br: int, n: int)
    requires SegList(m, C, A, segs, bases, sizes) && 0 <= k < |bases| && NewGrant(A, br, n)
    requires (k == 0 && br == bases[k] + sizes[k]) || br + n == bases[k]
    requires var b := if br + n == bases[k] then br else bases[k];
             A'.heads == A.heads - {bases[k]} + {b} && A'.records == A.records && A'.granted == A.granted + Bytes(br, n)
    requires forall r {:trigger r in A.records} :: r in A.records && r in C && C[r].cinuse ==> r in C' && C'[r].cinuse && C'[r].size == C[r].size
    requires var b := if br + n == bases[k] then br else bases[k];
             forall i {:trigger segs[i]} :: 0 <= i < |segs| ==>
               && Rd(m', segs[i] + 32) == Rd(m, segs[i] + 32)
               && Rd(m', segs[i] + 16) == (if i + 1 == k then b else Rd(m, segs[i] + 16))
               && Rd(m', segs[i] + 24) == (if i + 1 == k then sizes[k] + n else Rd(m, segs[i] + 24))
    ensures var b := if br + n == bases[k] then br else bases[k]; SegList(m', C', A', segs, bases[k := b], sizes[k := sizes[k] + n])
  {
    var b := if br + n == bases[k] then br else bases[k];
    var bases', sizes' := bases[k := b], sizes[k := sizes[k] + n];
    BasesDiffer(A, bases, sizes, k);
    UpdatedSet(bases, k, b);
    assert A'.heads == (set x | x in bases');
    forall i | 0 <= i < |segs| ensures Recorded(m', C', A', segs, bases', sizes', i) { assert Recorded(m, C, A, segs, bases, sizes, i); }
    forall i | 0 <= i < |bases| ensures SegmentOk(A', bases', sizes', i) {
      assert SegmentOk(A, bases, sizes, i) && bases'[i] in bases';
    }
    forall i, j | 0 <= i < |bases| && 0 <= j < |bases| ensures Separate(bases', sizes', i, j) {
      assert Separate(bases, sizes, i, j);
      assert SegmentOk(A, bases, sizes, i) && SegmentOk(A, bases, sizes, j);
      if i == k { GrantApart(A, bases, sizes, br, n, j); }
      if j == k { GrantApart(A, bases, sizes, br, n, i); }
    }
  }

  lemma GrantApart(A: Arena, bases: seq<int>, sizes: seq<int>, br: int, n: int, i: int)
    requires 0 <= i < |bases| == |sizes| && SegmentOk(A, bases, sizes, i) && NewGrant(A, br, n)
    ensures bases[i] + sizes[i] <= br || br + n <= bases[i]
  {
    var b, e := bases[i], bases[i] + sizes[i];
    assert b <= br < e ==> br in A.granted;
    if br <= b < br + n { assert b in A.granted; }
  }

  lemma BasesDiffer(A: Arena, bases: seq<int>, sizes: seq<int>, k: int)
    requires 0 <= k < |bases| == |sizes|
    requires forall i {:trigger SegmentOk(A, bases, sizes, i)} :: 0 <= i < |bases| ==> SegmentOk(A, bases, sizes, i)
    requires forall i, j {:trigger Separate(bases, sizes, i, j)} :: 0 <= i < |bases| && 0 <= j < |bases| ==> Separate(bases, sizes, i, j)
    ensures forall i {:trigger bases[i]} :: 0 <= i < |bases| && i != k ==> bases[i] != bases[k]
  {
    forall i | 0 <= i < |bases| && i != k ensures bases[i] != bases[k] {
      assert Separate(bases, sizes, i, k) && SegmentOk(A, bases, sizes, i) && SegmentOk(A, bases, sizes, k);
    }
  }

  lemma UpdatedSet(s: seq<int>, k: int, b: int)
    requires 0 <= k < |s| && forall i {:trigger s[i]} :: 0 <= i < |s| && i != k ==> s[i] != s[k]
    ensures forall x :: x in s[k := b] <==> x == b || (x in s && x != s[k])
  {
    forall x ensures x in s[k := b] <==> x == b || (x in s && x != s[k]) {
      assert s[k := b][k] == b;
      if x in s && x != s[k] {
        var i :| 0 <= i < |s| && s[i] == x;
        assert s[k := b][i] == x;
      }
    }
  }

  /** A new segment pushed in front, the old newest one moving to record csp. */
  lemma SegsPushed(m: Mem, m': Mem, C: Tiling, C': Tiling, A: Arena, A': Arena, segs: seq<int>, bases: seq<int>, sizes: seq<int>,
                   csp: int, br: int, n: int)
    requires SegList(m, C, A, segs, bases, sizes) && Undisturbed(m, m', Live(C)) && NewGrant(A, br, n) && csp !in C && csp > 0
    requires A'.heads == A.heads + {br} && A'.records == A.records + {csp} && A'.granted == A.granted + Bytes(br, n)
    requires csp in C' && C'[csp].cinuse && C'[csp].size == 48 && bases[0] <= csp && (bases[0] + sizes[0] == csp + 80 || bases[0] + sizes[0] == csp + 96)
    requires forall r {:trigger r in A.records} :: r in A.records && r in C && C[r].cinuse ==> r in C' && C'[r].cinuse && C'[r].size == C[r].size
    requires Rd(m', csp + 16) == bases[0] && Rd(m', csp + 24) == sizes[0] && Rd(m', csp + 32) == NextOf(segs, 0)
    ensures SegList(m', C', A', [csp] + segs, [br] + bases, [n] + sizes)
  {
    hide Undisturbed;
    var segs', bases', sizes' := [csp] + segs, [br] + bases, [n] + sizes;
    forall i | 0 <= i < |segs'| ensures Recorded(m', C', A', segs', bases', sizes', i) {
      if i > 0 {
        assert Recorded(m, C, A, segs, bases, sizes, i - 1);
        RecordKept(m, m', C, segs[i - 1]);
        assert NextOf(segs', i + 1) == NextOf(segs, i);
      } else {
        assert NextOf(segs', 1) == NextOf(segs, 0);
      }
    }
    forall i | 0 <= i < |bases'| ensures SegmentOk(A', bases', sizes', i) {
      if i > 0 { assert SegmentOk(A, bases, sizes, i - 1); assert Owned(A', bases'[i], bases'[i] + sizes'[i]); }
    }
    forall i, j | 0 <= i < |bases'| && 0 <= j < |bases'| ensures Separate(bases', sizes', i, j) {
      if i > 0 && j > 0 { assert Separate(bases, sizes, i - 1, j - 1); }
      else if i > 0 { assert SegmentOk(A, bases, sizes, i - 1); GrantApart(A, bases, sizes, br, n, i - 1); }
      else if j > 0 { assert SegmentOk(A, bases, sizes, j - 1); GrantApart(A, bases, sizes, br, n, j - 1); }
    }
    forall i, j | 0 <= i < j < |segs'| ensures segs'[i] != segs'[j] {
      assert Recorded(m, C, A, segs, bases, sizes, j - 1);
      if i > 0 { assert segs[i - 1] != segs[j - 1]; }
    }
  }

  lemma RecordKept(m: Mem, m': Mem, C: Tiling, r: int)
    requires Undisturbed(m, m', Live(C)) && r in C && C[r].cinuse && C[r].size == 48
    ensures Rd(m', r + 16) == Rd(m, r + 16) && Rd(m', r + 24) == Rd(m, r + 24) && Rd(m', r + 32) == Rd(m, r + 32)
  {
    assert r in Live(C);
    assert PayloadKept(m, m', r, Live(C)[r]);
  }

  lemma SegsGrown(m: Mem, m': Mem, C: Tiling, A: Arena, A': Arena, segs: seq<int>, bases: seq<int>, sizes: seq<int>, br: int, n: int)
    requires SegList(m, C, A, segs, bases, sizes) && NewGrant(A, br, n) && br == bases[0] + sizes[0] && Undisturbed(m, m', Live(C))
    requires A'.heads == A.heads && A'.records == A.records && A'.granted == A.granted + Bytes(br, n)
    ensures SegList(m', C, A', segs, bases, sizes[0 := sizes[0] + n])
  {
    hide Undisturbed;
    assert SegmentOk(A, bases, sizes, 0);
    forall i | 0 <= i < |segs| ensures Rd(m', segs[i] + 32) == Rd(m, segs[i] + 32) && Rd(m', segs[i] + 16) == Rd(m, segs[i] + 16)
                                       && Rd(m', segs[i] + 24) == Rd(m, segs[i] + 24) {
      assert Recorded(m, C, A, segs, bases, sizes, i);
      RecordKept(m, m', C, segs[i]);
    }
    assert A'.heads == A.heads - {bases[0]} + {bases[0]};
    SegsExtended(m, m', C, C, A, A', segs, bases, sizes, 0, br, n);
    assert bases[0 := bases[0]] == bases;
  }

  lemma FieldsKept(m: Mem, m': Mem, L: map<int, int>, r: int)
    requires Undisturbed(m, m', L) && r in L && L[r] == 48
    ensures Rd(m', r + 16) == Rd(m, r + 16) && Rd(m', r + 24) == Rd(m, r + 24) && Rd(m', r + 32) == Rd(m, r + 32)
  {
    assert PayloadKept(m, m', r, L[r]);
  }

  /** Record k - 1 rewritten for a segment extended downward, then a step that leaves live payloads alone. */
  lemma SegsPrepended(m: Mem, m1: Mem, m': Mem, C: Tiling, C': Tiling, A: Arena, A': Arena, segs: seq<int>, bases: seq<int>, sizes: seq<int>,
                      k: int, br: int, n: int)
    requires SegList(m, C, A, segs, bases, sizes) && 0 <= k < |bases| && NewGrant(A, br, n) && br + n == bases[k]
    requires A'.heads == A.heads - {br + n} + {br} && A'.records == A.records && A'.granted == A.granted + Bytes(br, n)
    requires br !in C && br in Live(C') && Live(C') == Live(C)[br := Live(C')[br]] && Undisturbed(m1, m', Live(C))
    requires if k == 0 then m1 == m
             else && Undisturbed(m, m1, Live(C) - {segs[k - 1]})
                  && Rd(m1, segs[k - 1] + 16) == br && Rd(m1, segs[k - 1] + 24) == sizes[k] + n && Rd(m1, segs[k - 1] + 32) == Rd(m, segs[k - 1] + 32)
    ensures SegList(m', C', A', segs, bases[k := br], sizes[k := sizes[k] + n])
  {
    hide Undisturbed;
    forall i | 0 <= i < |segs|
      ensures && Rd(m', segs[i] + 32) == Rd(m, segs[i] + 32)
              && Rd(m', segs[i] + 16) == (if i + 1 == k then br else Rd(m, segs[i] + 16))
              && Rd(m', segs[i] + 24) == (if i + 1 == k then sizes[k] + n else Rd(m, segs[i] + 24))
    {
      assert Recorded(m, C, A, segs, bases, sizes, i);
      FieldsKept(m1, m', Live(C), segs[i]);
      if k > 0 && i + 1 != k {
        assert segs[i] != segs[k - 1] by { if i < k - 1 { } else { assert segs[k - 1] != segs[i]; } }
        FieldsKept(m, m1, Live(C) - {segs[k - 1]}, segs[i]);
      }
    }
    forall r | r in A.records && r in C && C[r].cinuse ensures r in C' && C'[r].cinuse && C'[r].size == C[r].size {
      assert r in Live(C');
    }
    SegsExtended(m, m', C, C', A, A', segs, bases, sizes, k, br, n);
  }
}
