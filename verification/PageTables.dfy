/** Four-level page tables as a radix tree over frames, and the partial map from pages to frames they stand for. */
module PageTables {
  import SizeClass

  /** A frame read as a table: 512 entries of 64 bits. */
  type Table = s: seq<nat> | |s| == 512 witness seq(512, i => 0)

  function Blank(): Table { seq(512, i => 0) }

  // ---------------------------------------------------------------- bits of an entry

  /** Bitwise or. */
  function BitOr(a: nat, b: nat): nat {
    if a == 0 then b
    else if b == 0 then a
    else 2 * BitOr(a / 2, b / 2) + (if a % 2 == 1 || b % 2 == 1 then 1 else 0)
  }

  /** a >> k */
  function Shift(a: nat, k: nat): nat { if k == 0 then a else Shift(a / 2, k - 1) }

  /** The lowest k bits of a. */
  function Low(a: nat, k: nat): nat { if k == 0 then 0 else a % 2 + 2 * Low(a / 2, k - 1) }

  /** Bit b of w. */
  predicate BitAt(w: nat, b: nat) { Shift(w, b) % 2 == 1 }

  predicate Present(w: nat) { w % 2 == 1 }

  /** The bits the processor looks for when a page is written to, and when user code touches it. */
  const RW := 1
  const USER := 2

  /** The frame number in bits 12 to 51, which is what PTE_GET_ADDR keeps. */
  function FrameOf(w: nat): nat { Low(Shift(w, 12), 40) }

  /** How many frames an entry can name. */
  function Frames(): nat { SizeClass.Pow2(40) }

  lemma OrHalf(a: nat, b: nat)
    ensures BitOr(a, b) / 2 == BitOr(a / 2, b / 2) && (BitOr(a, b) % 2 == 1 <==> a % 2 == 1 || b % 2 == 1)
  {
  }

  lemma {:induction false} OrShift(a: nat, b: nat, k: nat)
    ensures Shift(BitOr(a, b), k) == BitOr(Shift(a, k), Shift(b, k))
  {
    if k > 0 {
      OrHalf(a, b);
      OrShift(a / 2, b / 2, k - 1);
    }
  }

  lemma LowParts(a: nat, k: nat)
    requires k > 0
    ensures Low(a, k) / 2 == Low(a / 2, k - 1) && Low(a, k) % 2 == a % 2
  {
  }

  lemma {:induction false} OrLow(a: nat, b: nat, k: nat)
    ensures Low(BitOr(a, b), k) == BitOr(Low(a, k), Low(b, k))
  {
    if k > 0 {
      OrHalf(a, b);
      OrLow(a / 2, b / 2, k - 1);
      LowParts(a, k);
      LowParts(b, k);
      OrHalf(Low(a, k), Low(b, k));
    }
  }

  /** An or of entries ors their frame numbers. */
  lemma FrameOr(a: nat, b: nat)
    ensures FrameOf(BitOr(a, b)) == BitOr(FrameOf(a), FrameOf(b))
  {
    OrShift(a, b, 12);
    OrLow(Shift(a, 12), Shift(b, 12), 40);
  }

  lemma {:induction false} LowIsAll(a: nat, k: nat)
    requires a < SizeClass.Pow2(k)
    ensures Low(a, k) == a
  {
    if k > 0 { LowIsAll(a / 2, k - 1); }
  }

  lemma {:induction false} LowBound(a: nat, k: nat)
    ensures Low(a, k) < SizeClass.Pow2(k)
  {
    if k > 0 { LowBound(a / 2, k - 1); }
  }

  lemma ShiftBack(f: nat)
    ensures Shift(4096 * f, 12) == f
  {
    assert Shift(4096 * f, 12) == Shift(512 * f, 9) by { assert Shift(4096 * f, 12) == Shift(2048 * f, 11) == Shift(1024 * f, 10); }
    assert Shift(512 * f, 9) == Shift(64 * f, 6) by { assert Shift(512 * f, 9) == Shift(256 * f, 8) == Shift(128 * f, 7); }
    assert Shift(64 * f, 6) == Shift(8 * f, 3) by { assert Shift(64 * f, 6) == Shift(32 * f, 5) == Shift(16 * f, 4); }
    assert Shift(8 * f, 3) == f by { assert Shift(8 * f, 3) == Shift(4 * f, 2) == Shift(2 * f, 1); }
  }

  lemma {:induction false} LowZero(k: nat)
    ensures Low(0, k) == 0
  {
    if k > 0 { LowZero(k - 1); }
  }

  lemma FlagsHaveNoFrame()
    ensures FrameOf(1) == 0 && FrameOf(2) == 0 && FrameOf(4) == 0
  {
    LowZero(40);
    assert Shift(0, 9) == 0 by { assert Shift(0, 3) == 0; assert Shift(0, 6) == 0; }
    assert Shift(1, 12) == Shift(0, 11) == Shift(0, 10) == Shift(0, 9);
    assert Shift(2, 12) == Shift(1, 11) == Shift(0, 10) == Shift(0, 9);
    assert Shift(4, 12) == Shift(2, 11) == Shift(1, 10) == Shift(0, 9);
  }

  lemma OrZero(a: nat)
    ensures BitOr(a, 0) == a && BitOr(0, a) == a
  {
  }

  /** phys | PF_PRESENT | PF_RW | PF_USER for a table at frame f. */
  function TableEntry(f: nat): nat { BitOr(BitOr(BitOr(4096 * f, 1), 2), 4) }

  lemma TableEntryReads(f: nat)
    requires f < Frames()
    ensures Present(TableEntry(f)) && FrameOf(TableEntry(f)) == f
  {
    FlagsHaveNoFrame();
    ShiftBack(f);
    LowIsAll(f, 40);
    FrameOr(4096 * f, 1);
    FrameOr(BitOr(4096 * f, 1), 2);
    FrameOr(BitOr(BitOr(4096 * f, 1), 2), 4);
    OrZero(f);
    OrHalf(4096 * f, 1);
    OrHalf(BitOr(4096 * f, 1), 2);
    OrHalf(BitOr(BitOr(4096 * f, 1), 2), 4);
  }

  lemma OrBit(a: nat, b: nat, k: nat)
    ensures BitAt(BitOr(a, b), k) <==> BitAt(a, k) || BitAt(b, k)
  {
    OrShift(a, b, k);
    OrHalf(Shift(a, k), Shift(b, k));
  }

  lemma {:induction false} ShiftMore(a: nat, j: nat, k: nat)
    ensures Shift(a, j + k) == Shift(Shift(a, j), k)
  {
    if j > 0 { ShiftMore(a / 2, j - 1, k); }
  }

  lemma {:induction false} ShiftOut(a: nat, k: nat)
    requires a < SizeClass.Pow2(k)
    ensures Shift(a, k) == 0
  {
    if k > 0 { ShiftOut(a / 2, k - 1); }
  }

  lemma {:induction false} ShiftZero(k: nat)
    ensures Shift(0, k) == 0
  {
    if k > 0 { ShiftZero(k - 1); }
  }

  /** A frame's address has none of the bits below 12 and none from 52 on. */
  lemma AddressBits(f: nat, k: nat)
    requires f < Frames() && (k < 12 || 52 <= k)
    ensures !BitAt(4096 * f, k)
  {
    if k < 12 {
      Pow11();
      LowBits(2048 * f, 11, f, k);
    } else {
      ShiftBack(f);
      ShiftMore(4096 * f, 12, k - 12);
      ShiftOut(f, 40);
      ShiftMore(f, 40, k - 52);
      ShiftZero(k - 52);
    }
  }

  lemma {:induction false} LowBits(h: nat, n: nat, q: nat, k: nat)
    requires k <= n && h == SizeClass.Pow2(n) * q
    ensures !BitAt(2 * h, k)
  {
    if k > 0 {
      assert h == 2 * (SizeClass.Pow2(n - 1) * q);
      LowBits(h / 2, n - 1, q, k - 1);
      assert Shift(2 * h, k) == Shift(h, k - 1);
    }
  }

  lemma Pow11()
    ensures SizeClass.Pow2(11) == 2048
  {
    assert SizeClass.Pow2(5) == 32;
    assert SizeClass.Pow2(8) == 256;
  }

  lemma SmallBits(k: nat)
    ensures (BitAt(1, k) <==> k == 0) && (BitAt(2, k) <==> k == 1) && (BitAt(4, k) <==> k == 2)
  {
    if k >= 3 {
      ShiftMore(1, 3, k - 3);
      ShiftMore(2, 3, k - 3);
      ShiftMore(4, 3, k - 3);
      ShiftZero(k - 3);
      assert Shift(1, 3) == 0 && Shift(2, 3) == Shift(1, 2) == 0 && Shift(4, 3) == Shift(2, 2) == Shift(1, 1) == 0;
    }
  }

  /** An entry for a table lets everything through, so that the leaf decides. */
  lemma TableEntryOpen(f: nat)
    requires f < Frames()
    ensures BitAt(TableEntry(f), RW) && BitAt(TableEntry(f), USER)
  {
    hide BitAt, BitOr;
    OrBit(BitOr(4096 * f, 1), 2, RW);
    OrBit(BitOr(BitOr(4096 * f, 1), 2), 4, RW);
    OrBit(BitOr(BitOr(4096 * f, 1), 2), 4, USER);
    SmallBits(RW);
    SmallBits(USER);
  }

  /** (phys & 0x000FFFFFFFFFF000) | PF_PRESENT | flags */
  function LeafEntry(phys: nat, flags: nat): nat { BitOr(BitOr(4096 * FrameOf(phys), 1), flags) }

  /** The frame a leaf names is the frame of phys or'ed with whatever the flags put in the address bits. */
  lemma LeafEntryReads(phys: nat, flags: nat)
    ensures Present(LeafEntry(phys, flags)) && FrameOf(LeafEntry(phys, flags)) == BitOr(FrameOf(phys), FrameOf(flags))
  {
    var f := FrameOf(phys);
    FlagsHaveNoFrame();
    LowBound(Shift(phys, 12), 40);
    ShiftBack(f);
    LowIsAll(f, 40);
    FrameOr(4096 * f, 1);
    FrameOr(BitOr(4096 * f, 1), flags);
    OrZero(f);
    OrHalf(4096 * f, 1);
    OrHalf(BitOr(4096 * f, 1), flags);
  }

  /** Outside the present bit and the address field a leaf entry has exactly the bits of the flags. */
  lemma LeafEntryBits(phys: nat, flags: nat, k: nat)
    requires 1 <= k < 12 || 52 <= k
    ensures BitAt(LeafEntry(phys, flags), k) <==> BitAt(flags, k)
  {
    hide BitAt, BitOr, FrameOf;
    var f := FrameOf(phys);
    assert f < Frames() by { FrameBound(phys); }
    OrBit(4096 * f, 1, k);
    OrBit(BitOr(4096 * f, 1), flags, k);
    AddressBits(f, k);
    SmallBits(k);
  }

  lemma FrameBound(w: nat)
    ensures FrameOf(w) < Frames()
  {
    LowBound(Shift(w, 12), 40);
  }

  /** Every bit of b is set in a. */
  predicate Covers(a: nat, b: nat) {
    b == 0 || ((b % 2 == 1 ==> a % 2 == 1) && Covers(a / 2, b / 2))
  }

  /** Flags leave a leaf's frame alone exactly when they set no address bit that phys does not have. */
  lemma FlagsExact(phys: nat, flags: nat)
    ensures FrameOf(LeafEntry(phys, flags)) == FrameOf(phys) <==> Covers(FrameOf(phys), FrameOf(flags))
  {
    hide FrameOf, LeafEntry, Covers;
    LeafEntryReads(phys, flags);
    OrKeeps(FrameOf(phys), FrameOf(flags));
  }

  lemma {:induction false} OrKeeps(f: nat, g: nat)
    ensures BitOr(f, g) == f <==> Covers(f, g)
  {
    if g > 0 {
      OrHalf(f, g);
      OrKeeps(f / 2, g / 2);
      assert BitOr(f, g) == 2 * (BitOr(f, g) / 2) + BitOr(f, g) % 2;
      assert f == 2 * (f / 2) + f % 2;
    }
  }

  /** Flags with bit 13 set move a page meant for frame 1 to frame 3. */
  lemma FlagsCanMoveFrame()
    ensures FrameOf(LeafEntry(4096, 8192)) == 3 && FrameOf(4096) == 1
  {
    LeafEntryReads(4096, 8192);
    ShiftBack(1);
    ShiftBack(2);
    assert Low(1, 40) == 1 by { Pow40(); LowIsAll(1, 40); }
    assert Low(2, 40) == 2 by { Pow40(); LowIsAll(2, 40); }
    assert BitOr(1, 2) == 3;
  }

  lemma Pow40()
    ensures SizeClass.Pow2(40) > 2
  {
    assert SizeClass.Pow2(40) == 2 * SizeClass.Pow2(39) && SizeClass.Pow2(39) == 2 * SizeClass.Pow2(38);
  }
}
