/** elf_process_load and the PT_LOAD loop: an address space filled from an image. */
module ElfLoad {
  import opened Octets
  import opened PageTables
  import opened Paging

  const PT_LOAD := 1
  const USER_PAGES := 0x8_0000_0000
  /** PF_USER | PF_RW */
  const USER_RW := 6

  datatype Phdr = Phdr(ptype: nat, offset: nat, vaddr: nat, filesz: nat, memsz: nat)

  /** A mapped user page owns a frame that is neither free nor a table. */
  ghost predicate PageOk(m: Frames, T: Tree, free: set<nat>, x: nat) {
    match Lookup(m, T, x)
    case None => true
    case Some(f) => 0 < f < PageTables.Frames() && f !in free && forall k {:trigger T[k]} :: k in T ==> T[k] != f
  }

  /** Two user pages never share a frame. */
  ghost predicate OwnPage(m: Frames, T: Tree, x: nat, y: nat) {
    Lookup(m, T, x).Some? && Lookup(m, T, x) == Lookup(m, T, y) ==> x == y
  }

  ghost predicate Private(m: Frames, T: Tree, free: set<nat>) {
    && (forall x: nat {:trigger PageOk(m, T, free, x)} :: x < USER_PAGES ==> PageOk(m, T, free, x))
    && (forall x: nat, y: nat {:trigger OwnPage(m, T, x, y)} :: x < USER_PAGES && y < USER_PAGES ==> OwnPage(m, T, x, y))
  }

  /** A page mapped before keeps its frame and its access bits; one mapped since is open to user code, for writing too. */
  ghost predicate Keeps(m: Frames, T: Tree, m': Frames, T': Tree, x: nat) {
    if Lookup(m, T, x).Some? then
      Lookup(m', T', x) == Lookup(m, T, x) && Access(m', T', x, RW) == Access(m, T, x, RW) && Access(m', T', x, USER) == Access(m, T, x, USER)
    else
      Lookup(m', T', x).Some? ==> Access(m', T', x, RW) && Access(m', T', x, USER)
  }

  /** The same as the processor sees it. */
  ghost predicate Opened(m: Frames, m': Frames, root: nat, x: nat) {
    if |WalkEntries(m, root, x)| == 4 then
      && |WalkEntries(m', root, x)| == 4
      && (Grants(m', root, x, RW) <==> Grants(m, root, x, RW)) && (Grants(m', root, x, USER) <==> Grants(m, root, x, USER))
    else
      |WalkEntries(m', root, x)| == 4 ==> Grants(m', root, x, RW) && Grants(m', root, x, USER)
  }

  lemma KeepsOpens(m: Frames, T: Tree, m': Frames, T': Tree, root: nat, x: nat)
    requires TreeOk(m, T, root) && TreeOk(m', T', root) && KeepsAll(m, T, m', T')
    ensures Opened(m, m', root, x)
  {
    hide TreeOk, Lookup, Access, Grants, WalkEntries;
    assert Keeps(m, T, m', T', x);
    WalkReaches(m, T, root, x, RW);
    WalkReaches(m, T, root, x, USER);
    WalkReaches(m', T', root, x, RW);
    WalkReaches(m', T', root, x, USER);
  }

  ghost predicate KeepsAll(m: Frames, T: Tree, m': Frames, T': Tree) {
    forall x: nat {:trigger Keeps(m, T, m', T', x)} :: Keeps(m, T, m', T', x)
  }

  /** Physical bytes of data frames; a byte never written reads as 0. */
  type Bytes = map<nat, nat>

  function ByteAt(d: Bytes, a: nat): nat { if a in d then d[a] else 0 }

  /** What the program sees at virtual address va. */
  ghost function Seen(m: Frames, T: Tree, d: Bytes, va: nat): Option<nat> {
    match Lookup(m, T, PageOf(va))
    case None => None
    case Some(f) => Some(ByteAt(d, 4096 * f + va % 4096))
  }

  lemma FrameApart(f: nat, g: nat, o: nat, q: nat)
    requires o < 4096 && q < 4096 && 4096 * f + o == 4096 * g + q
    ensures f == g && o == q
  {
  }

  lemma UserPage(va: nat)
    requires va < 0x8000_0000_0000
    ensures PageOf(va) == va / 4096 < USER_PAGES
  {
  }

  lemma UserRwHasNoFrame()
    ensures FrameOf(USER_RW) == 0
  {
    LowZero(40);
    assert Shift(0, 9) == 0 by { assert Shift(0, 3) == 0; assert Shift(0, 6) == 0; }
    assert Shift(6, 12) == Shift(3, 11) == Shift(1, 10) == Shift(0, 9);
  }

  lemma FrameOfAddress(f: nat)
    requires f < PageTables.Frames()
    ensures BitOr(FrameOf(4096 * f), FrameOf(USER_RW)) == f
  {
    UserRwHasNoFrame();
    ShiftBack(f);
    LowIsAll(f, 40);
    OrZero(f);
  }

  /** A fresh frame mapped at an unmapped page keeps frames private. */
  lemma MapFresh(m: Frames, T: Tree, free: set<nat>, m': Frames, T': Tree, free': set<nat>, at: nat, f: nat)
    requires Private(m, T, free) && f in free && 0 < f < PageTables.Frames() && Lookup(m, T, at) == None && at < USER_PAGES
    requires forall k {:trigger T[k]} :: k in T ==> T[k] != f
    requires free' <= free - {f} && Extends(T, T', free - {f})
    requires forall x: nat {:trigger Remapped(m, T, m', T', at, 4096 * f, USER_RW, x)} :: Remapped(m, T, m', T', at, 4096 * f, USER_RW, x)
    ensures Private(m', T', free') && KeepsAll(m, T, m', T') && Lookup(m', T', at) == Some(f)
    ensures forall x: nat {:trigger Lookup(m', T', x)} :: x != at ==> Lookup(m', T', x) == Lookup(m, T, x)
  {
    hide FrameOf, BitOr, Lookup, Access, BitAt;
    FrameOfAddress(f);
    UserRwBits();
    forall x: nat ensures Lookup(m', T', x) == (if x == at then Some(f) else Lookup(m, T, x)) && Keeps(m, T, m', T', x) {
      assert Remapped(m, T, m', T', at, 4096 * f, USER_RW, x);
    }
    forall x: nat | x < USER_PAGES ensures PageOk(m', T', free', x) { assert PageOk(m, T, free, x); }
    forall x: nat, y: nat | x < USER_PAGES && y < USER_PAGES ensures OwnPage(m', T', x, y) {
      assert OwnPage(m, T, x, y) && PageOk(m, T, free, x) && PageOk(m, T, free, y);
    }
  }

  lemma UserRwBits()
    ensures BitAt(USER_RW, RW) && BitAt(USER_RW, USER)
  {
    assert Shift(6, 1) == 3 && Shift(6, 2) == Shift(3, 1) == 1;
  }

  class Loader {
    const space: AddressSpace
    var data: Bytes

    ghost predicate Valid()
      reads this, space
    {
      space.Valid() && Private(space.mem, space.tree, space.free)
    }

    ghost function At(x: nat): Option<nat>
      reads this, space
    {
      Lookup(space.mem, space.tree, x)
    }

    constructor (space: AddressSpace)
      requires space.Valid() && Private(space.mem, space.tree, space.free)
      ensures Valid() && this.space == space
    {
      this.space, data := space, map[];
    }

    /** One turn of the mapping loop: a page already mapped is left alone, any other gets a frame of its own. */
    method EnsurePage(va: nat) returns (ok: bool)
      requires Valid() && va < 0x8000_0000_0000 && va % 4096 == 0
      modifies space`mem, space`free, space`tree
      ensures Valid() && KeepsAll(old(space.mem), old(space.tree), space.mem, space.tree)
      ensures ok ==> At(va / 4096).Some? && |space.free| + 4 >= |old(space.free)|
      ensures !ok ==> |old(space.free)| < 4
    {
      hide FrameOf, BitOr, Lookup, TreeOk, Private, Extends, KeepsAll;
      UserPage(va);
      ghost var m0, T0, F0 := space.mem, space.tree, space.free;
      assert PageOk(m0, T0, F0, va / 4096) by { PrivatePage(m0, T0, F0, va / 4096); }
      KeepsSelf(m0, T0);
      var phys := space.VirtualToPhysicalL(va);
      if phys != 0 { return true; }
      var f := space.PhysicalAllocate();
      if f == 0 { return false; }
      ok := space.VirtualMapL(va, 4096 * f, USER_RW);
      if ok {
        MapFresh(m0, T0, F0, space.mem, space.tree, space.free, va / 4096, f);
      } else {
        MapNone(m0, T0, F0, space.mem, space.tree, space.free, f);
      }
    }

    /** The mapping loop: every page of the range ends up mapped. */
    method MapRange(start: nat, pages: nat) returns (ok: bool)
      requires Valid() && start % 4096 == 0 && start + 4096 * pages <= 0x8000_0000_0000
      modifies space`mem, space`free, space`tree
      ensures Valid() && KeepsAll(old(space.mem), old(space.tree), space.mem, space.tree)
      ensures ok ==> forall i: nat {:trigger MappedAt(space.mem, space.tree, start / 4096, i)} :: i < pages ==> MappedAt(space.mem, space.tree, start / 4096, i)
      ensures if ok then |space.free| + 4 * pages >= |old(space.free)| else |old(space.free)| < 4 * pages
    {
      hide Lookup, KeepsAll, Private, TreeOk;
      ghost var m0, T0, b := space.mem, space.tree, start / 4096;
      KeepsSelf(m0, T0);
      var i := 0;
      while i < pages
        invariant 0 <= i <= pages && Valid() && KeepsAll(m0, T0, space.mem, space.tree) && |space.free| + 4 * i >= |old(space.free)|
        invariant forall j: nat {:trigger MappedAt(space.mem, space.tree, b, j)} :: j < i ==> MappedAt(space.mem, space.tree, b, j)
      {
        ghost var m1, T1 := space.mem, space.tree;
        PageStep(start, i);
        ok := EnsurePage(start + 4096 * i);
        KeepsTwice(m0, T0, m1, T1, space.mem, space.tree);
        if !ok { return; }
        forall j: nat | j < i + 1 ensures MappedAt(space.mem, space.tree, b, j) {
          if j < i {
            assert MappedAt(m1, T1, b, j);
            KeepsIs(m1, T1, space.mem, space.tree, b + j);
          }
        }
        i := i + 1;
      }
      ok := true;
    }

    /** A byte store through the page tables. */
    method PutByte(va: nat, v: nat)
      requires Valid() && va < 0x8000_0000_0000 && At(PageOf(va)).Some?
      modifies this`data
      ensures forall a: nat {:trigger Stored(space.mem, space.tree, old(data), data, va, v, a)} ::
                a < 0x8000_0000_0000 ==> Stored(space.mem, space.tree, old(data), data, va, v, a)
    {
      hide TreeOk;
      ghost var d0 := data;
      var phys := space.VirtualToPhysicalL(va);
      data := data[phys := v];
      forall a: nat | a < 0x8000_0000_0000 ensures Stored(space.mem, space.tree, d0, data, va, v, a) {
        StoreHits(space.mem, space.tree, space.free, d0, va, v, a);
      }
    }

    /** copy_nonoverlapping of n image bytes, then write_bytes of zeros up to m bytes. */
    method Fill(at: nat, image: seq<nat>, offset: nat, n: nat, m: nat)
      requires Valid() && n <= m && at + m <= 0x8000_0000_0000 && offset + n <= |image|
      requires forall k: nat {:trigger MappedByte(space.mem, space.tree, at, k)} :: k < m ==> MappedByte(space.mem, space.tree, at, k)
      modifies this`data
      ensures forall k: nat {:trigger FilledAt(space.mem, space.tree, data, at, image, offset, n, k)} ::
                k < m ==> FilledAt(space.mem, space.tree, data, at, image, offset, n, k)
      ensures forall a: nat {:trigger Same(space.mem, space.tree, old(data), data, a)} ::
                a < 0x8000_0000_0000 && !(at <= a < at + m) ==> Same(space.mem, space.tree, old(data), data, a)
    {
      hide TreeOk, Private, Seen;
      ghost var d0, T, M := data, space.tree, space.mem;
      var k := 0;
      while k < m
        invariant 0 <= k <= m && Valid()
        invariant forall j: nat {:trigger FilledAt(M, T, data, at, image, offset, n, j)} :: j < k ==> FilledAt(M, T, data, at, image, offset, n, j)
        invariant forall a: nat {:trigger Same(M, T, d0, data, a)} :: a < 0x8000_0000_0000 && !(at <= a < at + k) ==> Same(M, T, d0, data, a)
      {
        ghost var d1 := data;
        assert MappedByte(M, T, at, k);
        PutByte(at + k, if k < n then image[offset + k] else 0);
        forall j: nat | j < k + 1 ensures FilledAt(M, T, data, at, image, offset, n, j) {
          if j < k { assert FilledAt(M, T, d1, at, image, offset, n, j); }
          assert Stored(M, T, d1, data, at + k, if k < n then image[offset + k] else 0, at + j);
        }
        forall a: nat | a < 0x8000_0000_0000 && !(at <= a < at + k + 1) ensures Same(M, T, d0, data, a) {
          assert Same(M, T, d0, d1, a);
          assert Stored(M, T, d1, data, at + k, if k < n then image[offset + k] else 0, a);
        }
        k := k + 1;
      }
    }

    /** elf_process_load. The segment's bytes are the file's, then zeros; no other byte and no existing mapping changes. */
    method ProcessLoad(ph: Phdr, image: seq<nat>, base: nat) returns (ok: bool)
      requires Valid() && base % 4096 == 0 && Loadable(ph, |image|, base)
      modifies this`data, space`mem, space`free, space`tree
      ensures Valid() && KeepsAll(old(space.mem), old(space.tree), space.mem, space.tree)
      ensures ok ==> Loaded(space.mem, space.tree, data, ph, image, base)
      ensures if ok then |space.free| + 4 * PagesOf(ph) >= |old(space.free)| else |old(space.free)| < 4 * PagesOf(ph)
      ensures forall a: nat {:trigger Untouched(old(space.mem), old(space.tree), old(data), space.mem, space.tree, data, a)} ::
                a < 0x8000_0000_0000 && !(base + ph.vaddr <= a < base + ph.vaddr + ph.memsz) ==>
                Untouched(old(space.mem), old(space.tree), old(data), space.mem, space.tree, data, a)
    {
      hide TreeOk, Private, Seen, Lookup, KeepsAll;
      ghost var m0, T0, d0 := space.mem, space.tree, data;
      var start := ph.vaddr - ph.vaddr % 4096;
      var pages := PagesOf(ph);
      PageSpan(base, ph.vaddr, ph.memsz);
      ok := MapRange(base + start, pages);
      ghost var m1, T1 := space.mem, space.tree;
      forall a: nat | a < 0x8000_0000_0000 ensures Untouched(m0, T0, d0, m1, T1, d0, a) { KeptSeen(m0, T0, m1, T1, d0, a); }
      if !ok { return; }
      var at := base + ph.vaddr;
      forall k: nat | k < ph.memsz ensures MappedByte(m1, T1, at, k) {
        ByteInSpan(base, ph.vaddr, ph.memsz, k);
        UserPage(at + k);
        assert MappedAt(m1, T1, (base + start) / 4096, (at + k) / 4096 - (base + start) / 4096);
      }
      Fill(at, image, ph.offset, ph.filesz, ph.memsz);
      forall a: nat | a < 0x8000_0000_0000 && !(at <= a < at + ph.memsz) ensures Untouched(m0, T0, d0, m1, T1, data, a) {
        assert Untouched(m0, T0, d0, m1, T1, d0, a) && Same(m1, T1, d0, data, a);
      }
    }

    /** The loop over program headers: whatever the order, every PT_LOAD segment ends up as its image says. */
    method LoadSegments(phdrs: seq<Phdr>, image: seq<nat>, base: nat) returns (ok: bool)
      requires Valid() && base % 4096 == 0
      requires forall i {:trigger phdrs[i]} :: 0 <= i < |phdrs| && phdrs[i].ptype == PT_LOAD ==> Loadable(phdrs[i], |image|, base)
      requires forall i, j {:trigger Disjoint(phdrs[i], phdrs[j])} ::
                 0 <= i < j < |phdrs| && phdrs[i].ptype == PT_LOAD && phdrs[j].ptype == PT_LOAD ==> Disjoint(phdrs[i], phdrs[j])
      modifies this`data, space`mem, space`free, space`tree
      ensures Valid() && KeepsAll(old(space.mem), old(space.tree), space.mem, space.tree)
      ensures ok ==> forall i {:trigger phdrs[i]} :: 0 <= i < |phdrs| && phdrs[i].ptype == PT_LOAD ==>
                       Loaded(space.mem, space.tree, data, phdrs[i], image, base)
      ensures !ok ==> |old(space.free)| < 4 * AllPages(phdrs)
      ensures forall x: nat {:trigger Opened(old(space.mem), space.mem, space.root, x)} :: Opened(old(space.mem), space.mem, space.root, x)
      ensures forall a: nat {:trigger Untouched(old(space.mem), old(space.tree), old(data), space.mem, space.tree, data, a)} ::
                a < 0x8000_0000_0000 && OutsideAll(phdrs, base, a) ==> Untouched(old(space.mem), old(space.tree), old(data), space.mem, space.tree, data, a)
    {
      hide TreeOk, Private, KeepsAll, Loaded, Untouched, OutsideAll, PagesOf, Opened;
      ghost var m0, T0, d0 := space.mem, space.tree, data;
      KeepsSelf(m0, T0);
      forall a: nat ensures Untouched(m0, T0, d0, m0, T0, d0, a) { KeptSeen(m0, T0, m0, T0, d0, a); }
      var i := 0;
      while i < |phdrs|
        invariant 0 <= i <= |phdrs| && Valid() && KeepsAll(m0, T0, space.mem, space.tree)
        invariant forall j {:trigger phdrs[j]} :: 0 <= j < i && phdrs[j].ptype == PT_LOAD ==> Loaded(space.mem, space.tree, data, phdrs[j], image, base)
        invariant |space.free| + 4 * AllPages(phdrs[..i]) >= |old(space.free)|
        invariant forall a: nat {:trigger Untouched(m0, T0, d0, space.mem, space.tree, data, a)} ::
                    a < 0x8000_0000_0000 && OutsideAll(phdrs, base, a) ==> Untouched(m0, T0, d0, space.mem, space.tree, data, a)
      {
        MorePages(phdrs, i);
        if phdrs[i].ptype == PT_LOAD {
          ghost var m1, T1, d1 := space.mem, space.tree, data;
          ok := ProcessLoad(phdrs[i], image, base);
          KeepsTwice(m0, T0, m1, T1, space.mem, space.tree);
          forall a: nat | a < 0x8000_0000_0000 && OutsideAll(phdrs, base, a) ensures Untouched(m0, T0, d0, space.mem, space.tree, data, a) {
            assert Untouched(m0, T0, d0, m1, T1, d1, a);
            OutsideOne(phdrs, base, a, i);
            assert Untouched(m1, T1, d1, space.mem, space.tree, data, a);
            UntouchedTwice(m0, T0, d0, m1, T1, d1, space.mem, space.tree, data, a);
          }
          if !ok {
            forall x: nat ensures Opened(m0, space.mem, space.root, x) { KeepsOpens(m0, T0, space.mem, space.tree, space.root, x); }
            return;
          }
          forall j | 0 <= j < i && phdrs[j].ptype == PT_LOAD ensures Loaded(space.mem, space.tree, data, phdrs[j], image, base) {
            assert Disjoint(phdrs[j], phdrs[i]);
            StillLoaded(m1, T1, d1, space.mem, space.tree, data, phdrs[j], phdrs[i], image, base);
          }
        }
        i := i + 1;
      }
      forall x: nat ensures Opened(m0, space.mem, space.root, x) { KeepsOpens(m0, T0, space.mem, space.tree, space.root, x); }
      ok := true;
    }
  }

  lemma PrivatePage(m: Frames, T: Tree, free: set<nat>, x: nat)
    requires Private(m, T, free) && x < USER_PAGES
    ensures PageOk(m, T, free, x)
  {
  }

  lemma KeepsSelf(m: Frames, T: Tree)
    ensures KeepsAll(m, T, m, T)
  {
    forall x: nat ensures Keeps(m, T, m, T, x) { }
  }

  /** A failed mapping may have built tables, but changed no translation. */
  lemma MapNone(m: Frames, T: Tree, free: set<nat>, m': Frames, T': Tree, free': set<nat>, f: nat)
    requires Private(m, T, free) && f in free && free' <= free - {f} && Extends(T, T', free - {f}) && SameMap(m, T, m', T')
    ensures Private(m', T', free') && KeepsAll(m, T, m', T')
  {
    hide LeafAt, BitAt, FrameOf;
    forall x: nat ensures Lookup(m', T', x) == Lookup(m, T, x) && Keeps(m, T, m', T', x) { assert SameAt(m, T, m', T', x); }
    forall x: nat | x < USER_PAGES ensures PageOk(m', T', free', x) { assert PageOk(m, T, free, x); }
    forall x: nat, y: nat | x < USER_PAGES && y < USER_PAGES ensures OwnPage(m', T', x, y) { assert OwnPage(m, T, x, y); }
  }

  ghost predicate MappedAt(m: Frames, T: Tree, b: nat, i: nat) { Lookup(m, T, b + i).Some? }

  ghost predicate MappedByte(m: Frames, T: Tree, at: nat, k: nat) { Lookup(m, T, PageOf(at + k)).Some? }

  lemma PageStep(start: nat, i: nat)
    requires start % 4096 == 0
    ensures (start + 4096 * i) % 4096 == 0 && (start + 4096 * i) / 4096 == start / 4096 + i
  {
  }

  lemma KeepsTwice(m: Frames, T: Tree, m1: Frames, T1: Tree, m2: Frames, T2: Tree)
    requires KeepsAll(m, T, m1, T1) && KeepsAll(m1, T1, m2, T2)
    ensures KeepsAll(m, T, m2, T2)
  {
    forall x: nat ensures Keeps(m, T, m2, T2, x) { assert Keeps(m, T, m1, T1, x) && Keeps(m1, T1, m2, T2, x); }
  }

  lemma KeepsIs(m: Frames, T: Tree, m': Frames, T': Tree, x: nat)
    requires KeepsAll(m, T, m', T') && Lookup(m, T, x).Some?
    ensures Lookup(m', T', x) == Lookup(m, T, x)
  {
    assert Keeps(m, T, m', T', x);
  }

  /** What address a shows after v is stored at va. */
  ghost predicate Stored(m: Frames, T: Tree, d: Bytes, d': Bytes, va: nat, v: nat, a: nat) {
    Seen(m, T, d', a) == if a == va then Some(v) else Seen(m, T, d, a)
  }

  lemma StoreHits(m: Frames, T: Tree, free: set<nat>, d: Bytes, va: nat, v: nat, a: nat)
    requires Private(m, T, free) && va < 0x8000_0000_0000 && a < 0x8000_0000_0000 && Lookup(m, T, PageOf(va)).Some?
    ensures Stored(m, T, d, d[4096 * Lookup(m, T, PageOf(va)).value + va % 4096 := v], va, v, a)
  {
    hide Lookup;
    UserPage(va);
    UserPage(a);
    assert OwnPage(m, T, va / 4096, a / 4096);
    var l := Lookup(m, T, a / 4096);
    if l.Some? && 4096 * l.value + a % 4096 == 4096 * Lookup(m, T, va / 4096).value + va % 4096 {
      FrameApart(l.value, Lookup(m, T, va / 4096).value, a % 4096, va % 4096);
    }
  }

  ghost predicate Same(m: Frames, T: Tree, d: Bytes, d': Bytes, a: nat) { Seen(m, T, d', a) == Seen(m, T, d, a) }

  /** Byte k of a range filled from n image bytes and zeros. */
  ghost predicate FilledAt(m: Frames, T: Tree, d: Bytes, at: nat, image: seq<nat>, offset: nat, n: nat, k: nat)
    requires offset + n <= |image|
  {
    Seen(m, T, d, at + k) == Some(if k < n then image[offset + k] else 0)
  }

  /** The header describes file bytes that exist and memory in the user half. */
  ghost predicate Loadable(ph: Phdr, size: nat, base: nat) {
    ph.filesz <= ph.memsz && ph.offset + ph.filesz <= size && base + ph.vaddr + ph.memsz + 4096 <= 0x8000_0000_0000
  }

  ghost predicate Disjoint(p: Phdr, q: Phdr) { p.vaddr + p.memsz <= q.vaddr || q.vaddr + q.memsz <= p.vaddr }

  /** Every byte of the segment is mapped and holds the file byte, or zero past filesz. */
  ghost predicate Loaded(m: Frames, T: Tree, d: Bytes, ph: Phdr, image: seq<nat>, base: nat) {
    && ph.offset + ph.filesz <= |image|
    && forall k: nat {:trigger FilledAt(m, T, d, base + ph.vaddr, image, ph.offset, ph.filesz, k)} ::
         k < ph.memsz ==> FilledAt(m, T, d, base + ph.vaddr, image, ph.offset, ph.filesz, k)
  }

  /** An address that showed something shows it still. */
  ghost predicate Untouched(m: Frames, T: Tree, d: Bytes, m': Frames, T': Tree, d': Bytes, a: nat) {
    Seen(m, T, d, a).Some? ==> Seen(m', T', d', a) == Seen(m, T, d, a)
  }

  lemma UntouchedTwice(m0: Frames, T0: Tree, d0: Bytes, m1: Frames, T1: Tree, d1: Bytes, m2: Frames, T2: Tree, d2: Bytes, a: nat)
    requires Untouched(m0, T0, d0, m1, T1, d1, a) && Untouched(m1, T1, d1, m2, T2, d2, a)
    ensures Untouched(m0, T0, d0, m2, T2, d2, a)
  {
  }

  /** a lies in no segment. */
  ghost predicate OutsideAll(phdrs: seq<Phdr>, base: nat, a: nat) {
    forall i {:trigger phdrs[i]} :: 0 <= i < |phdrs| && phdrs[i].ptype == PT_LOAD ==>
      !(base + phdrs[i].vaddr <= a < base + phdrs[i].vaddr + phdrs[i].memsz)
  }

  lemma OutsideOne(phdrs: seq<Phdr>, base: nat, a: nat, i: nat)
    requires OutsideAll(phdrs, base, a) && i < |phdrs| && phdrs[i].ptype == PT_LOAD
    ensures !(base + phdrs[i].vaddr <= a < base + phdrs[i].vaddr + phdrs[i].memsz)
  {
  }

  /** The pages a segment touches. */
  function PagesOf(ph: Phdr): nat { DivRoundUp(ph.vaddr % 4096 + ph.memsz, 4096) }

  function AllPages(phdrs: seq<Phdr>): nat {
    if phdrs == [] then 0
    else AllPages(phdrs[..|phdrs| - 1]) + if phdrs[|phdrs| - 1].ptype == PT_LOAD then PagesOf(phdrs[|phdrs| - 1]) else 0
  }

  lemma {:induction false} MorePages(phdrs: seq<Phdr>, i: nat)
    requires i < |phdrs|
    ensures AllPages(phdrs[..i + 1]) == AllPages(phdrs[..i]) + (if phdrs[i].ptype == PT_LOAD then PagesOf(phdrs[i]) else 0)
    ensures AllPages(phdrs[..i + 1]) <= AllPages(phdrs)
    decreases |phdrs| - i
  {
    assert phdrs[..i + 1][..i] == phdrs[..i];
    if i + 1 < |phdrs| { MorePages(phdrs, i + 1); } else { assert phdrs[..i + 1] == phdrs; }
  }

  lemma KeptSeen(m: Frames, T: Tree, m': Frames, T': Tree, d: Bytes, a: nat)
    requires KeepsAll(m, T, m', T')
    ensures Untouched(m, T, d, m', T', d, a)
  {
    assert Keeps(m, T, m', T', PageOf(a));
  }

  lemma PageSpan(base: nat, vaddr: nat, memsz: nat)
    requires base % 4096 == 0
    ensures var start := vaddr - vaddr % 4096;
            (base + start) % 4096 == 0 && start + 4096 * DivRoundUp(vaddr - start + memsz, 4096) <= vaddr + memsz + 4096
  {
  }

  lemma ByteInSpan(base: nat, vaddr: nat, memsz: nat, k: nat)
    requires base % 4096 == 0 && k < memsz
    ensures var start := vaddr - vaddr % 4096;
            (base + start) / 4096 <= (base + vaddr + k) / 4096 < (base + start) / 4096 + DivRoundUp(vaddr - start + memsz, 4096)
  {
  }

  lemma StillLoaded(m: Frames, T: Tree, d: Bytes, m': Frames, T': Tree, d': Bytes, ph: Phdr, q: Phdr, image: seq<nat>, base: nat)
    requires Loaded(m, T, d, ph, image, base) && Disjoint(ph, q) && base + ph.vaddr + ph.memsz <= 0x8000_0000_0000
    requires forall a: nat {:trigger Untouched(m, T, d, m', T', d', a)} ::
               a < 0x8000_0000_0000 && !(base + q.vaddr <= a < base + q.vaddr + q.memsz) ==> Untouched(m, T, d, m', T', d', a)
    ensures Loaded(m', T', d', ph, image, base)
  {
    var at := base + ph.vaddr;
    forall k: nat | k < ph.memsz ensures FilledAt(m', T', d', at, image, ph.offset, ph.filesz, k) {
      assert FilledAt(m, T, d, at, image, ph.offset, ph.filesz, k);
      assert Untouched(m, T, d, m', T', d', at + k);
    }
  }
}
