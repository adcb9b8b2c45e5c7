/** The kernel heap: dlmalloc's malloc_state over word memory. */
module Heap {
  import Octets
  import opened Memory
  import opened Tiles
  import opened Bitmap
  import opened SizeClass
  import opened Trie
  import opened Rings
  import opened SmallBins
  import opened TreeShape
  import opened TreeBins
  import opened TreeUnlink
  import opened TreeSearch
  import opened FreeIndex
  import opened Tags
  import opened HeapCore
  import opened HeapGrowth
  import opened Segments
  import opened Alignment

  /** Offset of the embedded segment in malloc_state. */
  const SEG := 888

  class Heap {
    /** Address of the static malloc_state. */
    const gm: int
    /** Lowest address of the direct map, from which every grant comes. */
    const base: int

    var mem: Mem
    var smallmap: Word32
    var treemap: Word32
    var dvsize: int
    var topsize: int
    var leastAddr: int
    var dv: int
    var top: int
    /** The list of segments, newest first, starts in malloc_state. */
    var segBase: int
    var segSize: int
    var segNext: int
    /** Bytes obtained from the system. */
    var footprint: int
    var maxFootprint: int
    /** Set by CORRUPTION_ERROR_ACTION and USAGE_ERROR_ACTION. */
    var aborted: bool

    /** The chunks of all segments. */
    ghost var C: Tiling
    ghost var heads: set<int>
    ghost var records: set<int>
    ghost var granted: set<int>
    /** The record chunks, newest first, and the extents of all segments. */
    ghost var segs: seq<int>
    ghost var bases: seq<int>
    ghost var sizes: seq<int>
    ghost var bins: seq<seq<int>>
    ghost var t: Shape
    ghost var ch: Chains
    /** Free chunks held by the bins. */
    ghost var B: Stock

    /** malloc_state zeroed by the loader at gm, and a direct map from base on. */
    constructor (gm: int, base: int)
      requires gm > 0 && base > 0 && (gm + STATE_SIZE <= base || base + MAX_SIZE <= gm)
      ensures this.gm == gm && this.base == base && Valid() && Blocks() == map[] && granted == {} && footprint == 0 && !aborted
    {
      this.gm, this.base := gm, base;
      mem := map[];
      smallmap, treemap := Zero(), Zero();
      dvsize, topsize, leastAddr, dv, top := 0, 0, 0, 0, 0;
      segBase, segSize, segNext, footprint, maxFootprint := 0, 0, 0, 0, 0;
      aborted := false;
      C, heads, records, granted := map[], {}, {}, {};
      segs, bases, sizes := [], [], [];
      bins, t, ch, B := seq(32, i => []), Shape(map[], map[], map[]), map[], map[];
    }

    ghost function Ix(): Index
      reads this`smallmap, this`treemap, this`bins, this`t, this`ch, this`B
    {
      Index(smallmap, treemap, bins, t, ch, B)
    }

    ghost function Limit(): int { base + MAX_SIZE }

    ghost function Ar(): Arena
      reads this`leastAddr, this`top, this`topsize, this`heads, this`records, this`granted
    {
      Arena(leastAddr, Limit(), top, topsize, heads, records, granted)
    }

    ghost predicate Indexed()
      reads this
    {
      IndexOk(mem, Ix(), gm, leastAddr, Limit()) && base <= leastAddr
    }

    /** RTCHECK with CORRUPTION_ERROR_ACTION or USAGE_ERROR_ACTION behind it: the kernel aborts when ok is false. */
    method Check(ok: bool)
      modifies this`aborted
      ensures aborted == (old(aborted) || !ok)
    {
      if !ok { aborted := true; }
    }

    // -------------------------------------------------------------- insert_small_chunk, unlink_small_chunk

    method InsertSmallChunk(p: int, s: int)
      requires Indexed() && p !in B && 32 <= s < 256 && A16(s) && Placed(B[p := s], leastAddr, Limit(), gm)
      modifies this`mem, this`smallmap, this`bins, this`B, this`aborted
      ensures Indexed() && B == old(B)[p := s] && aborted == old(aborted)
      ensures Quiet(old(mem), mem, B, gm)
    {
      hide IndexOk, Quiet, Placed, Or, Bit;
      var i := s / 8;
      assert s == 8 * i;
      ghost var m0, x0 := mem, Ix();
      PutSmall(m0, x0, gm, leastAddr, Limit(), p, i);
      BinsOf(m0, x0, gm, leastAddr, Limit(), i);
      var h := Header(gm, i);
      var f := h;
      if !smallmap[i] {
        smallmap := Or(smallmap, Bit(i));
      } else {
        Check(Fd(mem, h) >= leastAddr);
        f := Fd(mem, h);
      }
      mem := mem[h + 16 := p];
      mem := mem[f + 24 := p];
      mem := mem[p + 16 := f];
      mem := mem[p + 24 := h];
      bins := bins[i := [p] + bins[i]];
      B := B[p := s];
    }

    method UnlinkSmallChunk(p: int, s: int)
      requires Indexed() && p in B && B[p] == s && s < 256
      modifies this`mem, this`smallmap, this`bins, this`B, this`aborted
      ensures Indexed() && B == old(B) - {p} && aborted == old(aborted)
      ensures Quiet(old(mem), mem, old(B), gm)
    {
      hide IndexOk, Quiet, And, Not, Bit;
      var f := Fd(mem, p);
      var b := Bk(mem, p);
      var i := s / 8;
      ghost var m0 := mem;
      ghost var k := SmallUnlinked(m0, Ix(), gm, leastAddr, Limit(), p, i);
      Check(f == Header(gm, i) || (f >= leastAddr && Bk(mem, f) == p));
      if b == f {
        smallmap := And(smallmap, Not(Bit(i)));
      } else {
        Check(b == Header(gm, i) || (b >= leastAddr && Fd(mem, b) == p));
        mem := mem[f + 24 := b];
        mem := mem[b + 16 := f];
      }
      bins := bins[i := Without(bins[i], k)];
      B := B - {p};
    }

    /** unlink_first_small_chunk: p is the fd of bin i's header. */
    method UnlinkFirstSmallChunk(i: int) returns (p: int)
      requires Indexed() && 0 <= i < 32 && smallmap[i]
      modifies this`mem, this`smallmap, this`bins, this`B, this`aborted
      ensures p in old(B) && old(B)[p] == 8 * i
      ensures Indexed() && B == old(B) - {p} && aborted == old(aborted)
      ensures Quiet(old(mem), mem, old(B), gm)
    {
      var h := Header(gm, i);
      p := Fd(mem, h);
      ghost var m0, x0 := mem, Ix();
      assert BinOk(mem, smallmap, bins, B, gm, i);
      assert Hop(mem, [h] + bins[i], 0);
      assert p == bins[i][0];
      ghost var k := LocateSmall(m0, smallmap, bins, B, gm, leastAddr, Limit(), p, i);
      TakeSmall(m0, x0, gm, leastAddr, Limit(), p, i, k);
      var f := Fd(mem, p);
      FirstIsFirst(m0, x0, gm, leastAddr, Limit(), p, i, k);
      if f in B { assert InPlace(B, f, leastAddr, Limit()); }
      if h == f {
        smallmap := And(smallmap, Not(Bit(i)));
      } else {
        Check(f >= leastAddr && Bk(mem, f) == p);
        mem := mem[f + 24 := h];
        mem := mem[h + 16 := f];
      }
      bins := bins[i := Without(bins[i], k)];
      B := B - {p};
    }

    // -------------------------------------------------------------- insert_large_chunk

    method InsertLargeChunk(x: int, s: int)
      requires Indexed() && Sized(mem, B) && x !in B && 256 <= s < MAX_SIZE && Placed(B[x := s], leastAddr, Limit(), gm)
      modifies this`mem, this`treemap, this`t, this`ch, this`B, this`aborted
      ensures Indexed() && B == old(B)[x := s] && aborted == old(aborted)
      ensures Quiet(old(mem), mem, B, gm)
    {
      hide TreeIndex, Key, SmallOk, Or, Bit, NodeOk, RootOk, Vacant, Placed, ChainsOk, A16;
      var i := TreeIndex(s);
      var h := TreeBin(gm, i);
      ghost var m0, x0 := mem, Ix();
      StartDescent(m0, t, B, gm, s);
      RootWord(m0, t, B, gm, leastAddr, Limit(), i);
      assert Mapped(treemap, t, i);
      mem := mem[x + 56 := i];
      mem := mem[x + 40 := 0];
      mem := mem[x + 32 := 0];
      if !treemap[i] {
        treemap := Or(treemap, Bit(i));
        mem := mem[h := x];
        mem := mem[x + 48 := h];
        mem := mem[x + 24 := x];
        mem := mem[x + 16 := x];
        PutLargeNew(m0, mem, x0, gm, leastAddr, Limit(), x, s, 0);
        t, ch, B := Attached(t, s, 0, x), ch[s := [x]], B[x := s];
      } else {
        InsertBelowRoot(x, s, i, m0);
      }
    }

    /** The search loop of insert_large_chunk, from a non-empty root. */
    method InsertBelowRoot(x: int, s: int, i: int, ghost m0: Mem)
      requires IndexOk(m0, Ix(), gm, leastAddr, Limit()) && base <= leastAddr
      requires Sized(m0, B) && x !in B && 256 <= s < MAX_SIZE && Placed(B[x := s], leastAddr, Limit(), gm)
      requires i == TreeIndex(s) && mem == FreshFields(m0, x, i) && Slot(i, 1) in t.pos
      modifies this`mem, this`t, this`ch, this`B, this`aborted
      ensures Indexed() && B == old(B)[x := s] && aborted == old(aborted)
      ensures Quiet(m0, mem, B, gm)
    {
      hide IndexOk, TreeIndex, Key, Placed, ChunkSize, Sized, FreshFields, Descends, ShlN, SizeKey, Quiet, Vacant, LinkWord, ParentWord, TopBit, A16;
      ghost var x0 := Ix();
      FirstNode(m0, x0, gm, leastAddr, Limit(), x, s);
      var tt := Rd(mem, TreeBin(gm, i));
      var k := Key(s, i);
      ghost var c := t.pos[Slot(i, 1)];
      while true
        invariant Ix() == x0 && mem == FreshFields(m0, x, i) && aborted == old(aborted)
        invariant c in t.depth && c >= 0 && Descends(t, s, c) && c in t.node && tt == t.node[c] && k == ShlN(SizeKey(s), t.depth[c])
        decreases 64 - (t.depth[c] as int)
      {
        SearchStep(m0, x0, gm, leastAddr, Limit(), x, s, c, k);
        if ChunkSize(Rd(mem, tt + 8)) != s {
          var b := TopBit(k);
          var w := ChildAt(tt, b);
          k := Trie.Shl(k);
          if Rd(mem, w) != 0 {
            tt := Rd(mem, w);
            c := ChildSize(t, c, b);
          } else {
            PlaceBelow(x, s, i, tt, w, m0, t.depth[c] + 1);
            return;
          }
        } else {
          ChainTo(x, s, i, tt, m0);
          return;
        }
      }
    }

    method PlaceBelow(x: int, s: int, i: int, tt: int, w: int, ghost m0: Mem, ghost d: nat)
      requires IndexOk(m0, Ix(), gm, leastAddr, Limit()) && base <= leastAddr
      requires x !in B && 256 <= s && Placed(B[x := s], leastAddr, Limit(), gm) && i == TreeIndex(s) && mem == FreshFields(m0, x, i)
      requires d > 0 && Vacant(t, s, d) && LinkWord(t, gm, s, d) == w && ParentWord(t, gm, s, d) == tt && w >= leastAddr
      modifies this`mem, this`t, this`ch, this`B, this`aborted
      ensures Indexed() && B == old(B)[x := s] && aborted == old(aborted)
      ensures Quiet(m0, mem, B, gm)
    {
      hide IndexOk, TreeIndex, Placed, Quiet, Vacant, LinkWord, ParentWord, A16;
      Check(w >= leastAddr);
      mem := mem[w := x];
      mem := mem[x + 48 := tt];
      mem := mem[x + 24 := x];
      mem := mem[x + 16 := x];
      PutLargeNew(m0, mem, Ix(), gm, leastAddr, Limit(), x, s, d);
      t, ch, B := Attached(t, s, d, x), ch[s := [x]], B[x := s];
    }

    method ChainTo(x: int, s: int, i: int, tt: int, ghost m0: Mem)
      requires IndexOk(m0, Ix(), gm, leastAddr, Limit()) && base <= leastAddr
      requires x !in B && 256 <= s && Placed(B[x := s], leastAddr, Limit(), gm) && i == TreeIndex(s) && mem == FreshFields(m0, x, i)
      requires s in t.depth && s in t.node && tt == t.node[s] && Far(tt, x)
      modifies this`mem, this`t, this`ch, this`B, this`aborted
      ensures Indexed() && B == old(B)[x := s] && aborted == old(aborted)
      ensures Quiet(m0, mem, B, gm)
    {
      hide IndexOk, TreeIndex, Placed, Quiet, A16;
      FoundChain(m0, Ix(), gm, leastAddr, Limit(), s);
      FreshReads(m0, x, i, tt + 16);
      var f := Fd(mem, tt);
      Check(tt >= leastAddr && f >= leastAddr);
      mem := mem[tt + 16 := x];
      mem := mem[f + 24 := x];
      mem := mem[x + 16 := f];
      mem := mem[x + 24 := tt];
      mem := mem[x + 48 := 0];
      PutLargeChained(m0, Ix(), gm, leastAddr, Limit(), x, s);
      ch, B := ch[s := [tt, x] + ch[s][1..]], B[x := s];
    }

    // -------------------------------------------------------------- unlink_large_chunk

    /** The rightmost leaf below x and the word that points at it. */
    method FindLeaf(x: int, ghost s: int) returns (rp: int, r: int, ghost z: int)
      requires Indexed() && s in t.depth && s >= 0 && s in t.node && t.node[s] == x
      ensures r == 0 ==> IsLeaf(t, s)
      ensures r != 0 ==> z != s && IsLeaf(t, z) && z in t.node && t.node[z] == r && t.depth[s] < t.depth[z]
      ensures r != 0 ==> SlotAt(z, t.depth[s]) == SlotAt(s, t.depth[s]) && rp == LinkWord(t, gm, z, t.depth[z]) && rp >= leastAddr && r >= leastAddr
    {
      hide TreeIndex, Key, IndexOk, LinkWord, SlotAt, A16;
      ghost var x0 := Ix();
      ChildLink(mem, x0, gm, leastAddr, Limit(), s, 0);
      ChildLink(mem, x0, gm, leastAddr, Limit(), s, 1);
      rp := ChildAt(x, 1);
      r := Rd(mem, rp);
      z := ChildSize(t, s, 1);
      if r == 0 {
        rp := ChildAt(x, 0);
        r := Rd(mem, rp);
        z := ChildSize(t, s, 0);
      }
      if r != 0 {
        while Child(mem, r, 1) != 0 || Child(mem, r, 0) != 0
          invariant z in t.depth && z >= 256 && z in t.node && t.node[z] == r && t.depth[s] < t.depth[z] <= 64
          invariant SlotAt(z, t.depth[s]) == SlotAt(s, t.depth[s])
          invariant rp == LinkWord(t, gm, z, t.depth[z]) && rp >= leastAddr && r >= leastAddr && r != 0
          decreases 64 - (t.depth[z] as int)
        {
          var b := if Child(mem, r, 1) != 0 then 1 else 0;
          ChildLink(mem, x0, gm, leastAddr, Limit(), z, b);
          WalkDown(t, s, z, ChildSize(t, z, b));
          rp := ChildAt(r, b);
          r := Rd(mem, rp);
          z := ChildSize(t, z, b);
          NonNull(mem, x0, gm, leastAddr, Limit());
        }
        ChildLink(mem, x0, gm, leastAddr, Limit(), z, 0);
        ChildLink(mem, x0, gm, leastAddr, Limit(), z, 1);
        NoChildren(mem, x0, gm, leastAddr, Limit(), z);
      } else {
        NoChildren(mem, x0, gm, leastAddr, Limit(), s);
      }
    }

    /** The second half of unlink_large_chunk: whatever pointed at x now points at r. */
    method Relink(x: int, xp: int, r: int, ghost link: int, ghost i: nat, ghost root: bool)
      requires Relinkable(mem, gm, leastAddr, x, link, i, root) && xp == Parent(mem, x) && (r != 0 ==> r >= leastAddr)
      requires r != 0 ==> Far(r, x)
      modifies this`mem, this`treemap, this`aborted
      ensures aborted == old(aborted)
      ensures r != 0 ==> mem == HangMem(old(mem), link, xp, r, old(Child(mem, x, 0)), old(Child(mem, x, 1)))
      ensures r == 0 ==> mem == old(mem)[link := 0]
      ensures treemap == if root && r == 0 then And(old(treemap), Not(Bit(i))) else old(treemap)
    {
      hide And, Not, Bit, A16;
      var h := TreeBin(gm, BinIndex(mem, x));
      if x == Rd(mem, h) {
        mem := mem[h := r];
        if r == 0 {
          treemap := And(treemap, Not(Bit(BinIndex(mem, x))));
        }
      } else {
        Check(xp >= leastAddr);
        if Child(mem, xp, 0) == x {
          mem := mem[ChildAt(xp, 0) := r];
        } else {
          mem := mem[ChildAt(xp, 1) := r];
        }
      }
      if r != 0 { TakeOverChildren(x, xp, r); }
    }

    /** The replacement gets its parent and the children of x. */
    method TakeOverChildren(x: int, xp: int, r: int)
      requires r != 0 && r >= leastAddr && Far(r, x)
      requires Child(mem, x, 0) != 0 ==> Child(mem, x, 0) >= leastAddr && Far(Child(mem, x, 0), x)
      requires Child(mem, x, 1) != 0 ==> Child(mem, x, 1) >= leastAddr
      modifies this`mem, this`aborted
      ensures aborted == old(aborted)
      ensures var c0, c1, m1 := old(Child(mem, x, 0)), old(Child(mem, x, 1)), old(mem)[r + 48 := xp];
              var m2 := if c0 != 0 then m1[r + 32 := c0][c0 + 48 := r] else m1;
              mem == if c1 != 0 then m2[r + 40 := c1][c1 + 48 := r] else m2
    {
      Check(r >= leastAddr);
      mem := mem[r + 48 := xp];
      var c0 := Child(mem, x, 0);
      if c0 != 0 {
        Check(c0 >= leastAddr);
        mem := mem[r + 32 := c0];
        mem := mem[c0 + 48 := r];
      }
      var c1 := Child(mem, x, 1);
      if c1 != 0 {
        Check(c1 >= leastAddr);
        mem := mem[r + 40 := c1];
        mem := mem[c1 + 48 := r];
      }
    }

    method UnlinkLargeChunk(x: int)
      requires Indexed() && x in B && B[x] >= 256
      modifies this`mem, this`treemap, this`t, this`ch, this`B, this`aborted
      ensures Indexed() && B == old(B) - {x} && aborted == old(aborted)
      ensures Quiet(old(mem), mem, old(B), gm)
    {
      hide TreeIndex, Key, IndexOk, LinkWord, SlotAt, Relinkable, HangMem, Quiet, A16;
      ghost var m0, x0, s := mem, Ix(), B[x];
      var xp := Parent(mem, x);
      ghost var j := Locate(m0, x0, gm, leastAddr, Limit(), x);
      if Bk(mem, x) != x {
        var f := Fd(mem, x);
        var r := Bk(mem, x);
        Check(f >= leastAddr && Bk(mem, f) == x && Fd(mem, r) == x);
        mem := mem[f + 24 := r];
        mem := mem[r + 16 := f];
        if xp != 0 {
          RelinkToChain(m0, x0, gm, leastAddr, Limit(), x, s);
          TakeToChain(m0, x0, gm, leastAddr, Limit(), x, s);
          RelinkableFrom(mem, gm, leastAddr, leastAddr, x, LinkWord(t, gm, s, t.depth[s]), TreeIndex(s), t.depth[s] == 0);
          Relink(x, xp, r, LinkWord(t, gm, s, t.depth[s]), TreeIndex(s), t.depth[s] == 0);
          t := Substituted(t, s, s, r);
        } else {
          TakeChained(m0, x0, gm, leastAddr, Limit(), x, s, j);
        }
        ch := ch[s := Dropped(ch[s], j)];
      } else {
        RelinkAlone(m0, x0, gm, leastAddr, Limit(), x, s);
        var rp, r;
        ghost var z;
        rp, r, z := FindLeaf(x, s);
        if r != 0 {
          Check(rp >= leastAddr);
          mem := mem[rp := 0];
          RelinkToLeaf(m0, x0, gm, leastAddr, Limit(), x, s, z);
          TakeToLeaf(m0, x0, gm, leastAddr, Limit(), x, s, z);
          LeafFar(m0, x0, gm, leastAddr, Limit(), s, z);
        } else {
          TakeLeaf(m0, x0, gm, leastAddr, Limit(), x, s);
        }
        RelinkableFrom(mem, gm, leastAddr, leastAddr, x, LinkWord(t, gm, s, t.depth[s]), TreeIndex(s), t.depth[s] == 0);
        Relink(x, xp, r, LinkWord(t, gm, s, t.depth[s]), TreeIndex(s), t.depth[s] == 0);
        t := if r != 0 then Substituted(Detached(t, z), s, z, r) else Detached(t, s);
        ch := ch - {s};
      }
      B := B - {x};
    }

    // -------------------------------------------------------------- the searches of tmalloc_large and tmalloc_small

    /** v, if set, is a trie node that fits with rsize to spare. */
    ghost predicate Candidate(nb: int, v: int, rsize: int)
      reads this
    {
      if v == 0 then rsize == W - nb
      else v in B && 256 <= B[v] < MAX_SIZE && nb <= B[v] && rsize == B[v] - nb && B[v] in t.depth
    }

    /** The loop over leftmost children: the smallest fitting chunk of a subtree. */
    method SmallestOfSubtree(start: int, nb: int, v0: int, rsize0: int, ghost c0: int) returns (v: int, rsize: int)
      requires Indexed() && Sized(mem, B) && 0 < nb < W && Candidate(nb, v0, rsize0)
      requires if start == 0 then c0 == 0 else c0 in t.depth && c0 in t.node && t.node[c0] == start
      requires Narrowing(t, nb, nb + rsize0, c0)
      ensures Candidate(nb, v, rsize) && Covers(t, nb, nb + rsize, 0)
    {
      hide TreeIndex, Key, IndexOk, Covers, AllFit, ChunkSize, Narrowing, A16;
      v, rsize := v0, rsize0;
      var tt := start;
      ghost var c := c0;
      ghost var x0 := Ix();
      while tt != 0
        invariant Candidate(nb, v, rsize) && Narrowing(t, nb, nb + rsize, c)
        invariant if tt == 0 then c == 0 else c in t.depth && c in t.node && t.node[c] == tt
        decreases if tt == 0 then 0 else 65 - DepthOf(t, c)
      {
        NodeReads(mem, x0, gm, leastAddr, Limit(), c);
        NarrowNext(mem, x0, gm, leastAddr, Limit(), nb, nb + rsize, c);
        var trem := Sub64(ChunkSize(Rd(mem, tt + 8)), nb);
        if trem < rsize {
          rsize := trem;
          v := tt;
        }
        tt := if Child(mem, tt, 0) != 0 then Child(mem, tt, 0) else Child(mem, tt, 1);
        c := Leftmost(t, c);
      }
      NarrowDone(t, nb, nb + rsize);
    }

    /** The first loop of tmalloc_large: along nb's own path, remembering the deepest untaken right subtree. */
    method FollowPath(nb: int) returns (tt: int, v: int, rsize: int, ghost c: int)
      requires Indexed() && Sized(mem, B) && 256 <= nb < W && Slot(TreeIndex(nb), 1) in t.pos
      ensures Candidate(nb, v, rsize)
      ensures if tt == 0 then c == 0 else c in t.depth && c in t.node && t.node[c] == tt
      ensures tt != 0 || v != 0 ==> Narrowing(t, nb, nb + rsize, c)
      ensures tt == 0 && v == 0 ==> Following(t, nb, W, 0, 0)
    {
      hide TreeIndex, Key, IndexOk, ChunkSize, Following, Narrowing, ChildSize, A16;
      ghost var x0 := Ix();
      PathStart(mem, x0, gm, leastAddr, Limit(), nb);
      v, rsize := 0, W - nb;
      tt := Rd(mem, TreeBin(gm, TreeIndex(nb)));
      c := t.pos[Slot(TreeIndex(nb), 1)];
      var sizebits := Key(nb, TreeIndex(nb));
      var rst := 0;
      ghost var rs := 0;
      while true
        invariant Candidate(nb, v, rsize) && (v != 0 ==> TreeIndexOf(B[v]) == TreeIndexOf(nb))
        invariant c in t.depth && c in t.node && t.node[c] == tt && TreeIndexOf(c) == TreeIndexOf(nb)
        invariant sizebits == ShlN(SizeKey(nb), t.depth[c]) && t.depth[c] <= 64
        invariant if rst == 0 then rs == 0 else rs >= 256 && rs in t.depth && rs in t.node && t.node[rs] == rst
        invariant Following(t, nb, nb + rsize, c, rs)
        decreases 64 - (t.depth[c] as int)
      {
        NodeReads(mem, x0, gm, leastAddr, Limit(), c);
        PathNext(mem, x0, gm, leastAddr, Limit(), nb, nb + rsize, c, rs);
        var trem := Sub64(ChunkSize(Rd(mem, tt + 8)), nb);
        if trem < rsize {
          v := tt;
          rsize := trem;
          if rsize == 0 {
            ExactFit(mem, x0, gm, leastAddr, Limit(), nb, c);
            return;
          }
        }
        var b := TopBit(sizebits);
        var rt := Child(mem, tt, 1);
        ghost var nextRs := NextRight(t, nb, c, rs);
        tt := Child(mem, tt, b);
        if rt != 0 && rt != tt {
          rst := rt;
        }
        rs := nextRs;
        if tt == 0 {
          tt := rst;
          c := rs;
          HandOver(mem, x0, gm, leastAddr, Limit(), nb, nb + rsize, rs, v);
          return;
        }
        c := ChildSize(t, c, b);
        sizebits := Trie.Shl(sizebits);
      }
    }

    /** The search of tmalloc_large: the smallest binned chunk of at least nb bytes, or none. */
    method FindBestFit(nb: int) returns (v: int, rsize: int)
      requires Indexed() && Sized(mem, B) && 256 <= nb < W
      ensures v == 0 ==> rsize == W - nb && forall y {:trigger B[y]} :: y in B ==> B[y] < nb
      ensures v != 0 ==> v in B && 256 <= B[v] && nb <= B[v] && rsize == B[v] - nb
      ensures v != 0 ==> forall y {:trigger B[y]} :: y in B && nb <= B[y] ==> B[v] <= B[y]
    {
      hide TreeIndex, Key, IndexOk, Following, Narrowing, Covers, LeftBits, LeastBit, And, Bit, Ctz, A16;
      ghost var x0 := Ix();
      RootReads(mem, x0, gm, leastAddr, Limit(), nb);
      var tt;
      ghost var c;
      if Rd(mem, TreeBin(gm, TreeIndex(nb))) != 0 {
        tt, v, rsize, c := FollowPath(nb);
      } else {
        tt, v, rsize, c := 0, 0, W - nb, 0;
      }
      if tt == 0 && v == 0 {
        var leftbits := And(LeftBits(Bit(TreeIndex(nb))), treemap);
        NextClass(mem, x0, gm, leastAddr, Limit(), nb, leftbits);
        if NonZero(leftbits) {
          LeastIndex(leftbits);
          var i := Ctz(LeastBit(leftbits));
          tt := Rd(mem, TreeBin(gm, i));
          c := t.pos[Slot(i, 1)];
        }
      }
      v, rsize := SmallestOfSubtree(tt, nb, v, rsize, c);
      BestOfStock(mem, x0, gm, leastAddr, Limit(), nb, nb + rsize);
    }

    /** The search of tmalloc_small: the smallest tree-binned chunk. */
    method FindSmallestLarge(nb: int) returns (v: int, rsize: int)
      requires Indexed() && Sized(mem, B) && 0 < nb < 256 && NonZero(treemap)
      ensures v in B && 256 <= B[v] && rsize == B[v] - nb
      ensures forall y {:trigger B[y]} :: y in B && 256 <= B[y] ==> B[v] <= B[y]
    {
      hide TreeIndex, Key, IndexOk, Narrowing, Covers, LeastBit, Ctz, ChunkSize, A16;
      ghost var x0 := Ix();
      LeastIndex(treemap);
      var i := Ctz(LeastBit(treemap));
      LeastClass(mem, x0, gm, leastAddr, Limit(), nb);
      v := Rd(mem, TreeBin(gm, i));
      ghost var c := t.pos[Slot(i, 1)];
      NodeReads(mem, x0, gm, leastAddr, Limit(), c);
      NarrowNext(mem, x0, gm, leastAddr, Limit(), nb, W, c);
      rsize := ChunkSize(Rd(mem, v + 8)) - nb;
      var tt := if Child(mem, v, 0) != 0 then Child(mem, v, 0) else Child(mem, v, 1);
      v, rsize := SmallestOfSubtree(tt, nb, v, rsize, Leftmost(t, c));
      BestOfStock(mem, x0, gm, leastAddr, Limit(), nb, nb + rsize);
    }

    // -------------------------------------------------------------- the heap invariant

    /** dv is a free chunk outside the bins whose size is cached, or there is none. */
    ghost predicate DvOk()
      reads this`dv, this`dvsize, this`C
    {
      DvAt(C, dv, dvsize)
    }

    /** The invariant of an initialized heap, with the free chunks in loose momentarily out of the index. */
    ghost predicate Ready(loose: set<int>)
      reads this`mem, this`smallmap, this`treemap, this`bins, this`t, this`ch, this`B, this`C, this`dv, this`dvsize
      reads this`leastAddr, this`top, this`topsize, this`heads, this`records, this`granted, this`segBase, this`segSize
    {
      Intact(mem, Ix(), C, loose, dv, dvsize, Ar(), gm, base, segBase + segSize)
    }

    /** top moves to q, in the tiling D. */
    method SetTop(q: int, tsize: int, ghost D: Tiling)
      requires Intact(mem, Ix(), D, {}, dv, dvsize, Ar().(top := q, topsize := tsize), gm, base, segBase + segSize)
      modifies this`C, this`top, this`topsize
      ensures Ready({}) && top == q && topsize == tsize && C == D
    {
      hide Intact;
      C := D;
      top := q;
      topsize := tsize;
    }

    /** dv becomes the chunk at q, in the tiling D. */
    method SetDv(q: int, dsize: int, ghost D: Tiling)
      requires Intact(mem, Ix(), D, {}, q, dsize, Ar(), gm, base, segBase + segSize)
      modifies this`C, this`dv, this`dvsize
      ensures Ready({}) && dv == q && dvsize == dsize && C == D
    {
      hide Intact;
      C := D;
      dvsize := dsize;
      dv := q;
    }

    method InsertChunk(p: int, s: int, ghost loose: set<int>)
      requires Ready(loose) && p in loose && p in C && !C[p].cinuse && C[p].size == s
      modifies this`mem, this`smallmap, this`treemap, this`bins, this`t, this`ch, this`B, this`aborted
      ensures Ready(loose - {p}) && aborted == old(aborted) && Undisturbed(old(mem), mem, Live(C))
    {
      hide IndexOk, Tiled, Tagged, TopTagged, FreeExcept, Quiet, Undisturbed, Placed, A16;
      ghost var m0, x0, ex := mem, Ix(), loose + {dv};
      CoreSized(m0, x0, C, ex, Ar(), gm);
      CoreRoom(m0, x0, C, ex, Ar(), gm, p);
      if s < 256 {
        InsertSmallChunk(p, s);
      } else {
        InsertLargeChunk(p, s);
      }
      assert loose - {p} + {dv} == ex - {p};
      CoreQuiet(m0, mem, x0, Ix(), B, C, ex, ex - {p}, Ar(), gm);
    }

    method UnlinkChunk(p: int, s: int, ghost loose: set<int>)
      requires Ready(loose) && p in C && !C[p].cinuse && C[p].size == s && p != dv && p !in loose
      modifies this`mem, this`smallmap, this`treemap, this`bins, this`t, this`ch, this`B, this`aborted
      ensures Ready(loose + {p}) && aborted == old(aborted) && Undisturbed(old(mem), mem, Live(C)) && Quiet(old(mem), mem, old(B), gm)
    {
      hide IndexOk, Tiled, Tagged, TopTagged, Quiet, Undisturbed, Placed, A16;
      ghost var m0, x0, ex := mem, Ix(), loose + {dv};
      NotNull(m0, x0, C, ex, Ar(), gm, p);
      if s < 256 {
        UnlinkSmallChunk(p, s);
      } else {
        UnlinkLargeChunk(p);
      }
      assert FreeExcept(C, ex) - {p} == FreeExcept(C, ex + {p});
      assert loose + {p} + {dv} == ex + {p};
      CoreQuiet(m0, mem, x0, Ix(), x0.B, C, ex, ex + {p}, Ar(), gm);
    }

    // -------------------------------------------------------------- tag macros

    /** set_size_and_pinuse_of_free_chunk, where the successor's pinuse bit is already clear. */
    method SetSizeAndPinuseOfFree(a: int, s: int, ghost ex: set<int>, ghost ex': set<int>)
      requires Core(mem, Ix(), C, ex, Ar(), gm) && Boundary(C, a, a + s, Ar())
      requires AllLoose(C, ex, a, a + s) && SameElsewhere(ex, ex', a, a + s) && a in ex'
      requires C[a].pinuse && a + s in C && C[a + s].cinuse && !C[a + s].pinuse
      modifies this`mem, this`C
      ensures C == Rep1(old(C), a, a + s, false) && Core(mem, Ix(), C, ex', Ar(), gm)
      ensures Undisturbed(old(mem), mem, LiveOutside(old(C), a, a + s)) && Live(C) == LiveOutside(old(C), a, a + s)
    {
      hide IndexOk, Tiled, TopTagged, Undisturbed, FreeExcept, Live, LiveOutside, Rep1, A16;
      ghost var m0, e := mem, a + s;
      assert TagAt(mem, C, e);
      EndApart(m0, Ix(), C, ex, Ar(), gm, a, e);
      mem := mem[a + 8 := s + 1];
      mem := mem[a + s := s];
      CoreRep1(m0, mem, Ix(), C, ex, ex', Ar(), gm, a, e, false);
      C := Rep1(C, a, e, false);
    }

    /** set_free_with_pinuse: also clears the successor's pinuse bit. */
    method SetFreeWithPinuse(a: int, s: int, ghost ex: set<int>, ghost ex': set<int>)
      requires Core(mem, Ix(), C, ex, Ar(), gm) && Boundary(C, a, a + s, Ar())
      requires AllLoose(C, ex, a, a + s) && SameElsewhere(ex, ex', a, a + s) && a in ex'
      requires C[a].pinuse && a + s in C && C[a + s].cinuse
      modifies this`mem, this`C
      ensures C == Rep1(old(C), a, a + s, false) && Core(mem, Ix(), C, ex', Ar(), gm)
      ensures Undisturbed(old(mem), mem, LiveOutside(old(C), a, a + s)) && Live(C) == LiveOutside(old(C), a, a + s)
    {
      hide IndexOk, Tiled, TopTagged, Undisturbed, FreeExcept, Live, LiveOutside, Rep1, ClearPinuse, A16;
      ghost var m0, e := mem, a + s;
      assert TagAt(mem, C, e);
      EndApart(m0, Ix(), C, ex, Ar(), gm, a, e);
      PinuseWrites(C[e]);
      mem := mem[a + s + 8 := ClearPinuse(Rd(mem, a + s + 8))];
      mem := mem[a + 8 := s + 1];
      mem := mem[a + s := s];
      CoreRep1(m0, mem, Ix(), C, ex, ex', Ar(), gm, a, e, false);
      C := Rep1(C, a, e, false);
    }

    // -------------------------------------------------------------- dispose_chunk

    /** Consolidate backward: the start of the chunk to free, taken out of its bin unless it is dv. */
    method AbsorbPrevious(p: int) returns (a: int, ghost loose: set<int>)
      requires Ready({}) && p in C && C[p].cinuse && !C[p].pinuse
      modifies this`mem, this`smallmap, this`treemap, this`bins, this`t, this`ch, this`B, this`aborted
      ensures a in C && !C[a].cinuse && C[a].pinuse && a + C[a].size == p && a < p && loose == (if a == dv then {} else {a})
      ensures Ready(loose) && aborted == old(aborted) && Undisturbed(old(mem), mem, Live(C))
    {
      hide Core, Undisturbed, A16;
      Preceding(mem, Ix(), C, {} + {dv}, Ar(), gm, p);
      var prevsize := Rd(mem, p);
      a := p - prevsize;
      loose := {};
      Check(a >= leastAddr);
      if a != dv {
        UnlinkChunk(a, prevsize, {});
        loose := {} + {a};
      } else {
        UndisturbedSelf(mem, Live(C));
      }
    }

    /** The state between the backward and the forward half of freeing p: a starts the chunk to build. */
    ghost predicate Freeing(p: int, a: int, loose: set<int>)
      reads this
    {
      Ready(loose) && Leads(C, Ar(), a, p) && C[a].pinuse && loose == (if a == p || a == dv then {} else {a})
    }

    /** Consolidate into top. */
    method FreeIntoTop(p: int, a: int, ghost loose: set<int>)
      requires Freeing(p, a, loose) && p + C[p].size == top
      modifies this`mem, this`C, this`dv, this`dvsize, this`top, this`topsize
      ensures Ready({}) && Live(C) == old(Live(C)) - {p} && Undisturbed(old(mem), mem, Live(C))
      ensures VictimAfter(old(dv), old(dvsize), old(top), dv, dvsize, top)
    {
      hide Intact, Undisturbed, Live, A16;
      ghost var m0 := mem;
      var tsize := topsize + (top - a);
      mem := mem[a + 8 := tsize + 1];
      ghost var D := FreedIntoTop(m0, mem, Ix(), C, loose, dv, dvsize, Ar(), gm, base, segBase + segSize, p, a);
      if a == dv {
        dv := 0;
        dvsize := 0;
      }
      SetTop(a, tsize, D);
    }

    /** Consolidate with the designated victim behind p. */
    method FreeIntoDv(p: int, a: int, ghost loose: set<int>)
      requires Freeing(p, a, loose) && p + C[p].size == dv
      modifies this`mem, this`C, this`dv, this`dvsize
      ensures Ready({}) && Live(C) == old(Live(C)) - {p} && Undisturbed(old(mem), mem, Live(C))
      ensures VictimAfter(old(dv), old(dvsize), old(top), dv, dvsize, top)
    {
      hide Core, Undisturbed, Live, LiveOutside, Rep1, AllLoose, Tiled, Tagged, TileOk, Before, A16;
      ghost var ex := loose + {dv};
      Around(mem, Ix(), C, ex, Ar(), gm, p);
      CoreTiled(mem, Ix(), C, ex, Ar(), gm);
      ghost var e := dv + dvsize;
      Span(C, a, p, e, Ar(), ex);
      NotNull(mem, Ix(), C, ex, Ar(), gm, a);
      var dsize := dvsize + (dv - a);
      SetSizeAndPinuseOfFree(a, dsize, ex, {} + {a});
      dvsize := dsize;
      dv := a;
      Rep1Head(old(C), a, e, false);
    }

    /** Grow the designated victim, which precedes p, when p's successor is in use. */
    method FreeAfterDv(p: int, a: int, ghost loose: set<int>)
      requires Freeing(p, a, loose) && a == dv && a != p && p + C[p].size in C && C[p + C[p].size].cinuse
      modifies this`mem, this`C, this`dvsize
      ensures Ready({}) && Live(C) == old(Live(C)) - {p} && Undisturbed(old(mem), mem, Live(C))
      ensures VictimAfter(dv, old(dvsize), top, dv, dvsize, top)
    {
      hide Core, Undisturbed, Live, LiveOutside, Rep1, AllLoose, Tiled, Tagged, TileOk, Before, A16;
      ghost var ex := loose + {dv};
      Around(mem, Ix(), C, ex, Ar(), gm, p);
      CoreTiled(mem, Ix(), C, ex, Ar(), gm);
      ghost var e := p + C[p].size;
      Span(C, a, p, e, Ar(), ex);
      NotNull(mem, Ix(), C, ex, Ar(), gm, a);
      var psize := ChunkSize(Rd(mem, p + 8));
      HeadDecodes(C[p]);
      var s := p - a + psize;
      SetFreeWithPinuse(a, s, ex, ex);
      dvsize := s;
      Rep1Head(old(C), a, e, false);
    }

    /** Consolidate with a binned free chunk behind p. */
    method FreeWithNext(p: int, a: int, ghost loose: set<int>)
      requires Freeing(p, a, loose) && p + C[p].size in C && !C[p + C[p].size].cinuse && p + C[p].size != dv
      modifies this`mem, this`C, this`dvsize, this`smallmap, this`treemap, this`bins, this`t, this`ch, this`B, this`aborted
      ensures Ready({}) && Live(C) == old(Live(C)) - {p} && Undisturbed(old(mem), mem, Live(C)) && aborted == old(aborted)
      ensures VictimAfter(dv, old(dvsize), top, dv, dvsize, top)
    {
      hide Ready, Undisturbed, Live, A16;
      ghost var m0, L0 := mem, Live(C);
      HeldWords(p, loose);
      var next := p + ChunkSize(Rd(mem, p + 8));
      NextWords(p, a, loose);
      var nsize := ChunkSize(Rd(mem, next + 8));
      var psize := next - a + nsize;
      UnlinkChunk(next, nsize, loose);
      ghost var m1 := mem;
      JoinFree(p, a, next, psize, loose);
      ghost var m2 := mem;
      UndisturbedTwice(m0, m1, m2, L0, Live(C));
      if a != dv {
        InsertChunk(a, psize, {a});
        assert {a} - {a} == {};
        UndisturbedTwice(m0, m2, mem, Live(C), Live(C));
      }
    }

    lemma NextWords(p: int, a: int, loose: set<int>)
      requires Freeing(p, a, loose) && p + C[p].size in C && !C[p + C[p].size].cinuse
      ensures var n := p + C[p].size; ChunkSize(Rd(mem, n + 8)) == C[n].size > 0 && n !in loose && n != a && p < n
      ensures a == dv ==> 0 < dvsize == p - a
    {
      hide Core, A16, Boundary;
      Around(mem, Ix(), C, loose + {dv}, Ar(), gm, p);
      HeadDecodes(C[p + C[p].size]);
      NotNull(mem, Ix(), C, loose + {dv}, Ar(), gm, a);
    }

    /** The chunk from a to the end of the loose one behind p becomes one free chunk; it is dv's if it starts there. */
    method JoinFree(p: int, a: int, ghost next: int, psize: int, ghost loose: set<int>)
      requires Ready(loose + {next}) && Leads(C, Ar(), a, p) && C[a].pinuse && loose == (if a == p || a == dv then {} else {a})
      requires next == p + C[p].size && next in C && !C[next].cinuse && next != dv && next != a && psize == next - a + C[next].size
      modifies this`mem, this`C, this`dvsize
      ensures Ready(if a == dv then {} else {a}) && a in C && !C[a].cinuse && C[a].size == psize
      ensures Live(C) == old(Live(C)) - {p} && Undisturbed(old(mem), mem, Live(C))
      ensures dvsize == if a == dv then psize else old(dvsize)
    {
      hide Core, Undisturbed, Live, LiveOutside, Rep1, AllLoose, Tiled, Tagged, TileOk, Before, Boundary, A16;
      ghost var ex, e, C1 := loose + {next} + {dv}, next + C[next].size, C;
      Around(mem, Ix(), C, ex, Ar(), gm, p);
      CoreTiled(mem, Ix(), C, ex, Ar(), gm);
      Span(C, a, p, e, Ar(), ex);
      EndApart(mem, Ix(), C, ex, Ar(), gm, a, e);
      NotNull(mem, Ix(), C, ex, Ar(), gm, a);
      ghost var ex' := {a} + {dv};
      SetSizeAndPinuseOfFree(a, psize, ex, ex');
      Rep1Head(C1, a, e, false);
      if a == dv {
        dvsize := psize;
        assert {} + {dv} == ex';
      } else {
        Rep1Keeps(C1, a, e, false, dv);
      }
    }

    /** Free p between chunks that stay: its successor is in use. */
    method FreeAlone(p: int, a: int, ghost loose: set<int>)
      requires Freeing(p, a, loose) && p + C[p].size in C && C[p + C[p].size].cinuse && a != dv
      modifies this`mem, this`C, this`smallmap, this`treemap, this`bins, this`t, this`ch, this`B, this`aborted
      ensures Ready({}) && Live(C) == old(Live(C)) - {p} && Undisturbed(old(mem), mem, Live(C)) && aborted == old(aborted)
    {
      hide Core, Undisturbed, Live, LiveOutside, Rep1, AllLoose, Tiled, Tagged, TileOk, Before, Boundary, A16;
      ghost var m0, L0, ex := mem, Live(C), loose + {dv};
      Around(mem, Ix(), C, ex, Ar(), gm, p);
      HeadDecodes(C[p]);
      var psize := p - a + ChunkSize(Rd(mem, p + 8));
      ghost var e, C1 := a + psize, C;
      CoreTiled(mem, Ix(), C, ex, Ar(), gm);
      Span(C, a, p, e, Ar(), ex);
      EndApart(mem, Ix(), C, ex, Ar(), gm, a, e);
      NotNull(mem, Ix(), C, ex, Ar(), gm, a);
      SetFreeWithPinuse(a, psize, ex, {a} + {dv});
      ghost var m1 := mem;
      Rep1Head(C1, a, e, false);
      Rep1Keeps(C1, a, e, false, dv);
      InsertChunk(a, psize, {a});
      assert {a} - {a} == {};
      UndisturbedTwice(m0, m1, mem, Live(C), Live(C));
    }

    /** The forward half of dispose_chunk and dlfree. */
    method ConsolidateForward(p: int, a: int, next: int, ghost loose: set<int>)
      requires Freeing(p, a, loose) && next == p + C[p].size
      requires a == dv && a != p ==> !CInuse(Rd(mem, next + 8))
      modifies this`mem, this`C, this`dv, this`dvsize, this`top, this`topsize
      modifies this`smallmap, this`treemap, this`bins, this`t, this`ch, this`B, this`aborted
      ensures Ready({}) && Live(C) == old(Live(C)) - {p} && Undisturbed(old(mem), mem, Live(C)) && aborted == old(aborted)
      ensures VictimAfter(old(dv), old(dvsize), old(top), dv, dvsize, top)
    {
      hide Core, Undisturbed, Live, Boundary, A16;
      Around(mem, Ix(), C, loose + {dv}, Ar(), gm, p);
      TopDecodes(topsize);
      if next in C { HeadDecodes(C[next]); }
      if !CInuse(Rd(mem, next + 8)) {
        if next == top {
          FreeIntoTop(p, a, loose);
        } else if next == dv {
          FreeIntoDv(p, a, loose);
        } else {
          FreeWithNext(p, a, loose);
        }
      } else {
        FreeAlone(p, a, loose);
      }
    }

    method DisposeChunk(p: int, psize: int)
      requires Ready({}) && p in C && C[p].cinuse && C[p].size == psize && p !in records
      modifies this`mem, this`C, this`dv, this`dvsize, this`top, this`topsize
      modifies this`smallmap, this`treemap, this`bins, this`t, this`ch, this`B, this`aborted
      ensures Ready({}) && Live(C) == old(Live(C)) - {p} && Undisturbed(old(mem), mem, Live(C)) && aborted == old(aborted)
    {
      hide Core, Undisturbed, Live, Boundary, A16;
      ghost var m0, L0 := mem, Live(C);
      Around(mem, Ix(), C, {} + {dv}, Ar(), gm, p);
      HeadDecodes(C[p]);
      UndisturbedSelf(m0, L0);
      LessOne(L0, p);
      var next, a := p + psize, p;
      ghost var loose := {};
      if !PInuse(Rd(mem, p + 8)) {
        a, loose := AbsorbPrevious(p);
        Around(mem, Ix(), C, loose + {dv}, Ar(), gm, p);
        TopDecodes(topsize);
        if next in C { HeadDecodes(C[next]); }
        if a == dv && CInuse(Rd(mem, next + 8)) && PInuse(Rd(mem, next + 8)) {
          ghost var m1 := mem;
          FreeAfterDv(p, a, loose);
          UndisturbedTwice(m0, m1, mem, L0, Live(C));
          return;
        }
      }
      ghost var m1 := mem;
      Check(next >= leastAddr);
      ConsolidateForward(p, a, next, loose);
      UndisturbedTwice(m0, m1, mem, L0, Live(C));
    }

    // -------------------------------------------------------------- dlfree

    /** Chunks the caller may hold: in use and not a segment record. */
    ghost predicate Held(p: int)
      reads this
    {
      p in C && C[p].cinuse && p !in records
    }

    /** The body of dlfree, in terms of chunks. */
    method FreeMem(mp: int)
      requires Ready({}) && (mp != 0 ==> Held(mp - 16))
      modifies this`mem, this`C, this`dv, this`dvsize, this`top, this`topsize
      modifies this`smallmap, this`treemap, this`bins, this`t, this`ch, this`B, this`aborted
      ensures Ready({}) && Undisturbed(old(mem), mem, Live(C)) && aborted == old(aborted)
      ensures Live(C) == if mp == 0 then old(Live(C)) else old(Live(C)) - {mp - 16}
      ensures VictimAfter(old(dv), old(dvsize), old(top), dv, dvsize, top)
    {
      hide Ready, Undisturbed, Live, A16;
      ghost var m0, L0 := mem, Live(C);
      UndisturbedSelf(m0, L0);
      if mp != 0 {
        var p := mp - 16;
        HeldWords(p, {});
        LessOne(L0, p);
        Check(p >= leastAddr && (CInuse(Rd(mem, p + 8)) || !PInuse(Rd(mem, p + 8))));
        var next, a := p + ChunkSize(Rd(mem, p + 8)), p;
        ghost var loose := {};
        if !PInuse(Rd(mem, p + 8)) {
          a, loose := AbsorbPrevious(p);
          HeldWords(p, loose);
          if a == dv && CInuse(Rd(mem, next + 8)) && PInuse(Rd(mem, next + 8)) {
            ghost var m1 := mem;
            FreeAfterDv(p, a, loose);
            UndisturbedTwice(m0, m1, mem, L0, Live(C));
            return;
          }
        }
        ghost var m1 := mem;
        Check(a < next && PInuse(Rd(mem, next + 8)));
        ConsolidateForward(p, a, next, loose);
        UndisturbedTwice(m0, m1, mem, L0, Live(C));
      }
    }

    /** What the head words of a held chunk and of its successor say. */
    lemma HeldWords(p: int, loose: set<int>)
      requires Ready(loose) && Held(p)
      ensures p >= leastAddr && CInuse(Rd(mem, p + 8)) && (PInuse(Rd(mem, p + 8)) <==> C[p].pinuse) && ChunkSize(Rd(mem, p + 8)) == C[p].size >= 32
      ensures var n := p + C[p].size;
              && PInuse(Rd(mem, n + 8)) && (CInuse(Rd(mem, n + 8)) ==> n in C && C[n].cinuse)
    {
      hide Core, A16, Boundary;
      Around(mem, Ix(), C, loose + {dv}, Ar(), gm, p);
      HeadDecodes(C[p]);
      TopDecodes(topsize);
      if p + C[p].size in C { HeadDecodes(C[p + C[p].size]); }
    }

    // -------------------------------------------------------------- taking a free chunk

    /** set_inuse_and_pinuse on a free chunk of exactly s bytes. */
    method UseWhole(v: int, s: int, ghost ex: set<int>, ghost ex': set<int>)
      requires Core(mem, Ix(), C, ex, Ar(), gm) && v in C && !C[v].cinuse && C[v].size == s && v in ex
      requires SameElsewhere(ex, ex', v, v + s)
      modifies this`mem, this`C
      ensures C == Rep1(old(C), v, v + s, true) && Core(mem, Ix(), C, ex', Ar(), gm)
      ensures Live(C) == old(Live(C))[v := s] && Undisturbed(old(mem), mem, old(Live(C)))
    {
      hide Core, Undisturbed, Live, LiveOutside, AllLoose, SetPinuse, Boundary, SameElsewhere, A16;
      ghost var m0, e := mem, v + s;
      FreeBounds(mem, Ix(), C, ex, Ar(), gm, v);
      PinuseWrites(C[e]);
      mem := mem[v + 8 := s + 3];
      mem := mem[v + s + 8 := SetPinuse(Rd(mem, v + s + 8))];
      CoreRep1(m0, mem, Ix(), C, ex, ex', Ar(), gm, v, e, true);
      C := Rep1(C, v, e, true);
    }

    /** set_size_and_pinuse_of_inuse_chunk on the front of a free chunk, set_size_and_pinuse_of_free_chunk on the rest. */
    method UseFront(v: int, s: int, nb: int, ghost ex: set<int>, ghost ex': set<int>)
      requires Core(mem, Ix(), C, ex, Ar(), gm) && v in C && !C[v].cinuse && C[v].size == s && v in ex
      requires A16(nb) && 32 <= nb && nb + 32 <= s && SameElsewhere(ex, ex', v, v + s) && v + nb in ex'
      modifies this`mem, this`C
      ensures C == Rep2(old(C), v, v + nb, v + s, false) && Core(mem, Ix(), C, ex', Ar(), gm)
      ensures Live(C) == old(Live(C))[v := nb] && Undisturbed(old(mem), mem, old(Live(C)))
    {
      hide Core, Undisturbed, Live, LiveOutside, AllLoose, Boundary, SameElsewhere, A16;
      ghost var m0, e := mem, v + s;
      FreeBounds(mem, Ix(), C, ex, Ar(), gm, v);
      var r, rsize := v + nb, s - nb;
      Diff16(v, nb);
      mem := mem[v + 8 := nb + 3];
      mem := mem[r + 8 := rsize + 1];
      mem := mem[r + rsize := rsize];
      CoreRep2(m0, mem, Ix(), C, ex, ex', Ar(), gm, v, r, e, false);
      C := Rep2(C, v, r, e, false);
    }

    /** replace_dv: the old designated victim, which is small here, goes to its bin. */
    method ReplaceDv(r: int, rsize: int)
      requires Ready({r}) && r in C && !C[r].cinuse && C[r].size == rsize && dvsize < 256
      modifies this`mem, this`smallmap, this`bins, this`B, this`aborted, this`dv, this`dvsize
      ensures Ready({}) && aborted == old(aborted) && Undisturbed(old(mem), mem, Live(C)) && dv == r && dvsize == rsize
    {
      hide IndexOk, Tiled, Tagged, TopTagged, FreeExcept, Quiet, Undisturbed, Placed, A16;
      ghost var m0, x0, ex, ex' := mem, Ix(), {r} + {dv}, {} + {r};
      var dvs := dvsize;
      if dvs != 0 {
        var d := dv;
        CoreRoom(m0, x0, C, ex, Ar(), gm, d);
        assert ex - {d} == ex';
        InsertSmallChunk(d, dvs);
        CoreQuiet(m0, mem, x0, Ix(), B, C, ex, ex', Ar(), gm);
      } else {
        if dv != 0 { NotNull(m0, x0, C, ex, Ar(), gm, dv); }
        CoreEx(m0, x0, C, ex, ex', Ar(), gm);
        UndisturbedSelf(mem, Live(C));
      }
      dv := r;
      dvsize := rsize;
    }

    /** The tail of tmalloc_large: split or use up v, binning the remainder. */
    method TakeLarge(v: int, nb: int, rsize: int)
      requires Ready({v}) && v in C && !C[v].cinuse && C[v].size == nb + rsize && A16(nb) && nb >= 32 && rsize >= 0
      modifies this`mem, this`C, this`smallmap, this`treemap, this`bins, this`t, this`ch, this`B, this`aborted
      ensures Ready({}) && aborted == old(aborted) && Undisturbed(old(mem), mem, old(Live(C)))
      ensures Live(C) == old(Live(C))[v := if rsize < 32 then nb + rsize else nb]
    {
      hide Core, Undisturbed, Live, Rep1, Rep2, A16;
      ghost var m0, C0, L0, ex := mem, C, Live(C), {v} + {dv};
      NotNull(mem, Ix(), C, ex, Ar(), gm, v);
      FreeApart(mem, Ix(), C, ex, Ar(), gm, v, dv);
      FreeNotLive(C, v);
      if rsize < 32 {
        UseWhole(v, rsize + nb, ex, {} + {dv});
        Rep1Keeps(C0, v, v + rsize + nb, true, dv);
      } else {
        var r := v + nb;
        UseFront(v, nb + rsize, nb, ex, {r} + {dv});
        Rep2Keeps(C0, v, r, v + nb + rsize, false, dv);
        ghost var m1 := mem;
        InsertChunk(r, rsize, {r});
        assert {r} - {r} == {};
        AlsoKept(m1, mem, L0, Live(C), v);
        UndisturbedTwice(m0, m1, mem, L0, L0);
      }
    }

    /** The tail of tmalloc_small and of the smallbin search: split or use up v, making the remainder the designated victim. */
    method TakeSmallest(v: int, nb: int, rsize: int)
      requires Ready({v}) && v in C && !C[v].cinuse && C[v].size == nb + rsize && A16(nb) && nb >= 32 && rsize >= 0 && dvsize < 256
      modifies this`mem, this`C, this`smallmap, this`bins, this`B, this`aborted, this`dv, this`dvsize
      ensures Ready({}) && aborted == old(aborted) && Undisturbed(old(mem), mem, old(Live(C)))
      ensures Live(C) == old(Live(C))[v := if rsize < 32 then nb + rsize else nb]
      ensures Kept(old(dv), old(dvsize), v, nb, rsize, dv, dvsize)
    {
      hide Core, Undisturbed, Live, Rep1, Rep2, A16;
      ghost var m0, C0, L0, ex := mem, C, Live(C), {v} + {dv};
      NotNull(mem, Ix(), C, ex, Ar(), gm, v);
      FreeApart(mem, Ix(), C, ex, Ar(), gm, v, dv);
      FreeNotLive(C, v);
      if rsize < 32 {
        UseWhole(v, rsize + nb, ex, {} + {dv});
        Rep1Keeps(C0, v, v + rsize + nb, true, dv);
      } else {
        var r := v + nb;
        UseFront(v, nb + rsize, nb, ex, {r} + {dv});
        Rep2Keeps(C0, v, r, v + nb + rsize, false, dv);
        ghost var m1 := mem;
        ReplaceDv(r, rsize);
        AlsoKept(m1, mem, L0, Live(C), v);
        UndisturbedTwice(m0, m1, mem, L0, L0);
      }
    }

    // -------------------------------------------------------------- tmalloc_large, tmalloc_small, smallbins

    /** tmalloc_large: best fit among binned chunks, unless the designated victim fits as well. */
    method TmallocLarge(nb: int) returns (mp: int)
      requires Ready({}) && 256 <= nb < W && A16(nb)
      modifies this`mem, this`C, this`smallmap, this`treemap, this`bins, this`t, this`ch, this`B, this`aborted
      ensures Ready({}) && aborted == old(aborted) && Undisturbed(old(mem), mem, old(Live(C)))
      ensures mp == 0 ==> Live(C) == old(Live(C)) && B == old(B)
      ensures mp == 0 ==> Declined(B, dvsize, false, nb)
      ensures mp != 0 ==> Carved(old(Live(C)), Live(C), mp, nb) && Chosen(old(B), dvsize, false, mp - 16, nb)
    {
      hide Core, Undisturbed, Live, A16, BestFit, Carved;
      ghost var ex := {} + {dv};
      CoreSized(mem, Ix(), C, ex, Ar(), gm);
      CoreStock(mem, Ix(), C, ex, Ar(), gm);
      DvBound(mem, Ix(), C, ex, Ar(), gm, dv);
      var v, rsize := FindBestFit(nb);
      mp := 0;
      if v != 0 && rsize < Sub64(dvsize, nb) {
        BestFits(B, v, nb);
        PlusHeader(v);
        mp := v + 16;
        TakeBest(v, nb, rsize);
      } else {
        UndisturbedSelf(mem, Live(C));
      }
    }

    /** The best fit leaves the trees and is cut to size, its remainder binned. */
    method TakeBest(v: int, nb: int, rsize: int)
      requires Ready({}) && 256 <= nb && A16(nb) && rsize >= 0 && v in B && B[v] == nb + rsize
      modifies this`mem, this`C, this`smallmap, this`treemap, this`bins, this`t, this`ch, this`B, this`aborted
      ensures Ready({}) && aborted == old(aborted) && Undisturbed(old(mem), mem, old(Live(C)))
      ensures Carved(old(Live(C)), Live(C), v + 16, nb)
    {
      hide Ready, Undisturbed, Live, A16, Quiet;
      ghost var m0, L0 := mem, Live(C);
      Stocked(v);
      Check(v >= leastAddr);
      var r := v + nb;
      Check(v < r);
      UnlinkChunk(v, rsize + nb, {});
      assert {} + {v} == {v};
      ghost var m1 := mem;
      TakeLarge(v, nb, rsize);
      UndisturbedTwice(m0, m1, mem, L0, L0);
    }

    lemma ReadyIndexed()
      requires Ready({})
      ensures Indexed() && Sized(mem, B)
    {
      hide Core, IndexOk, Sized;
      CoreSized(mem, Ix(), C, {} + {dv}, Ar(), gm);
      CoreStock(mem, Ix(), C, {} + {dv}, Ar(), gm);
    }

    /** A binned chunk is a free chunk other than dv, aligned and above the least address. */
    lemma Stocked(p: int)
      requires Ready({}) && p in B
      ensures p in C && !C[p].cinuse && C[p].size == B[p] && p != dv && p >= leastAddr && p > 0 && A16(p) && A16(p + 16) && p !in Live(C)
    {
      hide Core, A16, IndexOk, Live;
      CoreStock(mem, Ix(), C, {} + {dv}, Ar(), gm);
      FreeNotLive(C, p);
      PlusHeader(p);
    }

    /** tmalloc_small: the smallest tree-binned chunk, its remainder becoming the designated victim. */
    method TmallocSmall(nb: int) returns (mp: int)
      requires Ready({}) && 32 <= nb < 256 && A16(nb) && NonZero(treemap) && dvsize < nb
      modifies this`mem, this`C, this`smallmap, this`treemap, this`bins, this`t, this`ch, this`B, this`aborted, this`dv, this`dvsize
      ensures Ready({}) && aborted == old(aborted) && Undisturbed(old(mem), mem, old(Live(C)))
      ensures mp != 0 && Carved(old(Live(C)), Live(C), mp, nb) && mp - 16 in old(B) && 256 <= old(B)[mp - 16]
      ensures forall y {:trigger old(B)[y]} :: y in old(B) && 256 <= old(B)[y] ==> old(B)[mp - 16] <= old(B)[y]
      ensures Kept(old(dv), old(dvsize), mp - 16, nb, old(B)[mp - 16] - nb, dv, dvsize)
    {
      hide Ready, Undisturbed, Live, A16, Quiet, IndexOk, Sized;
      ghost var m0, L0 := mem, Live(C);
      ReadyIndexed();
      var v, rsize := FindSmallestLarge(nb);
      Stocked(v);
      Check(v >= leastAddr);
      var r := v + nb;
      Check(v < r);
      UnlinkChunk(v, rsize + nb, {});
      assert {} + {v} == {v};
      ghost var m1 := mem;
      TakeSmallest(v, nb, rsize);
      UndisturbedTwice(m0, m1, mem, L0, L0);
      mp := v + 16;
    }

    /** unlink_first_small_chunk at the level of the whole heap. */
    method TakeFirst(i: int) returns (p: int)
      requires Ready({}) && 0 <= i < 32 && smallmap[i]
      modifies this`mem, this`smallmap, this`bins, this`B, this`aborted
      ensures p in C && !C[p].cinuse && C[p].size == 8 * i && p != dv && p in old(B) && old(B)[p] == 8 * i && A16(p) && p > 0
      ensures Ready({p}) && aborted == old(aborted) && Undisturbed(old(mem), mem, Live(C))
    {
      hide IndexOk, Tiled, Tagged, TopTagged, Quiet, Undisturbed, Placed, A16;
      ghost var m0, x0, ex := mem, Ix(), {} + {dv};
      CoreStock(m0, x0, C, ex, Ar(), gm);
      p := UnlinkFirstSmallChunk(i);
      assert FreeExcept(C, ex) - {p} == FreeExcept(C, {p} + {dv});
      CoreQuiet(m0, mem, x0, Ix(), x0.B, C, ex, {p} + {dv}, Ar(), gm);
    }

    /** Either the loader's zeroed state or a heap between operations. */
    ghost predicate Usable()
      reads this
    {
      if top == 0 then Blank() else Ready({})
    }

    /** The bin searches of a small request. Returns 0 when it is left to the designated victim, top or the system. */
    method SmallFit(nb: int) returns (mp: int)
      requires Usable() && 32 <= nb <= 240 && A16(nb)
      modifies this`mem, this`C, this`smallmap, this`treemap, this`bins, this`t, this`ch, this`B, this`aborted, this`dv, this`dvsize
      ensures Usable() && aborted == old(aborted) && Undisturbed(old(mem), mem, old(Live(C)))
      ensures mp != 0 ==> Carved(old(Live(C)), Live(C), mp, nb)
      ensures mp == 0 ==> Live(C) == old(Live(C)) && B == old(B) && dv == old(dv) && dvsize == old(dvsize) && mem == old(mem)
      ensures mp != 0 ==> top != 0
      ensures mp == 0 ==> Declined(B, dvsize, true, nb)
      ensures mp != 0 ==> Chosen(old(B), old(dvsize), true, mp - 16, nb)
      ensures mp != 0 ==> Kept(old(dv), old(dvsize), mp - 16, nb, old(B)[mp - 16] - nb, dv, dvsize)
    {
      hide Ready, Blank, Undisturbed, Live, LeftBits, LeastBit, Ctz, NonZero, Bit, And, Shr, Bitmap.Shl, BestFit, IndexOk, Carved;
      ghost var m0, L0, x0 := mem, Live(C), Ix();
      UndisturbedSelf(m0, L0);
      UsableBits(nb);
      var idx := nb / 8;
      var smallbits := Shr(smallmap, idx);
      SmallBits(smallmap, idx);
      mp := 0;
      if smallbits[0] || smallbits[1] {
        if !smallbits[0] { idx := idx + 1; }
        mp := UseFirst(idx);
        LowestBin(m0, x0, gm, leastAddr, Limit(), nb, idx, mp - 16);
        ExactSize(m0, x0, gm, leastAddr, Limit(), nb, mp - 16);
        CarvedLess(L0, Live(C), mp, 8 * idx, nb);
      } else if nb > dvsize {
        if NonZero(smallbits) {
          var leftbits := And(Bitmap.Shl(smallbits, idx), LeftBits(Bit(idx)));
          NextSmallBin(smallmap, idx);
          LeastIndex(leftbits);
          var i := Ctz(LeastBit(leftbits));
          mp := SplitFirst(i, nb);
          LowestBin(m0, x0, gm, leastAddr, Limit(), nb, i, mp - 16);
        } else if NonZero(treemap) {
          mp := TmallocSmall(nb);
          LowestTree(m0, x0, gm, leastAddr, Limit(), nb, mp - 16);
        } else if top != 0 {
          NothingFits(mem, Ix(), gm, leastAddr, Limit(), nb);
        }
      } else if top != 0 {
        NoneExact(mem, Ix(), gm, leastAddr, Limit(), nb);
      }
    }

    /** What the maps say of a heap that may still be blank. */
    lemma UsableBits(nb: int)
      requires Usable() && 32 <= nb <= 240
      ensures top != 0 ==> IndexOk(mem, Ix(), gm, leastAddr, Limit())
      ensures top == 0 ==> B == map[] && !NonZero(treemap) && !NonZero(Shr(smallmap, nb / 8)) && !smallmap[nb / 8] && !smallmap[nb / 8 + 1]
    {
      hide Core, IndexOk, NonZero, Shr;
      if top != 0 { CoreStock(mem, Ix(), C, {} + {dv}, Ar(), gm); } else { ZeroBits(nb / 8); }
    }

    /** The first chunk of a small bin is cut to size, its remainder becoming the designated victim. */
    method SplitFirst(i: int, nb: int) returns (mp: int)
      requires Ready({}) && 4 <= i < 32 && smallmap[i] && 32 <= nb <= 8 * i && A16(nb) && dvsize < 256
      modifies this`mem, this`C, this`smallmap, this`bins, this`B, this`aborted, this`dv, this`dvsize
      ensures Ready({}) && aborted == old(aborted) && Undisturbed(old(mem), mem, old(Live(C)))
      ensures mp != 0 && Carved(old(Live(C)), Live(C), mp, nb) && mp - 16 in old(B) && old(B)[mp - 16] == 8 * i
      ensures Kept(old(dv), old(dvsize), mp - 16, nb, 8 * i - nb, dv, dvsize)
    {
      hide Ready, Undisturbed, Live, A16;
      ghost var m0, L0 := mem, Live(C);
      var p := TakeFirst(i);
      ghost var m1 := mem;
      FreeNotLive(C, p);
      TakeSmallest(p, nb, 8 * i - nb);
      UndisturbedTwice(m0, m1, mem, L0, L0);
      PlusHeader(p);
      mp := p + 16;
    }

    /** Remainderless fit: the first chunk of small bin i. */
    method UseFirst(i: int) returns (mp: int)
      requires Ready({}) && 4 <= i < 32 && smallmap[i]
      modifies this`mem, this`C, this`smallmap, this`bins, this`B, this`aborted
      ensures Ready({}) && aborted == old(aborted) && Undisturbed(old(mem), mem, old(Live(C)))
      ensures mp != 0 && Carved(old(Live(C)), Live(C), mp, 8 * i) && Live(C)[mp - 16] == 8 * i
      ensures mp - 16 in old(B) && old(B)[mp - 16] == 8 * i
    {
      hide Core, Undisturbed, Live, Rep1, A16;
      ghost var m0, L0 := mem, Live(C);
      var p := TakeFirst(i);
      ghost var m1 := mem;
      FreeNotLive(C, p);
      FreeApart(mem, Ix(), C, {p} + {dv}, Ar(), gm, p, dv);
      Rep1Keeps(C, p, p + 8 * i, true, dv);
      UseWhole(p, 8 * i, {p} + {dv}, {} + {dv});
      UndisturbedTwice(m0, m1, mem, L0, L0);
      PlusHeader(p);
      mp := p + 16;
    }

    // -------------------------------------------------------------- the designated victim and top

    /** Split or exhaust the designated victim. */
    method FromDv(nb: int) returns (mp: int)
      requires Ready({}) && 32 <= nb <= dvsize && A16(nb)
      modifies this`mem, this`C, this`dv, this`dvsize
      ensures Ready({}) && Undisturbed(old(mem), mem, old(Live(C))) && Carved(old(Live(C)), Live(C), mp, nb)
      ensures mp == old(dv) + 16 && Shortened(old(dv), old(dvsize), nb, dv, dvsize)
    {
      hide Core, Undisturbed, Live, Rep1, Rep2, A16;
      ghost var C0 := C;
      var rsize, p := dvsize - nb, dv;
      NotNull(mem, Ix(), C, {} + {dv}, Ar(), gm, p);
      FreeNotLive(C, p);
      if rsize >= 32 {
        var r := p + nb;
        UseFront(p, dvsize, nb, {} + {dv}, {} + {r});
        Rep2Keeps(C0, p, r, p + dvsize, false, 0);
        dv, dvsize := r, rsize;
      } else {
        UseWhole(p, dvsize, {} + {dv}, {} + {0});
        dvsize := 0;
        dv := 0;
      }
      PlusHeader(p);
      mp := p + 16;
    }

    /** Split top. */
    method FromTop(nb: int) returns (mp: int)
      requires Ready({}) && 32 <= nb < topsize && A16(nb)
      modifies this`mem, this`C, this`top, this`topsize
      ensures Ready({}) && Undisturbed(old(mem), mem, old(Live(C))) && Carved(old(Live(C)), Live(C), mp, nb)
      ensures mp == old(top) + 16 && top == old(top) + nb && topsize == old(topsize) - nb
    {
      hide Intact, Undisturbed, Live, A16;
      ghost var m0 := mem;
      var rsize := topsize - nb;
      var p := top;
      var r := p + nb;
      mem := mem[r + 8 := rsize + 1];
      mem := mem[p + 8 := nb + 3];
      ghost var D := TopCut(m0, mem, Ix(), C, dv, dvsize, Ar(), gm, base, segBase + segSize, nb);
      SetTop(r, rsize, D);
      mp := p + 16;
    }

    // -------------------------------------------------------------- segments

    /** The segment fields of malloc_state describe the first segment of the list. */
    ghost predicate Newest()
      reads this`segs, this`bases, this`sizes, this`segBase, this`segSize, this`segNext
    {
      |bases| > 0 && |sizes| > 0 && bases[0] == segBase && sizes[0] == segSize && segNext == NextOf(segs, 0)
    }

    lemma ListHeld()
      requires SegsOk()
      ensures SegList(mem, C, Ar(), segs, bases, sizes) && Newest()
    {
      hide SegList;
      SegLengths(mem, C, Ar(), segs, bases, sizes);
    }

    ghost predicate SegsOk()
      reads this`mem, this`C, this`leastAddr, this`top, this`topsize, this`heads, this`records, this`granted
      reads this`segs, this`bases, this`sizes, this`segBase, this`segSize, this`segNext
    {
      SegList(mem, C, Ar(), segs, bases, sizes) && bases[0] == segBase && sizes[0] == segSize && segNext == NextOf(segs, 0)
    }

    /** The fields of the segment at sp, which is in malloc_state or in a record chunk. */
    function SegBaseAt(sp: int): int
      reads this
    {
      if sp == gm + SEG then segBase else Rd(mem, sp)
    }

    function SegSizeAt(sp: int): int
      reads this
    {
      if sp == gm + SEG then segSize else Rd(mem, sp + 8)
    }

    function SegNextAt(sp: int): int
      reads this
    {
      if sp == gm + SEG then segNext else Rd(mem, sp + 16)
    }

    /** The pointer to segment k of the list. */
    ghost function SegPtr(k: int): int
      reads this
    {
      if k == 0 then gm + SEG else if 0 < k <= |segs| then segs[k - 1] + 16 else 0
    }

    lemma SegReads(k: int)
      requires Ready({}) && SegsOk() && 0 <= k < |bases|
      ensures SegPtr(k) != 0 && SegBaseAt(SegPtr(k)) == bases[k] && SegSizeAt(SegPtr(k)) == sizes[k] && SegNextAt(SegPtr(k)) == SegPtr(k + 1)
    {
      hide IndexOk, Tiled, Tagged, Owned, A16;
      if k > 0 {
        assert Recorded(mem, C, Ar(), segs, bases, sizes, k - 1);
        RecordAway(mem, Ix(), C, {} + {dv}, Ar(), gm, segs[k - 1]);
      } else {
        GmPositive(mem, Ix(), C, {} + {dv}, Ar(), gm);
      }
    }

    /** The first segment that ends at addr, or none. */
    method FindSegmentEndingAt(addr: int) returns (sp: int, ghost k: int)
      requires Ready({}) && SegsOk()
      ensures sp == 0 ==> forall i {:trigger bases[i]} :: 0 <= i < |bases| ==> bases[i] + sizes[i] != addr
      ensures sp != 0 ==> 0 <= k < |bases| && sp == SegPtr(k) && bases[k] + sizes[k] == addr
      ensures sp != 0 ==> forall i {:trigger bases[i]} :: 0 <= i < k ==> bases[i] + sizes[i] != addr
    {
      hide Core, SegList, A16;
      assert |bases| == |sizes| == |segs| + 1 by { SegLengths(mem, C, Ar(), segs, bases, sizes); }
      sp, k := gm + SEG, 0;
      SegReads(0);
      while sp != 0 && addr != SegBaseAt(sp) + SegSizeAt(sp)
        invariant 0 <= k <= |bases| && sp == SegPtr(k) && (sp == 0 ==> k == |bases|)
        invariant forall i {:trigger bases[i]} :: 0 <= i < k ==> bases[i] + sizes[i] != addr
        decreases |bases| - k
      {
        SegReads(k);
        sp := SegNextAt(sp);
        k := k + 1;
        if k < |bases| { SegReads(k); }
      }
      if sp != 0 { SegReads(k); }
    }

    /** The first segment that starts at addr, or none. */
    method FindSegmentAt(addr: int) returns (sp: int, ghost k: int)
      requires Ready({}) && SegsOk()
      ensures sp == 0 ==> addr !in bases
      ensures sp != 0 ==> 0 <= k < |bases| && sp == SegPtr(k) && bases[k] == addr && addr !in bases[..k]
    {
      hide Core, SegList, A16;
      assert |bases| == |sizes| == |segs| + 1 by { SegLengths(mem, C, Ar(), segs, bases, sizes); }
      sp, k := gm + SEG, 0;
      SegReads(0);
      while sp != 0 && SegBaseAt(sp) != addr
        invariant 0 <= k <= |bases| && sp == SegPtr(k) && (sp == 0 ==> k == |bases|)
        invariant forall i {:trigger bases[i]} :: 0 <= i < k ==> bases[i] != addr
        decreases |bases| - k
      {
        SegReads(k);
        sp := SegNextAt(sp);
        k := k + 1;
        if k < |bases| { SegReads(k); }
      }
      if sp != 0 { SegReads(k); }
    }

    // -------------------------------------------------------------- sys_alloc

    method InitTop(p: int, psize: int)
      requires A16(p) && A16(psize)
      modifies this`mem, this`top, this`topsize
      ensures top == p && topsize == psize && mem == old(mem)[p + 8 := psize + 1][p + psize + 8 := TOP_FOOT]
    {
      var offset := (16 - (p + 16) % 16) % 16;
      var q := p + offset;
      top := q;
      topsize := psize - offset;
      mem := mem[q + 8 := topsize + 1];
      mem := mem[q + topsize + 8 := TOP_FOOT];
    }

    /** A grant right behind the newest segment is appended to it. */
    method AppendGrant(n: int)
      requires Ready({}) && SegsOk() && NewGrant(Ar(), segBase + segSize, n) && n >= TOP_FOOT
      modifies this`mem, this`top, this`topsize, this`segSize, this`granted, this`sizes
      ensures Ready({}) && SegsOk() && top == old(top) && topsize == old(topsize) + n && Undisturbed(old(mem), mem, Live(C))
      ensures granted == old(granted) + Bytes(old(segBase + segSize), n)
    {
      hide Core, SegList, Undisturbed, Live, NewGrant, A16, Bytes;
      ghost var m0, A0, ex, br := mem, Ar(), {} + {dv}, segBase + segSize;
      SegLengths(mem, C, A0, segs, bases, sizes);
      TopFacts(mem, Ix(), C, ex, A0, gm);
      GrantAligned(A0, br, n);
      segSize := segSize + n;
      InitTop(top, topsize + n);
      CoreGrow(m0, mem, Ix(), C, ex, A0, gm, n);
      SegsGrown(m0, mem, C, A0, GrowArena(A0, n), segs, bases, sizes, br, n);
      NoteGrowth(br, n);
    }

    ghost method NoteGrowth(br: int, n: int)
      requires Intact(mem, Ix(), C, {}, dv, dvsize, Ar().(granted := granted + Bytes(br, n)), gm, base, segBase + segSize)
      requires |bases| > 0 && |sizes| > 0 && SegList(mem, C, Ar().(granted := granted + Bytes(br, n)), segs, bases, sizes[0 := segSize])
      requires bases[0] == segBase && segNext == NextOf(segs, 0)
      modifies this`granted, this`sizes
      ensures Ready({}) && SegsOk() && granted == old(granted) + Bytes(br, n)
    {
      hide Intact, Bytes, SegList;
      granted := granted + Bytes(br, n);
      sizes := sizes[0 := segSize];
    }

    /** The chunk half of prepend_alloc, with the head of the new block written: q starts the remainder. */
    ghost predicate Prepending(br: int, n: int, nb: int)
      reads this
    {
      && Ready({}) && NewGrant(Ar(), br, n) && br + n in heads && A16(nb) && nb >= 32 && nb + 32 <= n
      && Rd(mem, br + 8) == nb + 3
    }

    method PrependToTop(br: int, n: int, nb: int)
      requires Prepending(br, n, nb) && br + n == top
      modifies this`mem, this`C, this`top, this`topsize, this`heads, this`granted
      ensures Ready({}) && heads == old(heads) - {br + n} + {br} && granted == old(granted) + Bytes(br, n)
      ensures br !in old(C) && Live(C) == old(Live(C))[br := nb] && Undisturbed(old(mem), mem, old(Live(C)))
    {
      hide Intact, Undisturbed, Live, NewGrant, A16, Bytes;
      ghost var m0 := mem;
      var q, qsize := br + nb, n - nb;
      var tsize := topsize + qsize;
      mem := mem[q + 8 := tsize + 1];
      ghost var D := TopPrepended(m0, mem, Ix(), C, dv, dvsize, Ar(), gm, base, segBase + segSize, br, n, nb, q, tsize);
      MoveTop(q, tsize, D, heads - {br + n} + {br}, granted + Bytes(br, n));
    }

    method MoveTop(q: int, tsize: int, ghost D: Tiling, ghost newHeads: set<int>, ghost newGranted: set<int>)
      requires Intact(mem, Ix(), D, {}, dv, dvsize, Arena(leastAddr, Limit(), q, tsize, newHeads, records, newGranted), gm, base, segBase + segSize)
      modifies this`C, this`top, this`topsize, this`heads, this`granted
      ensures Ready({}) && top == q && topsize == tsize && C == D && heads == newHeads && granted == newGranted
    {
      hide Intact;
      C, heads, granted := D, newHeads, newGranted;
      top := q;
      topsize := tsize;
    }

    method PrependToDv(br: int, n: int, nb: int)
      requires Prepending(br, n, nb) && br + n == dv
      modifies this`mem, this`C, this`dv, this`dvsize, this`heads, this`granted
      ensures Ready({}) && heads == old(heads) - {br + n} + {br} && granted == old(granted) + Bytes(br, n)
      ensures br !in old(C) && Live(C) == old(Live(C))[br := nb] && Undisturbed(old(mem), mem, old(Live(C)))
    {
      hide Core, Undisturbed, Live, NewGrant, A16, Bytes;
      ghost var m0, A0 := mem, Ar();
      GrantPositive(m0, Ix(), C, {} + {dv}, A0, gm, br, n);
      var q, qsize := br + nb, n - nb;
      var dsize := dvsize + qsize;
      mem := mem[q + 8 := dsize + 1];
      mem := mem[q + dsize := dsize];
      C := DvPrepended(m0, mem, Ix(), C, dv, A0, gm, br, n, nb, q, dsize);
      heads, granted := heads - {br + n} + {br}, granted + Bytes(br, n);
      dvsize := dsize;
      dv := q;
      assert Ar() == PrependArena(A0, br, n);
      assert Core(mem, Ix(), C, {} + {dv}, Ar(), gm);
    }

    method PrependToBin(br: int, n: int, nb: int)
      requires Prepending(br, n, nb) && br + n != top && br + n != dv
      modifies this`mem, this`C, this`heads, this`granted, this`smallmap, this`treemap, this`bins, this`t, this`ch, this`B, this`aborted
      ensures Ready({}) && heads == old(heads) - {br + n} + {br} && granted == old(granted) + Bytes(br, n) && aborted == old(aborted)
      ensures br !in old(C) && Live(C) == old(Live(C))[br := nb] && Undisturbed(old(mem), mem, old(Live(C)))
    {
      hide Ready, Undisturbed, Live, NewGrant, A16, Bytes;
      ghost var m0, L0 := mem, Live(C);
      var q := br + nb;
      var oldfirst, loose := AbsorbFirst(br, n, nb);
      ghost var m1 := mem;
      FreeRemainder(br, n, nb, q, oldfirst - q, oldfirst, loose);
      ghost var m2 := mem;
      InsertChunk(q, oldfirst - q, {q});
      assert {q} - {q} == {};
      LiveNew(old(C), br);
      UndisturbedTwice(m0, m1, m2, L0, L0);
      AlsoKept(m2, mem, L0, Live(C), br);
      UndisturbedTwice(m0, m2, mem, L0, L0);
    }

    /** The chunk that followed, taken off its bin if it is free, and where it ends. */
    method AbsorbFirst(br: int, n: int, nb: int) returns (e: int, ghost loose: set<int>)
      requires Prepending(br, n, nb) && br + n != top && br + n != dv
      modifies this`mem, this`smallmap, this`treemap, this`bins, this`t, this`ch, this`B, this`aborted
      ensures Ready(loose) && aborted == old(aborted) && Undisturbed(old(mem), mem, Live(C)) && Rd(mem, br + 8) == nb + 3
      ensures br + n in C && e in C && C[e].cinuse
      ensures if e == br + n then loose == {} else loose == {br + n} && !C[br + n].cinuse && e == br + n + C[br + n].size
    {
      hide Core, Undisturbed, Live, NewGrant, A16;
      e := br + n;
      loose := {};
      HeadBound(mem, Ix(), C, {} + {dv}, Ar(), gm, e);
      HeadDecodes(C[e]);
      if !(CInuse(Rd(mem, e + 8)) || !PInuse(Rd(mem, e + 8))) {
        var nsize := ChunkSize(Rd(mem, e + 8));
        CoreStock(mem, Ix(), C, {} + {dv}, Ar(), gm);
        CoreTiled(mem, Ix(), C, {} + {dv}, Ar(), gm);
        GrantOutside(C, B, Ar(), gm, br, n, br + 8);
        UnlinkChunk(e, nsize, {});
        loose := {} + {e};
        FreeBounds(mem, Ix(), C, loose + {dv}, Ar(), gm, e);
        e := e + nsize;
      } else {
        UndisturbedSelf(mem, Live(C));
      }
    }

    /** set_free_with_pinuse on the remainder of a prepended grant, up to the in-use chunk at e. */
    method FreeRemainder(br: int, n: int, nb: int, q: int, qsize: int, e: int, ghost loose: set<int>)
      requires Ready(loose) && NewGrant(Ar(), br, n) && br + n in heads && A16(nb) && nb >= 32 && nb + 32 <= n && Rd(mem, br + 8) == nb + 3
      requires br + n in C && br + n != dv && q == br + nb && q + qsize == e && e in C && C[e].cinuse
      requires if e == br + n then loose == {} else loose == {br + n} && !C[br + n].cinuse && e == br + n + C[br + n].size
      modifies this`mem, this`C, this`heads, this`granted
      ensures Ready({q}) && heads == old(heads) - {br + n} + {br} && granted == old(granted) + Bytes(br, n)
      ensures q in C && !C[q].cinuse && C[q].size == qsize
      ensures br !in old(C) && Live(C) == old(Live(C))[br := nb] && Undisturbed(old(mem), mem, old(Live(C)))
    {
      hide Intact, Undisturbed, Live, NewGrant, A16, Bytes, ClearPinuse;
      ghost var m0 := mem;
      mem := mem[e + 8 := ClearPinuse(Rd(mem, e + 8))];
      mem := mem[q + 8 := qsize + 1];
      mem := mem[e := qsize];
      ghost var D := RemainderFreed(m0, mem, Ix(), C, dv, dvsize, loose, Ar(), gm, base, segBase + segSize, br, n, nb, q, e);
      Adopt(q, D, heads - {br + n} + {br}, granted + Bytes(br, n));
    }

    /** The tiling D of an arena that has grown, the chunk at q loose. */
    ghost method Adopt(q: int, D: Tiling, newHeads: set<int>, newGranted: set<int>)
      requires Intact(mem, Ix(), D, {q}, dv, dvsize, Ar().(heads := newHeads, granted := newGranted), gm, base, segBase + segSize)
      modifies this`C, this`heads, this`granted
      ensures Ready({q}) && C == D && heads == newHeads && granted == newGranted
    {
      hide Intact;
      C, heads, granted := D, newHeads, newGranted;
    }

    /** The head of the block to be cut from the front of the grant. */
    method HeadFresh(br: int, n: int, nb: int)
      requires Ready({}) && NewGrant(Ar(), br, n) && br + n in heads && n >= 16
      modifies this`mem
      ensures Ready({}) && Rd(mem, br + 8) == nb + 3 && Undisturbed(old(mem), mem, Live(C))
    {
      hide Core, Undisturbed, Live, NewGrant, A16;
      ghost var m0 := mem;
      mem := mem[br + 8 := nb + 3];
      CoreFresh(m0, mem, Ix(), C, {} + {dv}, Ar(), gm, br, n);
    }

    method PrependChunk(br: int, n: int, nb: int)
      requires Ready({}) && NewGrant(Ar(), br, n) && br + n in heads && A16(nb) && nb >= 32 && nb + 32 <= n
      modifies this`mem, this`C, this`top, this`topsize, this`dv, this`dvsize, this`heads, this`granted
      modifies this`smallmap, this`treemap, this`bins, this`t, this`ch, this`B, this`aborted
      ensures Ready({}) && heads == old(heads) - {br + n} + {br} && granted == old(granted) + Bytes(br, n) && aborted == old(aborted)
      ensures br !in old(C) && Live(C) == old(Live(C))[br := nb] && Undisturbed(old(mem), mem, old(Live(C)))
    {
      hide Core, Undisturbed, Live, NewGrant, A16, Ready;
      ghost var m0, L0 := mem, Live(C);
      var oldfirst := br + n;
      HeadFresh(br, n, nb);
      ghost var m1 := mem;
      if oldfirst == top {
        PrependToTop(br, n, nb);
      } else if oldfirst == dv {
        PrependToDv(br, n, nb);
      } else {
        PrependToBin(br, n, nb);
      }
      UndisturbedTwice(m0, m1, mem, L0, L0);
    }

    /** Record that the segment at sp now starts at br, n bytes earlier. */
    method ExtendRecord(sp: int, ghost k: int, br: int, n: int)
      requires Ready({}) && SegsOk() && 0 <= k < |bases| && bases[k] == br + n && sp == SegPtr(k)
      modifies this`mem, this`segBase, this`segSize
      ensures Ready({}) && segBase == (if k == 0 then br else old(segBase)) && segSize == (if k == 0 then old(segSize) + n else old(segSize))
      ensures k == 0 ==> mem == old(mem)
      ensures k > 0 ==> k <= |segs| && Undisturbed(old(mem), mem, Live(C) - {segs[k - 1]}) && Rd(mem, segs[k - 1] + 16) == br
                        && Rd(mem, segs[k - 1] + 24) == sizes[k] + n && Rd(mem, segs[k - 1] + 32) == old(Rd(mem, segs[k - 1] + 32))
    {
      hide Core, Undisturbed, Live, SegList, Recorded, SegmentOk, A16;
      ghost var m0, ex := mem, {} + {dv};
      SegLengths(mem, C, Ar(), segs, bases, sizes);
      SegReads(k);
      SegAtHead(mem, C, Ar(), segs, bases, sizes, k);
      if k > 0 { RecordAway(mem, Ix(), C, ex, Ar(), gm, segs[k - 1]); }
      if sp == gm + SEG {
        segBase := br;
        segSize := segSize + n;
      } else {
        mem := mem[sp := br];
        mem := mem[sp + 8 := Rd(mem, sp + 8) + n];
        CorePayload(m0, mem, Ix(), C, ex, Ar(), gm, segs[k - 1]);
      }
    }

    /** The segment list with segment k reaching down to br. */
    ghost method NoteSegment(m0: Mem, m1: Mem, C0: Tiling, A0: Arena, k: int, br: int, n: int)
      requires SegList(m0, C0, A0, segs, bases, sizes) && 0 <= k < |bases| == |sizes| == |segs| + 1 && NewGrant(A0, br, n) && br + n == bases[k]
      requires heads == A0.heads - {br + n} + {br} && records == A0.records && granted == A0.granted + Bytes(br, n)
      requires br !in C0 && br in Live(C) && Live(C) == Live(C0)[br := Live(C)[br]] && Undisturbed(m1, mem, Live(C0))
      requires if k == 0 then m1 == m0
               else && Undisturbed(m0, m1, Live(C0) - {segs[k - 1]}) && Rd(m1, segs[k - 1] + 16) == br
                    && Rd(m1, segs[k - 1] + 24) == sizes[k] + n && Rd(m1, segs[k - 1] + 32) == Rd(m0, segs[k - 1] + 32)
      requires segBase == (if k == 0 then br else bases[0]) && segSize == (if k == 0 then sizes[0] + n else sizes[0]) && segNext == NextOf(segs, 0)
      modifies this`bases, this`sizes
      ensures SegsOk()
      ensures |bases| == |old(bases)|
    {
      hide SegList, NewGrant, Live, Undisturbed, Bytes;
      SegsPrepended(m0, m1, mem, C0, C, A0, Ar(), segs, bases, sizes, k, br, n);
      bases, sizes := bases[k := br], sizes[k := sizes[k] + n];
    }

    /** sys_alloc's merge with a segment that starts where the grant ends. */
    method PrependAlloc(sp: int, ghost k: int, br: int, n: int, nb: int) returns (mp: int)
      requires Ready({}) && SegsOk() && NewGrant(Ar(), br, n) && A16(nb) && nb >= 32 && nb + 32 <= n
      requires 0 <= k < |bases| && bases[k] == br + n && sp == SegPtr(k)
      modifies this`mem, this`C, this`top, this`topsize, this`dv, this`dvsize, this`heads, this`granted, this`bases, this`sizes
      modifies this`segBase, this`segSize, this`smallmap, this`treemap, this`bins, this`t, this`ch, this`B, this`aborted
      ensures Ready({}) && SegsOk() && aborted == old(aborted) && granted == old(granted) + Bytes(br, n)
      ensures mp == br + 16 && br !in old(C) && Live(C) == old(Live(C))[br := nb]
      ensures Undisturbed(old(mem), mem, old(Live(C)) - records)
      ensures |bases| == |old(bases)|
    {
      hide Ready, SegsOk, Undisturbed, Live, NewGrant, SegList, A16, Bytes;
      ghost var m0, C0, A0, L0 := mem, C, Ar(), Live(C);
      ListIs(k);
      ghost var r := if k == 0 then br else segs[k - 1];
      ExtendRecord(sp, k, br, n);
      ghost var m1 := mem;
      if k == 0 { UndisturbedSelf(m0, L0 - {r}); }
      PrependChunk(br, n, nb);
      LiveNew(C0, br);
      NoteSegment(m0, m1, C0, A0, k, br, n);
      UserKept(m0, m1, mem, L0, r, records);
      mp := br + 16;
    }

    lemma ListIs(k: int)
      requires SegsOk() && 0 <= k < |bases|
      ensures SegList(mem, C, Ar(), segs, bases, sizes) && |bases| == |sizes| == |segs| + 1
      ensures bases[0] == segBase && sizes[0] == segSize && segNext == NextOf(segs, 0) && bases[k] in heads
      ensures k > 0 ==> segs[k - 1] in C && C[segs[k - 1]].cinuse && segs[k - 1] in records
    {
      hide SegList;
      SegLengths(mem, C, Ar(), segs, bases, sizes);
      SegAtHead(mem, C, Ar(), segs, bases, sizes, k);
    }

    /** segment_holding: the segment that contains addr, or none. */
    method SegmentHolding(addr: int) returns (sp: int, ghost k: int)
      requires Ready({}) && SegsOk()
      ensures sp == 0 ==> forall i {:trigger bases[i]} :: 0 <= i < |bases| ==> !(bases[i] <= addr < bases[i] + sizes[i])
      ensures sp != 0 ==> 0 <= k < |bases| && sp == SegPtr(k) && bases[k] <= addr < bases[k] + sizes[k]
    {
      hide Core, SegList, A16;
      assert |bases| == |sizes| == |segs| + 1 by { SegLengths(mem, C, Ar(), segs, bases, sizes); }
      sp, k := gm + SEG, 0;
      SegReads(0);
      while sp != 0 && !(SegBaseAt(sp) <= addr < SegBaseAt(sp) + SegSizeAt(sp))
        invariant 0 <= k <= |bases| && sp == SegPtr(k) && (sp == 0 ==> k == |bases|)
        invariant forall i {:trigger bases[i]} :: 0 <= i < k ==> !(bases[i] <= addr < bases[i] + sizes[i])
        decreases |bases| - k
      {
        SegReads(k);
        sp := SegNextAt(sp);
        k := k + 1;
        if k < |bases| { SegReads(k); }
      }
      if sp != 0 { SegReads(k); }
    }

    /** Top lies in the newest segment and in no other. */
    lemma NewestHoldsTop(k: int)
      requires Ready({}) && SegsOk() && 0 <= k < |bases|
      ensures segBase <= top < segBase + segSize
      ensures bases[k] <= top < bases[k] + sizes[k] ==> k == 0
    {
      hide IndexOk, Tagged, Recorded, A16;
      assert SegmentOk(Ar(), bases, sizes, 0) && Separate(bases, sizes, 0, k);
      assert Starts(C, Ar(), segBase);
      if segBase in C { assert TileOk(C, segBase, Ar()); }
    }

    /** Fenceposts in every head word from p0 to the old end. */
    method PlaceFences(p0: int, oldEnd: int)
      requires p0 + 8 < oldEnd
      modifies this`mem
      ensures forall w {:trigger Rd(mem, w)} :: !(p0 + 8 <= w < oldEnd) ==> Rd(mem, w) == Rd(old(mem), w)
      ensures forall i {:trigger FenceAt(mem, p0, i)} :: 0 <= i && p0 + 8 * i + 8 < oldEnd ==> FenceAt(mem, p0, i)
    {
      var p := p0;
      ghost var m0, k := mem, 0;
      while p + 8 < oldEnd
        invariant p == p0 + 8 * k && k >= 0
        invariant forall w {:trigger Rd(mem, w)} :: !(p0 + 8 <= w < oldEnd) ==> Rd(mem, w) == Rd(m0, w)
        invariant forall i {:trigger FenceAt(mem, p0, i)} :: 0 <= i < k ==> FenceAt(mem, p0, i)
      {
        ghost var m1 := mem;
        mem := mem[p + 8 := FENCEPOST_HEAD];
        forall w | !(p0 + 8 <= w < oldEnd) ensures Rd(mem, w) == Rd(m0, w) { assert Rd(m1, w) == Rd(m0, w); }
        forall i | 0 <= i < k + 1 ensures FenceAt(mem, p0, i) { if i < k { assert FenceAt(m1, p0, i); } }
        p := p + 8;
        k := k + 1;
      }
    }

    /** Push the newest segment's description into a record chunk at sp, and fence off what follows. */
    method PushRecord(sp: int, oldEnd: int, br: int, n: int)
      requires sp + 80 <= oldEnd
      modifies this`mem, this`segBase, this`segSize, this`segNext
      ensures segBase == br && segSize == n && segNext == sp + 16 && Rd(mem, sp + 8) == 48 + 3
      ensures Rd(mem, sp + 16) == old(segBase) && Rd(mem, sp + 24) == old(segSize) && Rd(mem, sp + 32) == old(segNext)
      ensures forall w {:trigger Rd(mem, w)} :: !(sp + 8 <= w < oldEnd) ==> Rd(mem, w) == Rd(old(mem), w)
      ensures forall i {:trigger FenceAt(mem, sp + 48, i)} :: 0 <= i && sp + 48 + 8 * i + 8 < oldEnd ==> FenceAt(mem, sp + 48, i)
    {
      hide FenceAt;
      WriteRecord(sp);
      segBase := br;
      segSize := n;
      segNext := sp + 16;
      ghost var m1 := mem;
      PlaceFences(sp + 48, oldEnd);
      assert Rd(mem, sp + 8) == Rd(m1, sp + 8) && Rd(mem, sp + 16) == Rd(m1, sp + 16);
      assert Rd(mem, sp + 24) == Rd(m1, sp + 24) && Rd(mem, sp + 32) == Rd(m1, sp + 32);
    }

    /** The current segment description, copied into an in-use chunk at sp. */
    method WriteRecord(sp: int)
      modifies this`mem
      ensures Rd(mem, sp + 8) == 48 + 3 && RecordAt(mem, sp, segBase, segSize, segNext)
      ensures forall w {:trigger Rd(mem, w)} :: !(sp + 8 <= w < sp + 48) ==> Rd(mem, w) == Rd(old(mem), w)
    {
      mem := mem[sp + 8 := 48 + 3];
      mem := mem[sp + 16 := segBase];
      mem := mem[sp + 24 := segSize];
      mem := mem[sp + 32 := segNext];
      mem := mem[sp + 40 := 0];
    }

    /** The writes of add_segment: new top, segment record at sp, fenceposts, and the rest of the old top tagged free. */
    method RetireTop(oldTop: int, sp: int, oldEnd: int, br: int, n: int)
      requires A16(br) && A16(n) && n >= 160
      requires (sp == oldTop || oldTop + 32 <= sp) && sp + 80 <= oldEnd && (oldEnd <= br || br + n <= oldTop)
      modifies this`mem, this`top, this`topsize, this`segBase, this`segSize, this`segNext
      ensures top == br && topsize == n - TOP_FOOT && segBase == br && segSize == n && segNext == sp + 16
      ensures Retired(old(mem), mem, oldTop, sp, oldEnd, br, n) && RecordAt(mem, sp, old(segBase), old(segSize), old(segNext))
    {
      hide ClearPinuse;
      PinuseWrites(Chunk(48, true, true));
      ghost var m0, d := mem, sp + 48;
      InitTop(br, n - TOP_FOOT);
      ghost var m1 := mem;
      PushRecord(sp, oldEnd, br, n);
      ghost var m2 := mem;
      assert Rd(m2, br + 8) == Rd(m1, br + 8) && Rd(m2, br + n - TOP_FOOT + 8) == Rd(m1, br + n - TOP_FOOT + 8);
      if sp != oldTop {
        var psize := sp - oldTop;
        mem := mem[sp + 8 := ClearPinuse(Rd(mem, sp + 8))];
        mem := mem[oldTop + 8 := psize + 1];
        mem := mem[sp := psize];
        forall i | 0 <= i && d + 8 * i + 8 < oldEnd ensures FenceAt(mem, d, i) { assert FenceAt(m2, d, i); }
      }
      forall w | !(oldTop + 8 <= w < oldEnd) && w != br + 8 && w != br + n - TOP_FOOT + 8 ensures Rd(mem, w) == Rd(m0, w) {
        assert Rd(m2, w) == Rd(m1, w);
      }
    }

    /** Where add_segment puts the record of the segment that holds top: at its aligned end, or on top itself. */
    method PlaceRecord() returns (sp: int, oldEnd: int)
      requires Ready({}) && SegsOk()
      ensures oldEnd == top + topsize + TOP_FOOT && A16(sp) && (sp == top || top + 32 <= sp) && (oldEnd == sp + 80 || oldEnd == sp + 96)
      ensures sp == if topsize < 32 then top else top + topsize
    {
      hide Core, SegList;
      TopFacts(mem, Ix(), C, {} + {dv}, Ar(), gm);
      SegLengths(mem, C, Ar(), segs, bases, sizes);
      var oldsp;
      ghost var k;
      oldsp, k := SegmentHolding(top);
      NewestHoldsTop(if oldsp == 0 then 0 else k);
      SegReads(0);
      oldEnd := SegBaseAt(oldsp) + SegSizeAt(oldsp);
      var rawsp := oldEnd - (48 + 32 + 15);
      var asp := rawsp + (16 - (rawsp + 16) % 16) % 16;
      RecordPlace(top, topsize, rawsp);
      sp := if asp < top + 32 then top else asp;
    }

    /** The old top closed off and the grant opened as top, the rest of the old top not yet binned. */
    method OpenSegment(sp: int, oldEnd: int, br: int, n: int)
      requires Ready({}) && SegsOk() && NewGrant(Ar(), br, n) && n >= 160
      requires oldEnd == top + topsize + TOP_FOOT && A16(sp) && (sp == top || top + 32 <= sp) && (oldEnd == sp + 80 || oldEnd == sp + 96)
      modifies this`mem, this`C, this`top, this`topsize, this`heads, this`records, this`granted, this`segs, this`bases, this`sizes
      modifies this`segBase, this`segSize, this`segNext
      ensures Ready(if sp == old(top) then {} else {old(top)}) && SegsOk()
      ensures sp != old(top) ==> old(top) in C && !C[old(top)].cinuse && C[old(top)].size == sp - old(top)
      ensures granted == old(granted) + Bytes(br, n) && top == br && topsize == n - TOP_FOOT
      ensures sp !in old(C) && records == old(records) + {sp} && Live(C) == old(Live(C))[sp := 48]
      ensures Undisturbed(old(mem), mem, old(Live(C)))
      ensures bases == [br] + old(bases)
    {
      hide Core, Undisturbed, Live, NewGrant, SegList, Recorded, SegmentOk, Closed, Retired, RecordAt, Bytes, A16;
      ghost var m0, A0, x0, ex := mem, Ar(), Ix(), {} + {dv};
      ghost var oldTop := top;
      SegLengths(mem, C, A0, segs, bases, sizes);
      TopFacts(m0, Ix(), C, ex, A0, gm);
      GrantPositive(m0, Ix(), C, ex, A0, gm, br, n);
      TopOneSideCore(m0, Ix(), C, ex, A0, gm, br, n);
      ClosedFacts(C, oldTop, sp);
      NewestHoldsTop(0);
      RetireTop(top, sp, oldEnd, br, n);
      ghost var ex' := (if sp == oldTop then {} else {oldTop}) + {dv};
      Opened(m0, mem, Ix(), C, ex, ex', A0, gm, sp, br, n, segs, bases, sizes);
      InstallSegment(oldTop, sp, br, n, ex', A0);
    }

    /** The ghost half of OpenSegment. */
    ghost method InstallSegment(oldTop: int, sp: int, br: int, n: int, ex': set<int>, A0: Arena)
      requires A0 == Ar().(top := oldTop, topsize := A0.topsize) && top == br && topsize == n - TOP_FOOT && segBase == br && segSize == n && segNext == sp + 16
      requires base <= leastAddr && DvOk() && dv != oldTop && dv != sp && oldTop > 0 && ex' == (if sp == oldTop then {} else {oldTop}) + {dv}
      requires Core(mem, Ix(), Closed(C, oldTop, sp), ex', CloseArena(A0, sp, br, n), gm)
      requires SegList(mem, Closed(C, oldTop, sp), CloseArena(A0, sp, br, n), [sp] + segs, [br] + bases, [n] + sizes)
      modifies this`C, this`heads, this`records, this`granted, this`segs, this`bases, this`sizes
      ensures Ready(if sp == oldTop then {} else {oldTop}) && SegsOk() && C == Closed(old(C), oldTop, sp)
      ensures records == old(records) + {sp} && granted == old(granted) + Bytes(br, n)
      ensures bases == [br] + old(bases)
    {
      hide Intact, SegList, Closed, Bytes, A16;
      assert Intact(mem, Ix(), Closed(C, oldTop, sp), if sp == oldTop then {} else {oldTop}, dv, dvsize, CloseArena(A0, sp, br, n), gm, base, br + n) by {
        SegmentClosed(mem, Ix(), C, dv, dvsize, A0, gm, base, oldTop, sp, br, n, ex');
      }
      AdoptSegment(oldTop, sp, br, n, A0);
      SetList([sp] + segs, [br] + bases, [n] + sizes);
    }

    ghost method AdoptSegment(oldTop: int, sp: int, br: int, n: int, A0: Arena)
      requires A0 == Ar().(top := oldTop, topsize := A0.topsize) && top == br && topsize == n - TOP_FOOT && segBase == br && segSize == n
      requires Intact(mem, Ix(), Closed(C, oldTop, sp), if sp == oldTop then {} else {oldTop}, dv, dvsize, CloseArena(A0, sp, br, n), gm, base, br + n)
      modifies this`C, this`heads, this`records, this`granted
      ensures Ready(if sp == oldTop then {} else {oldTop}) && C == Closed(old(C), oldTop, sp) && Ar() == CloseArena(A0, sp, br, n)
      ensures records == old(records) + {sp} && granted == old(granted) + Bytes(br, n)
    {
      hide Intact, Closed, Bytes;
      C := Closed(C, oldTop, sp);
      heads, records, granted := heads + {br}, records + {sp}, granted + Bytes(br, n);
      assert Ar() == CloseArena(A0, sp, br, n);
    }

    /** The segment list from the newest segment on. */
    ghost method SetList(newSegs: seq<int>, newBases: seq<int>, newSizes: seq<int>)
      requires SegList(mem, C, Ar(), newSegs, newBases, newSizes) && |newBases| > 0 && |newSizes| > 0
      requires newBases[0] == segBase && newSizes[0] == segSize && segNext == NextOf(newSegs, 0)
      modifies this`segs, this`bases, this`sizes
      ensures SegsOk() && segs == newSegs && bases == newBases && sizes == newSizes
    {
      hide SegList;
      segs, bases, sizes := newSegs, newBases, newSizes;
    }

    /** add_segment: the grant becomes the newest segment; the old top is retired with its record and fenceposts. */
    method AddSegment(br: int, n: int) returns (ghost csp: int)
      requires Ready({}) && SegsOk() && NewGrant(Ar(), br, n) && n >= 160
      modifies this`mem, this`C, this`top, this`topsize, this`heads, this`records, this`granted, this`segs, this`bases, this`sizes
      modifies this`segBase, this`segSize, this`segNext, this`smallmap, this`treemap, this`bins, this`t, this`ch, this`B, this`aborted
      ensures Ready({}) && SegsOk() && aborted == old(aborted) && granted == old(granted) + Bytes(br, n) && top == br && topsize == n - TOP_FOOT
      ensures csp !in old(C) && records == old(records) + {csp} && Live(C) == old(Live(C))[csp := 48]
      ensures Undisturbed(old(mem), mem, old(Live(C)))
      ensures bases == [br] + old(bases)
    {
      hide Ready, SegsOk, Undisturbed, Live, NewGrant, A16, Bytes;
      ghost var m0, C0, L0 := mem, C, Live(C);
      var oldTop := top;
      var sp, oldEnd := PlaceRecord();
      csp := sp;
      OpenSegment(sp, oldEnd, br, n);
      if sp != oldTop {
        ghost var m1 := mem;
        BinOldTop(oldTop, sp - oldTop);
        LiveNew(C0, csp);
        AlsoKept(m1, mem, L0, Live(C), csp);
        UndisturbedTwice(m0, m1, mem, L0, L0);
      }
    }

    /** What is left of the old top is binned. */
    method BinOldTop(p: int, s: int)
      requires Ready({p}) && SegsOk() && p in C && !C[p].cinuse && C[p].size == s
      modifies this`mem, this`smallmap, this`treemap, this`bins, this`t, this`ch, this`B, this`aborted
      ensures Ready({}) && SegsOk() && aborted == old(aborted) && Undisturbed(old(mem), mem, Live(C))
    {
      hide Ready, SegList, Undisturbed, Live;
      ghost var m1 := mem;
      InsertChunk(p, s, {p});
      assert {p} - {p} == {};
      SegsKept(m1, mem, C, C, Ar(), Ar(), segs, bases, sizes);
    }

    // -------------------------------------------------------------- first use

    /** malloc_state as the loader leaves it: all zero. */
    ghost predicate Blank()
      reads this`mem, this`smallmap, this`treemap, this`bins, this`t, this`ch, this`B, this`C, this`dv, this`dvsize
      reads this`leastAddr, this`top, this`topsize, this`heads, this`records, this`granted
    {
      && top == 0 && topsize == 0 && dv == 0 && dvsize == 0 && leastAddr == 0 && Ix() == EmptyIndex()
      && C == map[] && heads == {} && records == {} && granted == {}
      && forall i {:trigger TreeBin(gm, i)} :: 0 <= i < 32 ==> Rd(mem, TreeBin(gm, i)) == 0
    }

    ghost predicate Valid()
      reads this
    {
      && gm > 0 && base > 0 && (gm + STATE_SIZE <= base || Limit() <= gm) && footprint <= maxFootprint
      && if top == 0 then Blank() else Ready({}) && SegsOk()
    }

    method InitBins()
      modifies this`mem
      ensures forall w {:trigger Rd(mem, w)} :: !(gm + 88 <= w < gm + 600) ==> Rd(mem, w) == Rd(old(mem), w)
      ensures forall i {:trigger Header(gm, i)} :: 0 <= i < 32 ==> Fd(mem, Header(gm, i)) == Bk(mem, Header(gm, i)) == Header(gm, i)
    {
      ghost var m0 := mem;
      for i := 0 to 32
        invariant forall w {:trigger Rd(mem, w)} :: !(gm + 88 <= w < gm + 600) ==> Rd(mem, w) == Rd(m0, w)
        invariant forall j {:trigger Header(gm, j)} :: 0 <= j < i ==> Fd(mem, Header(gm, j)) == Bk(mem, Header(gm, j)) == Header(gm, j)
      {
        ghost var m1 := mem;
        var bin := Header(gm, i);
        mem := mem[bin + 24 := bin];
        mem := mem[bin + 16 := bin];
        forall w | !(gm + 88 <= w < gm + 600) ensures Rd(mem, w) == Rd(m0, w) { assert Rd(m1, w) == Rd(m0, w); }
      }
    }

    /** First-time initialization of sys_alloc: one segment, all of it top. */
    method InitHeap(br: int, n: int)
      requires Valid() && top == 0 && base <= br && br + n <= Limit() && A16(br) && A16(n) && n >= 160
      modifies this`mem, this`top, this`topsize, this`leastAddr, this`segBase, this`segSize, this`segNext
      modifies this`heads, this`granted, this`segs, this`bases, this`sizes
      ensures Ready({}) && SegsOk() && top == br && topsize == n - TOP_FOOT && granted == Bytes(br, n)
      ensures bases == [br]
    {
      hide Core, SegList, EmptyIndex, Header, Fd, Bk, A16, Bytes;
      Mod16(n, 0, TOP_FOOT);
      leastAddr := br;
      segBase := br;
      segSize := n;
      segNext := 0;
      ghost var m0 := mem;
      InitBins();
      ghost var m1 := mem;
      InitTop(br, n - TOP_FOOT);
      forall i | 0 <= i < 32 ensures Rd(mem, TreeBin(gm, i)) == 0 { assert Rd(m1, TreeBin(gm, i)) == Rd(m0, TreeBin(gm, i)); }
      FirstSegment(mem, Ar().(heads := {br}, granted := Bytes(br, n)), gm);
      FirstHeads(br, n);
      SetList([], [br], [n]);
    }

    ghost method FirstHeads(br: int, n: int)
      requires Intact(mem, Ix(), C, {}, dv, dvsize, Ar().(heads := {br}, granted := Bytes(br, n)), gm, base, segBase + segSize)
      modifies this`heads, this`granted
      ensures Ready({}) && heads == {br} && granted == Bytes(br, n)
    {
      hide Intact, Bytes;
      heads, granted := {br}, Bytes(br, n);
    }

    /** The blocks callers hold: live chunks other than segment records, with their chunk sizes. */
    ghost function Blocks(): map<int, int>
      reads this
    {
      Live(C) - records
    }

    /** What sbrk may answer to a request of n bytes: nothing (0), or pages of the direct map granted to no one yet. */
    ghost predicate Grantable(br: int, n: int)
      reads this`granted
    {
      br == 0 || (br % 4096 == 0 && n % 4096 == 0 && base <= br && br + n <= Limit() && forall w {:trigger w in granted} :: br <= w < br + n ==> w !in granted)
    }

    /** Nothing came from the system, or exactly the n bytes at br, and the footprint says which. */
    ghost predicate Grew(granted0: set<int>, footprint0: int, br: int, n: int)
      reads this
    {
      || (granted == granted0 && footprint == footprint0)
      || (br != 0 && granted == granted0 + Bytes(br, n) && footprint == footprint0 + n)
    }

    /** Lower least_addr to a new segment. */
    method LowerLeast(tbase: int)
      requires Valid() && top != 0 && base <= tbase
      modifies this`leastAddr
      ensures Valid() && leastAddr <= tbase
    {
      hide Core, SegList, A16;
      if tbase < leastAddr {
        CoreLower(mem, Ix(), C, {} + {dv}, Ar(), gm, tbase);
        UndisturbedSelf(mem, Live(C));
        SegsKept(mem, mem, C, C, Ar(), Ar().(lo := tbase), segs, bases, sizes);
        leastAddr := tbase;
      }
    }

    lemma GrantIsNew(br: int, n: int)
      requires Valid() && top != 0 && Grantable(br, n) && br != 0 && n > 0 && leastAddr <= br
      ensures NewGrant(Ar(), br, n)
    {
      hide Core, SegList, A16;
      Aligned(br, n);
    }

    lemma GrantAbove(br: int, n: int)
      requires Grantable(br, n) && br != 0
      ensures base <= br && A16(br) && A16(n) && br + n <= Limit()
    {
      Aligned(br, n);
    }

    /** A grant that is not behind the newest segment: extend a segment downward or open a new one. */
    method GrowElsewhere(br: int, n: int, nb: int) returns (mp: int)
      requires Valid() && top != 0 && Grantable(br, n) && br != 0 && A16(nb) && nb >= 32 && n >= nb + 96 && n >= 160
      modifies this
      ensures Valid() && top != 0 && aborted == old(aborted) && granted == old(granted) + Bytes(br, n)
      ensures mp == 0 ==> nb < topsize && Blocks() == old(Blocks())
      ensures mp != 0 ==> Carved(old(Blocks()), Blocks(), mp, nb) && mp == br + 16
      ensures Undisturbed(old(mem), mem, old(Blocks()))
      ensures footprint == old(footprint)
      ensures if br + n in old(bases) then mp != 0 && |bases| == |old(bases)| else mp == 0 && top == br && bases == [br] + old(bases)
    {
      hide Core, Undisturbed, Live, SegList, Bytes, NewGrant, Grantable, Ready;
      ghost var m0, C0, L0, R0 := mem, C, Live(C), records;
      GrantAbove(br, n);
      LowerLeast(br);
      GrantIsNew(br, n);
      RecordsLive(mem, C, Ar(), segs, bases, sizes);
      var sp;
      ghost var k;
      sp, k := FindSegmentAt(br + n);
      if sp != 0 {
        mp := PrependAlloc(sp, k, br, n, nb);
        LiveNew(C0, br);
        BlocksPut(L0, R0, br, nb);
        TopPositive();
      } else {
        mp := 0;
        ghost var csp := AddSegment(br, n);
        LiveNew(C0, csp);
        BlocksRecord(L0, R0, csp);
        UndisturbedSub(m0, mem, L0, R0);
      }
    }

    lemma TopPositive()
      requires Ready({})
      ensures top > 0 && topsize > 0
    {
      hide IndexOk, Tagged, A16;
    }

    method Account(n: int)
      requires Valid()
      modifies this`footprint, this`maxFootprint
      ensures Valid() && footprint == old(footprint) + n
    {
      hide Ready, Blank, SegsOk;
      footprint := footprint + n;
      if footprint > maxFootprint { maxFootprint := footprint; }
    }

    /** The merging half of sys_alloc: [br, br + n) joins the heap. A block is returned only by prepend_alloc. */
    method TakeGrant(br: int, n: int, nb: int) returns (mp: int)
      requires Valid() && Grantable(br, n) && br != 0 && A16(nb) && nb >= 32 && n >= nb + 96 && n >= 160
      modifies this
      ensures Valid() && top != 0 && aborted == old(aborted) && granted == old(granted) + Bytes(br, n)
      ensures mp == 0 ==> nb < topsize && Blocks() == old(Blocks())
      ensures mp != 0 ==> Carved(old(Blocks()), Blocks(), mp, nb) && mp == br + 16
      ensures Undisturbed(old(mem), mem, old(Blocks()))
      ensures footprint == old(footprint) + n
      ensures if old(top) == 0 then mp == 0 && top == br && bases == [br]
              else if br == old(segBase + segSize) then mp == 0 && top == old(top) && bases == old(bases)
              else if br + n in old(bases) then mp != 0 && |bases| == |old(bases)|
              else mp == 0 && top == br && bases == [br] + old(bases)
    {
      hide Core, Undisturbed, SegList, Bytes, Carved, NewGrant, Grantable, A16, Ready;
      ghost var m0, L0, R0 := mem, Live(C), records;
      mp := 0;
      Account(n);
      if top == 0 {
        GrantAbove(br, n);
        UndisturbedSelf(m0, L0);
        InitHeap(br, n);
        UndisturbedSub(m0, mem, map[], R0);
        return;
      }
      var sp;
      ghost var k;
      sp, k := FindSegmentEndingAt(br);
      SegLengths(mem, C, Ar(), segs, bases, sizes);
      if sp != 0 { SegReads(k); }
      NewestHoldsTop(if sp == 0 then 0 else k);
      if sp != 0 && SegBaseAt(sp) <= top < SegBaseAt(sp) + SegSizeAt(sp) {
        AboveLeast();
        TopPositive();
        GrantIsNew(br, n);
        AppendGrant(n);
        UndisturbedSub(m0, mem, L0, R0);
      } else {
        mp := GrowElsewhere(br, n, nb);
      }
    }

    lemma AboveLeast()
      requires Ready({}) && SegsOk()
      ensures leastAddr <= segBase + segSize
    {
      hide IndexOk, Tagged, SegList, A16;
    }

    /** sys_alloc, with br what sbrk answers. Out of physical memory the kernel halts, which the model shows as a null result. */
    method SysAlloc(nb: int, br: int) returns (mp: int)
      requires Valid() && 32 <= nb < W && (A16(nb) || nb == W - 1) && Grantable(br, GranularityAlign(nb + 96))
      modifies this
      ensures Valid() && aborted == old(aborted) && Undisturbed(old(mem), mem, old(Blocks()))
      ensures mp == 0 <==> br == 0 || GranularityAlign(nb + 96) <= nb
      ensures mp == 0 ==> Blocks() == old(Blocks()) && mem == old(mem)
      ensures mp != 0 ==> Carved(old(Blocks()), Blocks(), mp, nb)
      ensures mp == 0 ==> granted == old(granted) && footprint == old(footprint)
      ensures mp != 0 ==> granted == old(granted) + Bytes(br, GranularityAlign(nb + 96)) && footprint == old(footprint) + GranularityAlign(nb + 96)
      ensures mp != 0 ==> mp == if old(top) != 0 && br == old(segBase + segSize) then old(top) + 16 else br + 16
      ensures mp != 0 && old(top) != 0 ==>
                |bases| - |old(bases)| == if br == old(segBase + segSize) || br + GranularityAlign(nb + 96) in old(bases) then 0 else 1
    {
      hide Ready, SegsOk, Blank, Undisturbed, Live, Bytes, Carved, A16;
      ghost var m0, K0 := mem, Blocks();
      UndisturbedSelf(m0, K0);
      var asize := GranularityAlign(nb + 96);
      GranularityFacts(nb);
      if asize <= nb || asize >= HALF || br == 0 {
        return 0;
      }
      mp := TakeGrant(br, asize, nb);
      if mp == 0 && nb < topsize {
        ghost var m1 := mem;
        mp := SplitTop(nb);
        UndisturbedTwice(m0, m1, mem, K0, K0);
      }
    }

    /** Split top at the level of blocks and segments. */
    method SplitTop(nb: int) returns (mp: int)
      requires Valid() && top != 0 && 32 <= nb < topsize && A16(nb)
      modifies this`mem, this`C, this`top, this`topsize
      ensures Valid() && top != 0 && mp != 0 && Carved(old(Blocks()), Blocks(), mp, nb) && Undisturbed(old(mem), mem, old(Blocks()))
      ensures mp == old(top) + 16 && top == old(top) + nb && topsize == old(topsize) - nb
    {
      hide Core, Undisturbed, Live, SegList, A16;
      ghost var m0, C0, A0, L0 := mem, C, Ar(), Live(C);
      ListHeld();
      mp := FromTop(nb);
      Settle(m0, C0, A0, L0, mp - 16);
      TopPositive();
    }

    lemma KeepList(m0: Mem, C0: Tiling, A0: Arena)
      requires SegList(m0, C0, A0, segs, bases, sizes) && A0.heads == heads && A0.records == records && A0.granted == granted && Newest()
      requires Live(C) == Live(C0) && Undisturbed(m0, mem, Live(C0))
      ensures SegsOk()
    {
      hide SegList, Undisturbed, Live;
      SegsKept(m0, mem, C0, C, A0, Ar(), segs, bases, sizes);
    }

    /** Blocks and segments after a step that only added live chunk p. */
    lemma Settle(m0: Mem, C0: Tiling, A0: Arena, L0: map<int, int>, p: int)
      requires L0 == Live(C0) && p !in L0 && p in Live(C) && Live(C) == L0[p := Live(C)[p]] && Undisturbed(m0, mem, L0)
      requires SegList(m0, C0, A0, segs, bases, sizes) && A0.heads == heads && A0.records == records && A0.granted == granted
      requires Newest()
      ensures SegList(mem, C, Ar(), segs, bases, sizes) && SegsOk()
      ensures Blocks() == (L0 - records)[p := Live(C)[p]] && p !in L0 - records && Undisturbed(m0, mem, L0 - records)
    {
      hide Undisturbed, SegList, A16;
      RecordsLive(m0, C0, A0, segs, bases, sizes);
      SegsKept(m0, mem, C0, C, A0, Ar(), segs, bases, sizes);
      BlocksPut(L0, records, p, Live(C)[p]);
      UndisturbedSub(m0, mem, L0, records);
    }

    // -------------------------------------------------------------- dlmalloc

    /** The part of dlmalloc that serves a request from smallbins and trees. */
    method FromBins(bytes: int, nb: int) returns (mp: int)
      requires Valid() && 0 <= bytes < MAX_REQUEST && nb == Request2Size(bytes)
      modifies this`mem, this`C, this`smallmap, this`treemap, this`bins, this`t, this`ch, this`B, this`aborted, this`dv, this`dvsize
      ensures Valid() && aborted == old(aborted) && Undisturbed(old(mem), mem, old(Blocks()))
      ensures mp != 0 ==> Carved(old(Blocks()), Blocks(), mp, nb)
      ensures mp == 0 ==> Blocks() == old(Blocks()) && B == old(B) && dv == old(dv) && dvsize == old(dvsize)
      ensures mp == 0 ==> Declined(B, dvsize, bytes <= MAX_SMALL_REQUEST, nb)
      ensures mp != 0 ==> Chosen(old(B), old(dvsize), bytes <= MAX_SMALL_REQUEST, mp - 16, nb)
      ensures mp != 0 ==> if bytes <= MAX_SMALL_REQUEST then Kept(old(dv), old(dvsize), mp - 16, nb, old(B)[mp - 16] - nb, dv, dvsize)
                          else dv == old(dv) && dvsize == old(dvsize)
    {
      hide Undisturbed, Live, SegList, SegsOk, NonZero, EmptyIndex, A16, Chosen, Declined, Kept, Ready, Blank;
      RequestFacts(bytes);
      ghost var m0, C0, A0, L0 := mem, C, Ar(), Live(C);
      if top != 0 { ListHeld(); }
      if bytes <= MAX_SMALL_REQUEST {
        mp := SmallFit(nb);
      } else if NonZero(treemap) {
        TreesUsed();
        mp := TmallocLarge(nb);
      } else {
        mp := 0;
        UndisturbedSelf(m0, L0);
        NoLarge(nb);
      }
      if mp != 0 {
        Settle(m0, C0, A0, L0, mp - 16);
      } else {
        UndisturbedSub(m0, mem, L0, records);
        if top != 0 { KeepList(m0, C0, A0); }
      }
    }

    lemma TreesUsed()
      requires Valid() && NonZero(treemap)
      ensures top != 0
    {
      hide Core, SegList, A16;
      ZeroBits(0);
    }

    lemma NoLarge(nb: int)
      requires Valid() && !NonZero(treemap) && nb >= 256
      ensures Declined(B, dvsize, false, nb)
    {
      hide TreeIndex, Key, SegList, Tiled, Tagged, A16;
      if top != 0 {
        AnyBelowMeans(treemap, 32);
        forall y | y in B ensures B[y] < nb {
          if B[y] >= 256 { LargeIsMapped(mem, Ix(), gm, leastAddr, Limit(), y); }
        }
      }
    }

    /** Split or exhaust the designated victim, at the level of blocks and segments. */
    method SplitDv(nb: int) returns (mp: int)
      requires Valid() && 32 <= nb <= dvsize && A16(nb)
      modifies this`mem, this`C, this`dv, this`dvsize
      ensures Valid() && mp != 0 && Carved(old(Blocks()), Blocks(), mp, nb) && Undisturbed(old(mem), mem, old(Blocks()))
      ensures mp == old(dv) + 16 && Shortened(old(dv), old(dvsize), nb, dv, dvsize)
    {
      hide Core, Undisturbed, Live, SegList, A16;
      ghost var m0, C0, A0, L0 := mem, C, Ar(), Live(C);
      ListHeld();
      mp := FromDv(nb);
      Settle(m0, C0, A0, L0, mp - 16);
    }

    /** The rest of dlmalloc, once the bins have declined: the designated victim, top, or the system. */
    method FromRest(nb: int, br: int, ghost small: bool) returns (mp: int)
      requires Valid() && 32 <= nb < W && (A16(nb) || nb == W - 1) && Grantable(br, GranularityAlign(nb + 96))
      requires nb != W - 1 ==> Declined(B, dvsize, small, nb)
      modifies this
      ensures Valid() && aborted == old(aborted) && Undisturbed(old(mem), mem, old(Blocks()))
      ensures mp == 0 ==> Blocks() == old(Blocks()) && (br == 0 || GranularityAlign(nb + 96) <= nb)
      ensures mp != 0 ==> Carved(old(Blocks()), Blocks(), mp, nb)
      ensures nb == W - 1 && GranularityAlign(nb + 96) <= nb ==> mp == 0
      ensures nb != W - 1 && (granted != old(granted) || mp == 0) ==> NoRoom(old(B), old(dvsize), old(topsize), nb)
      ensures nb != W - 1 ==> Served(old(B), old(dv), old(dvsize), old(top), old(topsize), small, nb, mp - 16)
      ensures nb != W - 1 && !NoRoom(old(B), old(dvsize), old(topsize), nb) ==>
                Remains(old(B), old(dv), old(dvsize), old(top), old(topsize), small, nb, mp - 16, dv, dvsize, top, topsize)
      ensures Grew(old(granted), old(footprint), br, GranularityAlign(nb + 96))
      ensures mp != 0 && nb != W - 1 && NoRoom(old(B), old(dvsize), old(topsize), nb) ==>
                mp == if old(top) != 0 && br == old(segBase + segSize) then old(top) + 16 else br + 16
    {
      hide Ready, SegsOk, Blank, Undisturbed, Live, Bytes, A16, Declined, Shortened, Served, Remains, NoRoom, GranularityAlign, Carved;
      ghost var B0, dv0, dvsize0, top0, topsize0 := B, dv, dvsize, top, topsize;
      SizesBelow();
      Apart();
      if nb <= dvsize {
        mp := SplitDv(nb);
        DvServed(B0, dv0, dvsize0, top, topsize, small, nb, dv, dvsize);
      } else if nb < topsize {
        TopServed(B0, dv0, dvsize0, top, topsize, small, nb);
        mp := SplitTop(nb);
      } else {
        mp := SysAlloc(nb, br);
        if nb != W - 1 { NoneServes(B0, dv0, dvsize0, top0, topsize0, small, nb, mp - 16); }
      }
    }

    /**
     * dlmalloc. The block is fresh, aligned, large enough and less than a minimal chunk too large; nothing any other
     * caller holds changes; no internal check fails; and the system is asked only when nothing the heap has would do.
     */
    method Malloc(bytes: int, br: int) returns (mp: int)
      requires Valid() && 0 <= bytes < W && Grantable(br, GranularityAlign(PaddedSize(bytes) + 96))
      modifies this
      ensures Valid() && aborted == old(aborted) && Undisturbed(old(mem), mem, old(Blocks()))
      ensures mp == 0 ==> Blocks() == old(Blocks()) && (br == 0 || GranularityAlign(PaddedSize(bytes) + 96) <= PaddedSize(bytes))
      ensures mp != 0 ==> Carved(old(Blocks()), Blocks(), mp, PaddedSize(bytes)) && bytes + 8 <= Blocks()[mp - 16]
      ensures bytes >= MAX_REQUEST ==> mp == 0
      ensures granted != old(granted) || mp == 0 ==> NoRoom(old(B), old(dvsize), old(topsize), PaddedSize(bytes)) || bytes >= MAX_REQUEST
      ensures bytes < MAX_REQUEST && mp != 0 ==>
                Served(old(B), old(dv), old(dvsize), old(top), old(topsize), bytes <= MAX_SMALL_REQUEST, PaddedSize(bytes), mp - 16)
      ensures bytes < MAX_REQUEST && !NoRoom(old(B), old(dvsize), old(topsize), PaddedSize(bytes)) ==>
                Remains(old(B), old(dv), old(dvsize), old(top), old(topsize), bytes <= MAX_SMALL_REQUEST, PaddedSize(bytes), mp - 16, dv, dvsize, top, topsize)
      ensures Grew(old(granted), old(footprint), br, GranularityAlign(PaddedSize(bytes) + 96))
      ensures mp != 0 && bytes < MAX_REQUEST && NoRoom(old(B), old(dvsize), old(topsize), PaddedSize(bytes)) ==>
                mp == if old(top) != 0 && br == old(segBase + segSize) then old(top) + 16 else br + 16
    {
      hide Ready, SegsOk, Blank, Undisturbed, Live, Bytes, NonZero, A16, Chosen, Declined, Kept, Shortened, Served, Remains, NoRoom;
      ghost var m0, K0, B0, dv0, dvsize0, small := mem, Blocks(), B, dv, dvsize, bytes <= MAX_SMALL_REQUEST;
      RequestFacts(bytes);
      mp := 0;
      var nb := W - 1;
      if bytes < MAX_REQUEST {
        nb := Request2Size(bytes);
        mp := FromBins(bytes, nb);
        if mp != 0 { ChosenServed(B0, dv0, dvsize0, top, topsize, small, nb, mp - 16, dv, dvsize); }
      } else {
        UndisturbedSelf(m0, K0);
      }
      if mp == 0 {
        ghost var m1 := mem;
        mp := FromRest(nb, br, small);
        TooLarge();
        UndisturbedTwice(m0, m1, mem, K0, K0);
      }
    }

    /** The designated victim, top and the stocked chunks are different chunks. */
    lemma Apart()
      requires Valid()
      ensures dvsize > 0 ==> dv !in B
      ensures topsize > 0 ==> top !in B && dv != top
    {
      hide Core, SegList, A16;
      if top != 0 {
        CoreStock(mem, Ix(), C, {} + {dv}, Ar(), gm);
        TopFacts(mem, Ix(), C, {} + {dv}, Ar(), gm);
      }
    }

    /** The designated victim and top are smaller than any request that pad_request would overflow. */
    lemma SizesBelow()
      requires Valid()
      ensures dvsize < W - 1 && topsize < W - 1 && (topsize != 0 ==> top != 0)
    {
      hide SegList, A16;
      if top != 0 && dv != 0 { DvBound(mem, Ix(), C, {} + {dv}, Ar(), gm, dv); }
    }

    // -------------------------------------------------------------- dlfree at the level of blocks

    /** Blocks and segments after a step that only removed live chunk p. */
    lemma SettleLess(m0: Mem, C0: Tiling, A0: Arena, L0: map<int, int>, p: int)
      requires L0 == Live(C0) && p !in records && Live(C) == L0 - {p} && Undisturbed(m0, mem, L0 - {p})
      requires SegList(m0, C0, A0, segs, bases, sizes) && A0.heads == heads && A0.records == records && A0.granted == granted
      requires Newest()
      ensures SegList(mem, C, Ar(), segs, bases, sizes) && SegsOk()
      ensures Blocks() == (L0 - records) - {p} && Undisturbed(m0, mem, Blocks())
    {
      hide SegmentOk, Separate, A16;
      forall i | 0 <= i < |segs| ensures Recorded(mem, C, Ar(), segs, bases, sizes, i) {
        assert Recorded(m0, C0, A0, segs, bases, sizes, i);
        assert segs[i] in Live(C);
        FieldsKept(m0, mem, L0 - {p}, segs[i]);
      }
      SegmentsSame(A0, Ar(), bases, sizes);
      UndisturbedSub(m0, mem, L0 - {p}, records);
      assert L0 - {p} - records == L0 - records - {p};
    }

    /** dlfree: free(0) does nothing; otherwise exactly the block goes, and every other one keeps its contents. */
    method Free(mp: int)
      requires Valid() && (mp != 0 ==> mp - 16 in Blocks())
      modifies this`mem, this`C, this`dv, this`dvsize, this`top, this`topsize
      modifies this`smallmap, this`treemap, this`bins, this`t, this`ch, this`B, this`aborted
      ensures Valid() && Undisturbed(old(mem), mem, Blocks()) && aborted == old(aborted)
      ensures Blocks() == if mp == 0 then old(Blocks()) else old(Blocks()) - {mp - 16}
      ensures VictimAfter(old(dv), old(dvsize), old(top), dv, dvsize, top)
    {
      hide Undisturbed, SegList, SegsOk, A16, Ready;
      if mp == 0 {
        UndisturbedSelf(mem, Blocks());
        return;
      }
      ghost var m0, C0, A0, L0 := mem, C, Ar(), Live(C);
      ListHeld();
      FreeMem(mp);
      SettleLess(m0, C0, A0, L0, mp - 16);
      TopPositive();
    }

    // -------------------------------------------------------------- splitting chunks in use

    /** set_inuse: keep the pinuse bit, set size and cinuse, and the successor's pinuse bit. */
    method SetInuse(p: int, s: int)
      modifies this`mem
      ensures mem == InuseMem(old(mem), p, s)
    {
      mem := mem[p + 8 := s + 2 + PinuseBit(Rd(mem, p + 8))];
      mem := mem[p + s + 8 := SetPinuse(Rd(mem, p + s + 8))];
    }

    /** Chunk p cut in two in-use chunks at r. */
    method CutInuse(p: int, nb: int, rsize: int)
      requires Ready({}) && Held(p) && A16(nb) && 32 <= nb && 32 <= rsize && nb + rsize == C[p].size
      modifies this`mem, this`C
      ensures Ready({}) && Held(p) && Held(p + nb) && C[p].size == nb && C[p + nb].size == rsize && p + nb !in old(C) && C[p + nb].pinuse
      ensures Live(C) == old(Live(C))[p := nb][p + nb := rsize] && Undisturbed(old(mem), mem, old(Live(C))[p := nb])
    {
      hide Intact, Undisturbed, Live, InuseMem, A16;
      ghost var m0 := mem;
      var r := p + nb;
      SetInuse(p, nb);
      SetInuse(r, rsize);
      C := BlockCut(m0, mem, Ix(), C, dv, dvsize, Ar(), gm, base, segBase + segSize, p, nb, rsize);
    }

    /** The same cut made from the back, as memalign does: the rear chunk is tagged first. */
    method CutInuseBack(p: int, lead: int, rest: int)
      requires Ready({}) && Held(p) && A16(lead) && 32 <= lead && 32 <= rest && lead + rest == C[p].size
      modifies this`mem, this`C
      ensures Ready({}) && Held(p) && Held(p + lead) && C[p].size == lead && C[p + lead].size == rest && p + lead !in old(C) && C[p + lead].pinuse
      ensures Live(C) == old(Live(C))[p := lead][p + lead := rest] && Undisturbed(old(mem), mem, old(Live(C))[p := lead])
    {
      hide Intact, Undisturbed, Live, InuseMem, A16;
      ghost var m0 := mem;
      var r := p + lead;
      SetInuse(r, rest);
      SetInuse(p, lead);
      C := BlockCut(m0, mem, Ix(), C, dv, dvsize, Ar(), gm, base, segBase + segSize, p, lead, rest);
    }

    /** Give back the last rsize bytes of chunk p. */
    method GiveBackTail(p: int, nb: int, rsize: int)
      requires Ready({}) && Held(p) && A16(nb) && 32 <= nb && 32 <= rsize && nb + rsize == C[p].size
      modifies this`mem, this`C, this`dv, this`dvsize, this`top, this`topsize
      modifies this`smallmap, this`treemap, this`bins, this`t, this`ch, this`B, this`aborted
      ensures Ready({}) && aborted == old(aborted) && Live(C) == old(Live(C))[p := nb] && Undisturbed(old(mem), mem, Live(C))
    {
      hide Core, Undisturbed, Live, A16;
      ghost var m0, C0, L0 := mem, C, Live(C);
      CutInuse(p, nb, rsize);
      ghost var m1 := mem;
      LiveNew(C0, p + nb);
      LiveHas(C0, p);
      assert L0[p := nb][p + nb := rsize] - {p + nb} == L0[p := nb];
      DisposeChunk(p + nb, rsize);
      UndisturbedTwice(m0, m1, mem, L0[p := nb], L0[p := nb]);
    }

    /** Give back the first lead bytes of chunk p. */
    method GiveBackLead(p: int, lead: int, rest: int)
      requires Ready({}) && Held(p) && A16(lead) && 32 <= lead && 32 <= rest && lead + rest == C[p].size
      modifies this`mem, this`C, this`dv, this`dvsize, this`top, this`topsize
      modifies this`smallmap, this`treemap, this`bins, this`t, this`ch, this`B, this`aborted
      ensures Ready({}) && aborted == old(aborted) && p + lead !in old(C) && p + lead !in records
      ensures Live(C) == (old(Live(C)) - {p})[p + lead := rest] && Undisturbed(old(mem), mem, old(Live(C)) - {p})
    {
      hide Core, Undisturbed, Live, A16;
      ghost var m0, C0, L0 := mem, C, Live(C);
      CutInuseBack(p, lead, rest);
      ghost var m1 := mem;
      LiveNew(C0, p + lead);
      LiveHas(C0, p);
      assert L0[p := lead][p + lead := rest] - {p} == (L0 - {p})[p + lead := rest];
      DisposeChunk(p, lead);
      AlsoKept(m1, mem, L0 - {p}, Live(C), p + lead);
      UndisturbedTwice(m0, m1, mem, L0[p := lead], L0 - {p});
    }

    // -------------------------------------------------------------- try_realloc_chunk

    /** Extend p into top. */
    method GrowIntoTop(p: int, nb: int)
      requires Ready({}) && Held(p) && p + C[p].size == top && A16(nb) && C[p].size < nb < C[p].size + topsize
      modifies this`mem, this`C, this`top, this`topsize
      ensures Ready({}) && Live(C) == old(Live(C))[p := nb] && Undisturbed(old(mem), mem, old(Live(C)))
      ensures top == p + nb && topsize == old(C)[p].size + old(topsize) - nb
    {
      hide Intact, Undisturbed, Live, SetPinuse, PInuse, A16;
      ghost var m0 := mem;
      HeldWords(p, {});
      var newtopsize := ChunkSize(Rd(mem, p + 8)) + topsize - nb;
      var newtop := p + nb;
      SetInuse(p, nb);
      mem := mem[newtop + 8 := newtopsize + 1];
      ghost var D := TopTaken(m0, mem, Ix(), C, dv, dvsize, Ar(), gm, base, segBase + segSize, p, nb);
      SetTop(newtop, newtopsize, D);
    }

    /** Make [p, e) one in-use chunk, e being the end of the loose free chunk behind p. */
    method MergeWhole(p: int, newsize: int, ghost loose: set<int>, ghost ex': set<int>)
      requires Ready(loose) && Held(p) && p + C[p].size in C && !C[p + C[p].size].cinuse && p + C[p].size in loose + {dv}
      requires newsize == C[p].size + C[p + C[p].size].size && SameElsewhere(loose + {dv}, ex', p, p + newsize)
      modifies this`mem, this`C
      ensures Core(mem, Ix(), C, ex', Ar(), gm) && C == Rep1(old(C), p, p + newsize, true)
      ensures Live(C) == old(Live(C))[p := newsize] && Undisturbed(old(mem), mem, old(Live(C)))
    {
      hide Core, Undisturbed, Live, SetPinuse, PInuse, Rep1, LiveOutside, AllLoose, Boundary, SameElsewhere, A16;
      ghost var m0, L0, ex, e, n := mem, Live(C), loose + {dv}, p + newsize, p + C[p].size;
      Around(mem, Ix(), C, ex, Ar(), gm, p);
      FreeBounds(mem, Ix(), C, ex, Ar(), gm, n);
      HeadDecodes(C[p]);
      PinuseWrites(C[e]);
      CoreTiled(mem, Ix(), C, ex, Ar(), gm);
      Span(C, p, p, e, Ar(), ex);
      LiveHas(C, p);
      SetInuse(p, newsize);
      CoreRep1(m0, mem, Ix(), C, ex, ex', Ar(), gm, p, e, true);
      OwnKept(m0, mem, L0, p, C[p].size);
      assert L0[p := C[p].size] == L0 && (L0 - {p})[p := newsize] == L0[p := newsize];
      C := Rep1(C, p, e, true);
    }

    /** Extend p to nb bytes into the free chunk behind it, in use as well from r on. */
    method MergeCut(p: int, nb: int, rsize: int, ghost n: int)
      requires Ready({n}) && Held(p) && n == p + C[p].size && n in C && !C[n].cinuse && n != dv
      requires C[p].size < nb && A16(nb) && rsize >= 32 && nb + rsize == C[p].size + C[n].size
      modifies this`mem, this`C
      ensures Ready({}) && Held(p + nb) && C[p + nb].size == rsize && p + nb !in old(Live(C))
      ensures Live(C) == old(Live(C))[p := nb][p + nb := rsize] && Undisturbed(old(mem), mem, old(Live(C)))
    {
      hide Intact, Undisturbed, Live, InuseMem, A16;
      ghost var m0 := mem;
      var r := p + nb;
      SetInuse(p, nb);
      SetInuse(r, rsize);
      C := BlockRecut(m0, mem, Ix(), C, dv, dvsize, Ar(), gm, base, segBase + segSize, p, nb, rsize, n);
    }

    /** Extend p into the designated victim. */
    method GrowIntoDv(p: int, nb: int)
      requires Ready({}) && Held(p) && p + C[p].size == dv && A16(nb) && C[p].size < nb <= C[p].size + dvsize
      modifies this`mem, this`C, this`dv, this`dvsize
      ensures Ready({}) && Undisturbed(old(mem), mem, old(Live(C)))
      ensures p in Live(C) && Live(C) == old(Live(C))[p := Live(C)[p]] && nb <= Live(C)[p] < nb + 32
      ensures Lent(old(C)[p].size + old(dvsize), p, nb, dv, dvsize)
    {
      hide Core, Undisturbed, Live, PInuse, CInuse, ChunkSize, SetPinuse, Rep1, A16;
      ghost var C0 := C;
      Around(mem, Ix(), C, {} + {dv}, Ar(), gm, p);
      HeadDecodes(C[p]);
      var oldsize, dvs := ChunkSize(Rd(mem, p + 8)), dvsize;
      var dsize := oldsize + dvs - nb;
      if dsize >= 32 {
        SplitIntoDv(p, nb, dsize);
      } else {
        MergeWhole(p, oldsize + dvs, {}, {} + {0});
        dvsize := 0;
        dv := 0;
      }
    }

    method SplitIntoDv(p: int, nb: int, dsize: int)
      requires Ready({}) && Held(p) && p + C[p].size == dv && A16(nb) && C[p].size < nb && dsize >= 32 && nb + dsize == C[p].size + dvsize
      modifies this`mem, this`C, this`dv, this`dvsize
      ensures Ready({}) && Undisturbed(old(mem), mem, old(Live(C))) && Live(C) == old(Live(C))[p := nb]
      ensures dv == p + nb && dvsize == dsize
    {
      hide Intact, Undisturbed, Live, SetPinuse, PInuse, ClearPinuse, A16;
      ghost var m0 := mem;
      var r := p + nb;
      var n := r + dsize;
      SetInuse(p, nb);
      mem := mem[r + 8 := dsize + 1];
      mem := mem[r + dsize := dsize];
      mem := mem[n + 8 := ClearPinuse(Rd(mem, n + 8))];
      ghost var D := DvSplit(m0, mem, Ix(), C, dv, dvsize, Ar(), gm, base, segBase + segSize, p, nb, dsize);
      SetDv(r, dsize, D);
    }

    lemma HeldSize(p: int)
      requires Ready({}) && p in C
      ensures p > 0 && C[p].size >= 32
    {
      hide Core, A16;
      NotNull(mem, Ix(), C, {} + {dv}, Ar(), gm, p);
    }

    /** The chunk and the loose one behind it become one block. */
    method MergeAll(p: int, newsize: int, ghost next: int)
      requires Ready({next}) && Held(p) && next == p + C[p].size && next in C && !C[next].cinuse && next != dv
      requires newsize == C[p].size + C[next].size
      modifies this`mem, this`C
      ensures Ready({}) && Live(C) == old(Live(C))[p := newsize] && Undisturbed(old(mem), mem, old(Live(C)))
    {
      hide Core, Undisturbed, Live, Rep1, A16;
      NotNull(mem, Ix(), C, {next} + {dv}, Ar(), gm, p);
      NotNull(mem, Ix(), C, {next} + {dv}, Ar(), gm, next);
      SpanInsideDv(mem, Ix(), C, {next} + {dv}, Ar(), gm, p, dv);
      MergeWhole(p, newsize, {next}, {} + {dv});
      Rep1Keeps(old(C), p, p + newsize, true, dv);
    }

    /** Extend p into the binned free chunk behind it. */
    method GrowIntoNext(p: int, nb: int, next: int, nextsize: int)
      requires Ready({}) && Held(p) && next == p + C[p].size && next in C && !C[next].cinuse && next != dv && C[next].size == nextsize
      requires A16(nb) && C[p].size < nb <= C[p].size + nextsize
      modifies this`mem, this`C, this`dv, this`dvsize, this`top, this`topsize
      modifies this`smallmap, this`treemap, this`bins, this`t, this`ch, this`B, this`aborted
      ensures Ready({}) && aborted == old(aborted) && Undisturbed(old(mem), mem, old(Live(C)))
      ensures p in Live(C) && Live(C) == old(Live(C))[p := Live(C)[p]] && nb <= Live(C)[p] < nb + 32
    {
      hide Core, Undisturbed, Live, Rep1, A16, Ready;
      ghost var m0, C0, L0 := mem, C, Live(C);
      var oldsize := next - p;
      var rsize := oldsize + nextsize - nb;
      HeldSize(p);
      UnlinkChunk(next, nextsize, {});
      assert {} + {next} == {next};
      ghost var m1 := mem;
      if rsize < 32 {
        MergeAll(p, oldsize + nextsize, next);
        UndisturbedTwice(m0, m1, mem, L0, L0);
      } else {
        var r := p + nb;
        MergeCut(p, nb, rsize, next);
        ghost var m2 := mem;
        UndisturbedTwice(m0, m1, m2, L0, L0);
        assert L0[p := nb][r := rsize] - {r} == L0[p := nb];
        DisposeChunk(r, rsize);
        LiveHas(C0, p);
        Regrown(m2, mem, L0, p, nb);
        UndisturbedTwice(m0, m2, mem, L0, L0);
      }
    }

    /** try_realloc_chunk with nothing mapped: resize in place, or return 0 with nothing changed. */
    method TryRealloc(p: int, nb: int) returns (newp: int)
      requires Ready({}) && Held(p) && A16(nb) && nb >= 32
      modifies this`mem, this`C, this`dv, this`dvsize, this`top, this`topsize
      modifies this`smallmap, this`treemap, this`bins, this`t, this`ch, this`B, this`aborted
      ensures Ready({}) && aborted == old(aborted) && (newp == 0 || newp == p)
      ensures newp == 0 ==> Live(C) == old(Live(C)) && mem == old(mem) && old(C)[p].size < nb
      ensures newp == 0 <==> Cramped(old(C), old(top), old(topsize), p, nb)
      ensures newp != 0 ==> p in Live(C) && Live(C) == old(Live(C))[p := Live(C)[p]] && nb <= Live(C)[p] < nb + 32
      ensures newp != 0 ==> Undisturbed(old(mem), mem, old(Live(C))[p := Smaller(old(C)[p].size, Live(C)[p])])
      ensures newp == 0 ==> B == old(B) && dvsize == old(dvsize) && topsize == old(topsize)
      ensures newp != 0 ==> Extended(old(C)[p].size, p, nb, old(dv), old(dvsize), old(top), old(topsize), dv, dvsize, top, topsize)
    {
      hide Core, Undisturbed, Live, CInuse, PInuse, ChunkSize, A16;
      ghost var m0, L0 := mem, Live(C);
      Around(mem, Ix(), C, {} + {dv}, Ar(), gm, p);
      HeadDecodes(C[p]);
      TopDecodes(topsize);
      LiveHas(C, p);
      var oldsize := ChunkSize(Rd(mem, p + 8));
      var next := p + oldsize;
      if next in C { HeadDecodes(C[next]); }
      assert L0[p := oldsize] == L0;
      newp := 0;
      Check(p >= leastAddr && (CInuse(Rd(mem, p + 8)) || !PInuse(Rd(mem, p + 8))) && p < next && PInuse(Rd(mem, next + 8)));
      if oldsize >= nb {
        var rsize := oldsize - nb;
        if rsize >= 32 {
          GiveBackTail(p, nb, rsize);
        } else {
          UndisturbedSelf(m0, L0);
        }
        newp := p;
      } else if next == top {
        if oldsize + topsize > nb {
          GrowIntoTop(p, nb);
          newp := p;
        }
      } else if next == dv {
        if oldsize + dvsize >= nb {
          GrowIntoDv(p, nb);
          newp := p;
        }
      } else if !CInuse(Rd(mem, next + 8)) {
        var nextsize := ChunkSize(Rd(mem, next + 8));
        if oldsize + nextsize >= nb {
          GrowIntoNext(p, nb, next, nextsize);
          newp := p;
        }
      }
    }

    // -------------------------------------------------------------- dlrealloc

    /** Segments after a step that keeps the payloads in K, the records among them. */
    lemma SettleRecords(m0: Mem, C0: Tiling, A0: Arena, K: map<int, int>)
      requires SegList(m0, C0, A0, segs, bases, sizes) && A0.heads == heads && A0.records == records && A0.granted == granted
      requires Undisturbed(m0, mem, K)
      requires forall r {:trigger r in records} :: r in records ==> r in K && K[r] == 48 && r in Live(C) && Live(C)[r] == 48
      requires Newest()
      ensures SegList(mem, C, Ar(), segs, bases, sizes) && SegsOk()
    {
      hide SegmentOk, Separate, Undisturbed, A16;
      forall i | 0 <= i < |segs| ensures Recorded(mem, C, Ar(), segs, bases, sizes, i) {
        assert Recorded(m0, C0, A0, segs, bases, sizes, i);
        assert segs[i] in records;
        FieldsKept(m0, mem, K, segs[i]);
      }
      SegmentsSame(A0, Ar(), bases, sizes);
    }

    /** try_realloc_chunk at the level of blocks and segments. */
    method Resize(p: int, nb: int) returns (newp: int)
      requires Valid() && p in Blocks() && A16(nb) && nb >= 32
      modifies this`mem, this`C, this`dv, this`dvsize, this`top, this`topsize
      modifies this`smallmap, this`treemap, this`bins, this`t, this`ch, this`B, this`aborted
      ensures Valid() && aborted == old(aborted) && (newp == 0 || newp == p)
      ensures newp == 0 ==> Blocks() == old(Blocks()) && mem == old(mem) && old(Blocks())[p] < nb
      ensures newp == 0 <==> Cramped(old(C), old(top), old(topsize), p, nb)
      ensures newp != 0 ==> p in Blocks() && Blocks() == old(Blocks())[p := Blocks()[p]] && nb <= Blocks()[p] < nb + 32
      ensures newp != 0 ==> Undisturbed(old(mem), mem, old(Blocks())[p := Smaller(old(Blocks())[p], Blocks()[p])])
      ensures newp == 0 ==> B == old(B) && dvsize == old(dvsize) && topsize == old(topsize)
      ensures newp != 0 ==> Extended(old(C)[p].size, p, nb, old(dv), old(dvsize), old(top), old(topsize), dv, dvsize, top, topsize)
    {
      hide Undisturbed, SegList, SegsOk, Smaller, A16, Cramped, Ready, Extended;
      ghost var m0, C0, A0, L0 := mem, C, Ar(), Live(C);
      ListHeld();
      RecordsLive(m0, C0, A0, segs, bases, sizes);
      newp := TryRealloc(p, nb);
      TopPositive();
      if newp != 0 {
        ghost var s, k := Live(C)[p], Smaller(L0[p], Live(C)[p]);
        SettleRecords(m0, C0, A0, L0[p := k]);
        UndisturbedSub(m0, mem, L0[p := k], records);
        assert L0[p := k] - records == (L0 - records)[p := k];
        assert L0[p := s] - records == (L0 - records)[p := s];
      } else {
        UndisturbedSelf(m0, L0);
        SettleRecords(m0, C0, A0, L0);
      }
    }

    /** A caller may write anything into its own block: the heap stays valid and other blocks keep their contents. */
    method Store(q: int, a: int, v: int)
      requires Valid() && q in Blocks() && a % 8 == 0 && q + 16 <= a < q + Blocks()[q] + 8
      modifies this`mem
      ensures Valid() && mem == old(mem)[a := v] && Blocks() == old(Blocks()) && Undisturbed(old(mem), mem, Blocks() - {q})
    {
      hide Core, Undisturbed, SegList, A16;
      ghost var m0, A0 := mem, Ar();
      ListHeld();
      mem := mem[a := v];
      RecordsLive(m0, C, A0, segs, bases, sizes);
      CorePayload(m0, mem, Ix(), C, {} + {dv}, Ar(), gm, q);
      SettleRecords(m0, C, A0, Live(C) - {q});
      UndisturbedSub(m0, mem, Live(C) - {q}, records);
      assert Live(C) - {q} - records == Live(C) - records - {q};
    }

    /** memcpy of n bytes, a multiple of the word size, to the start of block q. */
    method CopyWords(q: int, src: int, n: int)
      requires Valid() && q in Blocks() && n % 8 == 0 && 0 <= n && q + 16 + n <= q + Blocks()[q] + 8 && A16(q)
      requires src + n <= q + 16 || q + 16 + n <= src
      modifies this`mem
      ensures Valid() && Blocks() == old(Blocks()) && Undisturbed(old(mem), mem, Blocks() - {q})
      ensures WordsMoved(old(mem), mem, src, q + 16, n)
    {
      hide Ready, SegsOk, Blank, Undisturbed, Live, A16;
      ghost var m0, K := mem, Blocks();
      UndisturbedSelf(m0, K - {q});
      var i := 0;
      while 8 * i < n
        invariant 0 <= i && 8 * i <= n && Valid() && Blocks() == K && Undisturbed(m0, mem, K - {q})
        invariant forall w {:trigger Rd(mem, w)} :: !(q + 16 <= w < q + 16 + n) ==> Rd(mem, w) == Rd(m0, w)
        invariant WordsMoved(m0, mem, src, q + 16, 8 * i)
      {
        ghost var m1 := mem;
        EightTimes(q, i);
        assert Rd(mem, src + 8 * i) == Rd(m0, src + 8 * i);
        Store(q, q + 16 + 8 * i, Rd(mem, src + 8 * i));
        UndisturbedTwice(m0, m1, mem, K - {q}, K - {q});
        forall w | !(q + 16 <= w < q + 16 + n) ensures Rd(mem, w) == Rd(m0, w) { assert Rd(m1, w) == Rd(m0, w); }
        WordsMore(m0, m1, mem, src, q + 16, i);
        i := i + 1;
      }
    }

    /** Distinct blocks never overlap, and each starts at a 16-byte boundary. */
    lemma BlocksApart(p: int, q: int)
      requires Valid() && p in Blocks() && q in Blocks()
      ensures A16(p) && A16(Blocks()[p]) && Blocks()[p] >= 32 && p > 0
      ensures p != q ==> p + Blocks()[p] <= q || q + Blocks()[q] <= p
    {
      hide IndexOk, SegList, A16;
      assert TileOk(C, p, Ar()) && Before(C, p, q) && Before(C, q, p);
    }

    /** The moving case of dlrealloc: a new block, the old contents, and the old block freed. */
    method ReallocMove(mp: int, bytes: int, br: int) returns (np: int)
      requires Valid() && 0 <= bytes < MAX_REQUEST && mp - 16 in Blocks() && Blocks()[mp - 16] < Request2Size(bytes)
      requires Grantable(br, GranularityAlign(PaddedSize(bytes) + 96))
      modifies this
      ensures Valid() && aborted == old(aborted)
      ensures np == 0 ==> Blocks() == old(Blocks()) && Undisturbed(old(mem), mem, old(Blocks()))
      ensures np == 0 ==> br == 0 || GranularityAlign(Request2Size(bytes) + 96) <= Request2Size(bytes)
      ensures np != 0 ==> np != mp && Moved(old(mem), mem, old(Blocks()), Blocks(), mp, np, Request2Size(bytes))
      ensures Grew(old(granted), old(footprint), br, GranularityAlign(PaddedSize(bytes) + 96))
      ensures granted != old(granted) || np == 0 ==> NoRoom(old(B), old(dvsize), old(topsize), Request2Size(bytes))
    {
      hide Ready, SegsOk, Blank, Undisturbed, Live, Bytes, WordsMoved, Request2Size, GranularityAlign;
      ghost var m0, K0, p := mem, Blocks(), mp - 16;
      RequestFacts(bytes);
      BlocksApart(p, p);
      np := Malloc(bytes, br);
      ghost var m1 := mem;
      if np != 0 {
        ghost var q, s := np - 16, Blocks()[np - 16];
        BlocksApart(p, q);
        BlocksApart(q, q);
        var oc := BlockSize(mp - 16) - 8;
        var n := if oc < bytes then oc else bytes;
        CopyWords(np - 16, mp, n);
        ghost var m2 := mem;
        Free(mp);
        AfterMove(m0, m1, m2, mem, K0, p, q, s, n);
      }
    }

    /** chunksize(p) of a block, read from its head word. */
    function BlockSize(p: int): (s: int)
      requires Valid() && p in Blocks()
      reads this
      ensures s == Blocks()[p]
    {
      SizeReads(p);
      ChunkSize(Rd(mem, p + 8))
    }

    lemma SizeReads(p: int)
      requires Valid() && p in Blocks()
      ensures ChunkSize(Rd(mem, p + 8)) == Blocks()[p]
    {
      hide IndexOk, SegList, ChunkSize, CInuse, PInuse, A16;
      assert TagAt(mem, C, p) && TileOk(C, p, Ar());
      HeadDecodes(C[p]);
    }

    /** dlrealloc: in place when the neighbourhood allows, else by moving; on failure nothing is lost. */
    method Realloc(mp: int, bytes: int, br: int) returns (np: int)
      requires Valid() && 0 <= bytes < W && (mp != 0 ==> mp - 16 in Blocks()) && Grantable(br, GranularityAlign(PaddedSize(bytes) + 96))
      modifies this
      ensures Valid() && aborted == old(aborted)
      ensures np == 0 ==> Blocks() == old(Blocks()) && Undisturbed(old(mem), mem, old(Blocks()))
      ensures np != 0 && mp == 0 ==> Carved(old(Blocks()), Blocks(), np, Request2Size(bytes)) && Undisturbed(old(mem), mem, old(Blocks()))
      ensures np != 0 && mp != 0 ==> Moved(old(mem), mem, old(Blocks()), Blocks(), mp, np, Request2Size(bytes))
      ensures mp != 0 && bytes < MAX_REQUEST ==> (np == mp <==> !Cramped(old(C), old(top), old(topsize), mp - 16, Request2Size(bytes)))
      ensures np == 0 ==> br == 0 || bytes >= MAX_REQUEST || GranularityAlign(Request2Size(bytes) + 96) <= Request2Size(bytes)
      ensures Grew(old(granted), old(footprint), br, GranularityAlign(PaddedSize(bytes) + 96))
      ensures bytes < MAX_REQUEST && (granted != old(granted) || np == 0) ==> NoRoom(old(B), old(dvsize), old(topsize), Request2Size(bytes))
    {
      hide Ready, SegsOk, Blank, Undisturbed, Live, Bytes, WordsMoved, Request2Size, GranularityAlign, Cramped;
      ghost var m0, K0 := mem, Blocks();
      np := 0;
      if mp == 0 {
        np := Malloc(bytes, br);
      } else if bytes >= MAX_REQUEST {
        UndisturbedSelf(m0, K0);
      } else {
        RequestFacts(bytes);
        BlocksApart(mp - 16, mp - 16);
        var newp := Resize(mp - 16, Request2Size(bytes));
        if newp != 0 {
          np := newp + 16;
          StayedPut(m0, mem, K0, Blocks(), mp - 16);
        } else {
          np := ReallocMove(mp, bytes, br);
        }
      }
    }

    // -------------------------------------------------------------- memalign

    /** GiveBackTail at the level of blocks and segments. */
    method TrimTail(p: int, nb: int, rsize: int)
      requires Valid() && p in Blocks() && A16(nb) && 32 <= nb && 32 <= rsize && nb + rsize == Blocks()[p]
      modifies this`mem, this`C, this`dv, this`dvsize, this`top, this`topsize
      modifies this`smallmap, this`treemap, this`bins, this`t, this`ch, this`B, this`aborted
      ensures Valid() && aborted == old(aborted) && Blocks() == old(Blocks())[p := nb] && Undisturbed(old(mem), mem, Blocks())
    {
      hide Undisturbed, SegList, SegsOk, A16, Ready;
      ghost var m0, C0, A0, L0 := mem, C, Ar(), Live(C);
      ListHeld();
      RecordsLive(m0, C0, A0, segs, bases, sizes);
      GiveBackTail(p, nb, rsize);
      TopPositive();
      SettleRecords(m0, C0, A0, L0[p := nb]);
      UndisturbedSub(m0, mem, L0[p := nb], records);
      assert L0[p := nb] - records == (L0 - records)[p := nb];
    }

    /** GiveBackLead at the level of blocks and segments. */
    method TrimLead(p: int, lead: int, rest: int)
      requires Valid() && p in Blocks() && A16(lead) && 32 <= lead && 32 <= rest && lead + rest == Blocks()[p]
      modifies this`mem, this`C, this`dv, this`dvsize, this`top, this`topsize
      modifies this`smallmap, this`treemap, this`bins, this`t, this`ch, this`B, this`aborted
      ensures Valid() && aborted == old(aborted) && Undisturbed(old(mem), mem, old(Blocks()) - {p})
      ensures p + lead !in old(Blocks()) && Blocks() == (old(Blocks()) - {p})[p + lead := rest]
    {
      hide Undisturbed, SegList, SegsOk, A16, Ready;
      ghost var m0, C0, A0, L0, q := mem, C, Ar(), Live(C), p + lead;
      ListHeld();
      RecordsLive(m0, C0, A0, segs, bases, sizes);
      GiveBackLead(p, lead, rest);
      TopPositive();
      SettleRecords(m0, C0, A0, L0 - {p});
      UndisturbedSub(m0, mem, L0 - {p}, records);
      assert L0 - {p} - records == L0 - records - {p};
      assert (L0 - {p})[q := rest] - records == (L0 - records - {p})[q := rest];
    }

    /** Move the start of a fresh block up to an aligned spot, giving back what precedes it. */
    method AlignStart(alignment: nat, p: int, nb: int) returns (pos: int)
      requires Valid() && p in Blocks() && 32 <= alignment && alignment % 32 == 0 && nb >= 32 && nb + alignment + 32 <= Blocks()[p]
      modifies this`mem, this`C, this`dv, this`dvsize, this`top, this`topsize
      modifies this`smallmap, this`treemap, this`bins, this`t, this`ch, this`B, this`aborted
      ensures Valid() && aborted == old(aborted) && Undisturbed(old(mem), mem, old(Blocks()) - {p})
      ensures (pos + 16) % alignment == 0 && pos !in old(Blocks()) - {p} && pos in Blocks()
      ensures nb <= Blocks()[pos] && Blocks() == (old(Blocks()) - {p})[pos := Blocks()[pos]]
      ensures (p + 16) % alignment == 0 ==> pos == p
      ensures (p + 16) % alignment != 0 ==> p + 32 <= pos && pos - alignment < p + 32
    {
      hide Ready, SegsOk, Blank, Undisturbed, Live;
      BlocksApart(p, p);
      var mp := p + 16;
      pos := p;
      if mp % alignment != 0 {
        var spot := mp + alignment - 1 - (mp + alignment - 1) % alignment - 16;
        AlignSpot(mp, alignment, spot);
        LeadFits(p, alignment, spot);
        pos := if spot - p >= 32 then spot else spot + alignment;
        var leadsize := pos - p;
        var newsize := BlockSize(p) - leadsize;
        TrimLead(p, leadsize, newsize);
      } else {
        UndisturbedSelf(mem, Blocks() - {p});
      }
    }

    /** A block with room for nb bytes at a multiple of the alignment, from a larger one whose front is given back. */
    method AlignedSpace(alignment: nat, nb: int, br: int) returns (p: int)
      requires Valid() && 32 <= nb < W && A16(nb) && 32 <= alignment <= HALF && alignment % 32 == 0 && nb + alignment + 24 < W
      requires Grantable(br, GranularityAlign(PaddedSize(nb + alignment + 24) + 96))
      modifies this
      ensures Valid() && aborted == old(aborted) && Undisturbed(old(mem), mem, old(Blocks()))
      ensures p == 0 ==> Blocks() == old(Blocks()) && (br == 0 || TooBig(nb + alignment + 24))
      ensures p != 0 ==> (p + 16) % alignment == 0 && p !in old(Blocks()) && p in Blocks() && nb <= Blocks()[p] && p > 0
      ensures p != 0 ==> Blocks() == old(Blocks())[p := Blocks()[p]] && Blocks() - {p} == old(Blocks())
      ensures Grew(old(granted), old(footprint), br, GranularityAlign(PaddedSize(nb + alignment + 24) + 96))
      ensures granted != old(granted) || p == 0 ==>
                NoRoom(old(B), old(dvsize), old(topsize), PaddedSize(nb + alignment + 24)) || nb + alignment + 24 >= MAX_REQUEST
    {
      hide Ready, SegsOk, Blank, Undisturbed, Live, Bytes, Request2Size, GranularityAlign, A16, Served, Remains, NoRoom;
      ghost var m0, K0 := mem, Blocks();
      var req := nb + alignment + 32 - 8;
      RequestFacts(req);
      var mp := Malloc(req, br);
      if mp == 0 { return 0; }
      ghost var m1 := mem;
      assert Blocks() - {mp - 16} == K0;
      p := AlignStart(alignment, mp - 16, nb);
      UndisturbedTwice(m0, m1, mem, K0, K0);
    }

    /** Spare room at the end of block p, if it is more than a minimal chunk, is given back. */
    method CutBack(p: int, nb: int)
      requires Valid() && p in Blocks() && A16(nb) && 32 <= nb <= Blocks()[p]
      modifies this`mem, this`C, this`dv, this`dvsize, this`top, this`topsize
      modifies this`smallmap, this`treemap, this`bins, this`t, this`ch, this`B, this`aborted
      ensures Valid() && aborted == old(aborted) && p in Blocks() && Blocks() == old(Blocks())[p := Blocks()[p]]
      ensures Blocks()[p] == if old(Blocks())[p] > nb + 32 then nb else old(Blocks())[p]
      ensures Undisturbed(old(mem), mem, old(Blocks()) - {p})
    {
      hide Ready, SegsOk, Blank, Undisturbed, Live, A16;
      BlocksApart(p, p);
      var size := BlockSize(p);
      ghost var m0, K0 := mem, Blocks();
      if size > nb + 32 {
        TrimTail(p, nb, size - nb);
        UndisturbedSub(m0, mem, K0[p := nb], {p});
        assert K0[p := nb] - {p} == K0 - {p};
      } else {
        UndisturbedSelf(m0, K0 - {p});
      }
    }

    /** internal_memalign for a power-of-two alignment: the block starts at a multiple of it. */
    method Memalign(alignment: nat, bytes: int, br: int) returns (np: int)
      requires Valid() && 0 <= bytes < W && 32 <= alignment <= HALF && alignment % 32 == 0
      requires Grantable(br, MemalignGrant(alignment, bytes))
      modifies this
      ensures Valid() && aborted == old(aborted) && Undisturbed(old(mem), mem, old(Blocks()))
      ensures np == 0 ==> Blocks() == old(Blocks())
      ensures np != 0 ==> np % alignment == 0 && np - 16 !in old(Blocks()) && np - 16 in Blocks()
      ensures np != 0 ==> Blocks() == old(Blocks())[np - 16 := Blocks()[np - 16]]
      ensures np != 0 ==> Request2Size(bytes) <= Blocks()[np - 16] <= Request2Size(bytes) + 32
      ensures np == 0 ==> br == 0 || Unservable(alignment, bytes)
      ensures Grew(old(granted), old(footprint), br, MemalignGrant(alignment, bytes))
      ensures bytes < MAX_REQUEST - alignment && (granted != old(granted) || np == 0) ==>
                NoRoom(old(B), old(dvsize), old(topsize), PaddedSize(Request2Size(bytes) + alignment + 24)) || Request2Size(bytes) + alignment + 24 >= MAX_REQUEST
    {
      hide Ready, SegsOk, Blank, Undisturbed, Live, Bytes, Request2Size, GranularityAlign, A16, NoRoom;
      ghost var m0, K0 := mem, Blocks();
      np := 0;
      if bytes >= MAX_REQUEST - alignment {
        UndisturbedSelf(m0, K0);
        return;
      }
      var nb := Request2Size(bytes);
      RequestFacts(bytes);
      var p := AlignedSpace(alignment, nb, br);
      if p == 0 { return; }
      ghost var m1 := mem;
      CutBack(p, nb);
      UndisturbedTwice(m0, m1, mem, K0, K0);
      np := p + 16;
    }

    /** dlmemalign for any alignment up to 2^63: the block starts at a multiple of the least power of two above it. */
    method AlignedAlloc(alignment: nat, bytes: int, br: int) returns (np: int)
      requires Valid() && 0 <= bytes < W && alignment <= HALF
      requires Grantable(br, AlignedGrant(alignment, bytes))
      modifies this
      ensures Valid() && aborted == old(aborted) && Undisturbed(old(mem), mem, old(Blocks()))
      ensures np == 0 ==> Blocks() == old(Blocks())
      ensures np != 0 ==> np % CeilPow2(alignment) == 0 && np - 16 !in old(Blocks()) && np - 16 in Blocks()
      ensures np != 0 ==> Blocks() == old(Blocks())[np - 16 := Blocks()[np - 16]]
      ensures np != 0 ==> bytes + 8 <= Blocks()[np - 16] <= Request2Size(bytes) + 32
      ensures np == 0 ==> br == 0 || if alignment <= 16 then TooBig(bytes) else Unservable(CeilPow2(alignment), bytes)
      ensures Grew(old(granted), old(footprint), br, AlignedGrant(alignment, bytes))
    {
      hide Ready, SegsOk, Blank, Undisturbed, Live, Bytes, Request2Size, GranularityAlign, CeilPow2, ClearLowest, IsPow2, A16;
      RequestFacts(bytes);
      if alignment <= 16 {
        np := Malloc(bytes, br);
        SmallCeil(alignment, np);
      } else {
        var a := if alignment < 32 then 32 else alignment;
        AlignmentRounds(alignment, a);
        if ClearLowest(a) != 0 {
          a := RoundAlignment(a);
        }
        np := Memalign(a, bytes, br);
      }
    }

    // -------------------------------------------------------------- dlcalloc

    /** memset of a fresh block to zero: every whole word, and the low bytes of the last one. */
    method ClearBlock(q: int, n: int)
      requires Valid() && q in Blocks() && 0 <= n && n + 8 <= Blocks()[q]
      modifies this`mem
      ensures Valid() && Blocks() == old(Blocks()) && Undisturbed(old(mem), mem, Blocks() - {q})
      ensures forall i {:trigger ZeroWord(mem, q + 16, i)} :: 0 <= i && 8 * i + 8 <= n ==> ZeroWord(mem, q + 16, i)
      ensures n % 8 != 0 ==> Rd(mem, q + 16 + n - n % 8) % Octets.Pow256(n % 8) == 0
    {
      hide Ready, SegsOk, Blank, Undisturbed, Live, A16;
      ghost var m0, K, d := mem, Blocks(), q + 16;
      UndisturbedSelf(m0, K - {q});
      BlocksApart(q, q);
      var i := 0;
      while 8 * i + 8 <= n
        invariant 0 <= i && 8 * i <= n && Valid() && Blocks() == K && Undisturbed(m0, mem, K - {q})
        invariant forall j {:trigger ZeroWord(mem, d, j)} :: 0 <= j < i ==> ZeroWord(mem, d, j)
      {
        ghost var m1 := mem;
        EightTimes(q, i);
        Store(q, q + 16 + 8 * i, 0);
        UndisturbedTwice(m0, m1, mem, K - {q}, K - {q});
        forall j | 0 <= j < i + 1 ensures ZeroWord(mem, d, j) { if j < i { assert ZeroWord(m1, d, j); } }
        i := i + 1;
      }
      if 8 * i < n {
        ghost var m1 := mem;
        var a := q + 16 + 8 * i;
        EightTimes(q, i);
        LastWord(n, i);
        var w := Rd(mem, a);
        Store(q, a, w - w % Octets.Pow256(n % 8));
        UndisturbedTwice(m0, m1, mem, K - {q}, K - {q});
        forall j | 0 <= j < i ensures ZeroWord(mem, d, j) { assert ZeroWord(m1, d, j); }
        LowCleared(w, Octets.Pow256(n % 8));
      } else {
        LastWord(n, i);
      }
    }

    /** dlcalloc: never a block smaller than the product, however large the factors, and all of it zero. */
    method Calloc(n: int, size: int, br: int) returns (mp: int)
      requires Valid() && 0 <= n < W && 0 <= size < W && Grantable(br, GranularityAlign(PaddedSize(CallocRequest(n, size)) + 96))
      modifies this
      ensures Valid() && aborted == old(aborted) && Undisturbed(old(mem), mem, old(Blocks()))
      ensures mp == 0 ==> Blocks() == old(Blocks()) && (br == 0 || TooBig(CallocRequest(n, size)))
      ensures mp != 0 ==> mp - 16 !in old(Blocks()) && mp - 16 in Blocks() && Blocks() == old(Blocks())[mp - 16 := Blocks()[mp - 16]]
      ensures mp != 0 ==> n * size + 8 <= Blocks()[mp - 16]
      ensures mp != 0 ==> forall i {:trigger ZeroWord(mem, mp, i)} :: 0 <= i && 8 * i + 8 <= n * size ==> ZeroWord(mem, mp, i)
      ensures mp != 0 ==> var k := (n * size) % 8; k != 0 ==> Rd(mem, mp + n * size - k) % Octets.Pow256(k) == 0
      ensures Grew(old(granted), old(footprint), br, GranularityAlign(PaddedSize(CallocRequest(n, size)) + 96))
      ensures granted != old(granted) || mp == 0 ==>
                NoRoom(old(B), old(dvsize), old(topsize), PaddedSize(CallocRequest(n, size))) || CallocRequest(n, size) >= MAX_REQUEST
    {
      hide Ready, SegsOk, Blank, Undisturbed, Live, Bytes, GranularityAlign, Request2Size, A16;
      ghost var m0, K0 := mem, Blocks();
      CallocFacts(n, size);
      var req := CallocRequest(n, size);
      mp := Malloc(req, br);
      if mp != 0 {
        ghost var m1, K1 := mem, Blocks();
        ClearBlock(mp - 16, req);
        assert K1 - {mp - 16} == K0;
        UndisturbedTwice(m0, m1, mem, K0, K0);
      }
    }
  }

  lemma FirstIsFirst(m: Mem, x: Index, gm: int, lo: int, hi: int, p: int, i: int, k: int)
    requires IndexOk(m, x, gm, lo, hi) && 0 <= i < 32 && 0 <= k < |x.bins[i]| && x.bins[i][k] == p && x.bins[i][0] == p
    ensures k == 0
    ensures forall l {:trigger x.bins[i][l]} :: 0 <= l < |x.bins[i]| ==> x.bins[i][l] != Header(gm, i) && x.bins[i][l] in x.B
  {
    assert BinOk(m, x.sm, x.bins, x.B, gm, i);
    var r := [Header(gm, i)] + x.bins[i];
    if k > 0 { ApartAt(r, 1, k + 1); }
    forall l | 0 <= l < |x.bins[i]| ensures x.bins[i][l] != Header(gm, i) {
      ApartAt(r, 0, l + 1);
    }
  }

  lemma XPlace(B: Stock, gm: int, lo: int, hi: int, x: int, s: int)
    requires Placed(B[x := s], lo, hi, gm) && s >= 256
    ensures x + 256 <= gm || gm + STATE_SIZE <= x
  {
    assert InPlace(B[x := s], x, lo, hi);
  }

  /** The search starts at the root of the class. */
  lemma FirstNode(m: Mem, x: Index, gm: int, lo: int, hi: int, p: int, s: int)
    requires IndexOk(m, x, gm, lo, hi) && p !in x.B && 256 <= s < MAX_SIZE && Placed(x.B[p := s], lo, hi, gm) && Slot(TreeIndex(s), 1) in x.t.pos
    ensures var i := TreeIndex(s);
            var c := x.t.pos[Slot(i, 1)];
            && c in x.t.depth && c >= 0 && Descends(x.t, s, c) && c in x.t.node && Rd(FreshFields(m, p, i), TreeBin(gm, i)) == x.t.node[c]
            && Key(s, i) == ShlN(SizeKey(s), x.t.depth[c])
  {
    hide TreeIndex, Key, SmallOk, NodeOk, RootOk, Vacant, Placed, ChainsOk;
    var i := TreeIndex(s);
    StartDescent(m, x.t, x.B, gm, s);
    RootWord(m, x.t, x.B, gm, lo, hi, i);
    FreshReads(m, p, i, TreeBin(gm, i)) by { XPlace(x.B, gm, lo, hi, p, s); }
  }

  /** What one round of the search finds: the chunk's size, or the next node, or the free place for it. */
  lemma SearchStep(m: Mem, x: Index, gm: int, lo: int, hi: int, p: int, s: int, c: int, k: int)
    requires IndexOk(m, x, gm, lo, hi) && Sized(m, x.B) && p !in x.B && 256 <= s < MAX_SIZE && Placed(x.B[p := s], lo, hi, gm)
    requires c in x.t.depth && Descends(x.t, s, c) && c in x.t.node && k == ShlN(SizeKey(s), x.t.depth[c])
    ensures var tt, m' := x.t.node[c], FreshFields(m, p, TreeIndex(s));
            var b := TopBit(k);
            var w, l, d := ChildAt(tt, b), ChildSize(x.t, c, b), x.t.depth[c] + 1;
            && Far(tt, p) && (ChunkSize(Rd(m', tt + 8)) == s <==> c == s)
            && (c != s && Rd(m', w) != 0 ==> x.t.depth[c] < 64 && l in x.t.depth && l >= 0 && Descends(x.t, s, l) && l in x.t.node && x.t.node[l] == Rd(m', w)
                                             && x.t.depth[l] == d && Trie.Shl(k) == ShlN(SizeKey(s), x.t.depth[l]))
            && (c != s && Rd(m', w) == 0 ==> Vacant(x.t, s, d) && LinkWord(x.t, gm, s, d) == w && ParentWord(x.t, gm, s, d) == tt && w >= lo)
  {
    hide TreeIndex, Key, SmallOk, NodeOk, RootOk, Vacant, Placed, ChainsOk, ChunkSize, ShapeOk, A16;
    var tt := x.t.node[c];
    NodeApart(m, x, gm, lo, hi, c, p, s);
    assert SizedAt(m, x.B, tt);
    FreshReads(m, p, TreeIndex(s), tt + 8);
    if c != s {
      DescentStep(m, x.t, x.B, gm, s, c);
      var b := TopBit(k);
      ChildWord(m, x.t, x.B, gm, lo, hi, c, b);
      FreshReads(m, p, TreeIndex(s), ChildAt(tt, b));
    }
  }

  /** dv names a free chunk of that size, or nothing. */
  ghost predicate DvAt(C: Tiling, dv: int, dvsize: int) {
    if dv == 0 then dvsize == 0 else dv in C && !C[dv].cinuse && C[dv].size == dvsize
  }

  /** The invariant between operations: all free chunks but dv and the loose ones are indexed, and top ends the newest segment. */
  ghost predicate Intact(m: Mem, x: Index, C: Tiling, loose: set<int>, dv: int, dvsize: int, A: Arena, gm: int, base: int, end: int) {
    && Core(m, x, C, loose + {dv}, A, gm)
    && base <= A.lo && DvAt(C, dv, dvsize) && dv !in loose && 0 !in loose
    && A.top + A.topsize + TOP_FOOT == end
  }

  /** A grant in front of dv: cut at nb, the rest and dv becoming one free chunk. */
  lemma DvPrepended(m: Mem, m': Mem, x: Index, C: Tiling, dv: int, A: Arena, gm: int, br: int, n: int, nb: int, q: int, dsize: int) returns (C': Tiling)
    requires Core(m, x, C, {} + {dv}, A, gm) && NewGrant(A, br, n) && br + n in A.heads && A16(nb) && nb >= 32 && nb + 32 <= n
    requires Rd(m, br + 8) == nb + 3 && br + n == dv && dv in C && !C[dv].cinuse && q == br + nb && dsize == C[dv].size + (n - nb)
    requires m' == m[q + 8 := dsize + 1][q + dsize := dsize]
    ensures Core(m', x, C', {} + {q}, PrependArena(A, br, n), gm) && q in C' && !C'[q].cinuse && C'[q].size == dsize
    ensures q > 0 && br !in C && Live(C') == Live(C)[br := nb] && Undisturbed(m, m', Live(C))
  {
    hide Core, Undisturbed, Live, NewGrant, AllLoose, Rep1, LiveOutside, SplitOff, A16;
    var e, A1, ex := q + dsize, PrependArena(A, br, n), {} + {dv};
    var m1, D := m[q + 8 := n - nb + 3], SplitOff(C, br, n, nb);
    GrantPositive(m, x, C, ex, A, gm, br, n);
    HeadBound(m, x, C, ex, A, gm, br + n);
    FreeBounds(m, x, C, ex, A, gm, dv);
    SplitOffFacts(C, br, n, nb);
    CorePrependSplit(m, m1, x, C, ex, A, gm, br, n, nb);
    CoreTiled(m1, x, D, ex, A1, gm);
    Span(D, q, q, e, A1, ex);
    SplitLive(C, br, n, nb);
    TagOf(m1, x, D, ex, A1, gm, e);
    CoreRep1(m1, m', x, D, ex, {} + {q}, A1, gm, q, e, false);
    Rep1Head(D, q, e, false);
    AlsoKept(m1, m', Live(C), Live(C)[br := nb], br);
    UndisturbedTwice(m, m1, m', Live(C), Live(C));
    C' := Rep1(D, q, e, false);
  }

  /** A grant in front of top: cut at nb, the rest joining top. */
  lemma TopPrepended(m: Mem, m': Mem, x: Index, C: Tiling, dv: int, dvsize: int, A: Arena, gm: int, base: int, end: int, br: int, n: int, nb: int, q: int,
                     tsize: int)
    returns (C': Tiling)
    requires Intact(m, x, C, {}, dv, dvsize, A, gm, base, end) && NewGrant(A, br, n) && br + n in A.heads
    requires A16(nb) && nb >= 32 && nb + 32 <= n && Rd(m, br + 8) == nb + 3 && br + n == A.top && q == br + nb && tsize == A.topsize + (n - nb)
    requires m' == m[q + 8 := tsize + 1]
    ensures Intact(m', x, C', {}, dv, dvsize, PrependArena(A, br, n).(top := q, topsize := tsize), gm, base, end)
    ensures br !in C && Live(C') == Live(C)[br := nb] && Undisturbed(m, m', Live(C))
  {
    hide Core, Undisturbed, Live, NewGrant, AllLoose, CutAt, LiveOutside, A16;
    var A1, ex := PrependArena(A, br, n), {} + {dv};
    var m1, D := m[q + 8 := n - nb + 3], SplitOff(C, br, n, nb);
    CorePrependSplit(m, m1, x, C, ex, A, gm, br, n, nb);
    CoreTiled(m1, x, D, ex, A1, gm);
    Span(D, q, q, A.top, A1, ex);
    SplitLive(C, br, n, nb);
    CoreCut(m1, m', x, D, ex, ex, A1, gm, q);
    if dv != 0 {
      assert D[dv] == C[dv];
      CutKeeps(D, q, A.top, dv);
    }
    AlsoKept(m1, m', Live(C), Live(C)[br := nb], br);
    UndisturbedTwice(m, m1, m', Live(C), Live(C));
    assert CutArena(A1, q) == A1.(top := q, topsize := tsize);
    C' := CutAt(D, q, A.top);
  }

  /** A grant in front of another chunk: cut at nb, the rest, and that chunk if it is loose, becoming one free chunk. */
  lemma RemainderFreed(m: Mem, m': Mem, x: Index, C: Tiling, dv: int, dvsize: int, loose: set<int>, A: Arena, gm: int, base: int, end: int,
                       br: int, n: int, nb: int, q: int, e: int)
    returns (C': Tiling)
    requires Intact(m, x, C, loose, dv, dvsize, A, gm, base, end) && NewGrant(A, br, n) && br + n in A.heads
    requires A16(nb) && nb >= 32 && nb + 32 <= n && Rd(m, br + 8) == nb + 3
    requires br + n in C && br + n != dv && q == br + nb && e in C && C[e].cinuse
    requires if e == br + n then loose == {} else loose == {br + n} && !C[br + n].cinuse && e == br + n + C[br + n].size
    requires m' == m[e + 8 := ClearPinuse(Rd(m, e + 8))][q + 8 := e - q + 1][e := e - q]
    ensures Intact(m', x, C', {q}, dv, dvsize, PrependArena(A, br, n), gm, base, end) && q in C' && !C'[q].cinuse && C'[q].size == e - q
    ensures br !in C && Live(C') == Live(C)[br := nb] && Undisturbed(m, m', Live(C))
  {
    hide Core, Undisturbed, Live, NewGrant, AllLoose, Rep1, LiveOutside, ClearPinuse, SplitOff, A16;
    var A1, ex := PrependArena(A, br, n), loose + {dv};
    GrantPositive(m, x, C, ex, A, gm, br, n);
    SplitOffFacts(C, br, n, nb);
    var m1, D := m[q + 8 := n - nb + 3], SplitOff(C, br, n, nb);
    CorePrependSplit(m, m1, x, C, ex, A, gm, br, n, nb);
    CoreTiled(m1, x, D, ex, A1, gm);
    Span(D, q, q, e, A1, ex);
    SplitLive(C, br, n, nb);
    TagOf(m1, x, D, ex, A1, gm, e);
    NotNull(m, x, C, ex, A, gm, br + n);
    PinuseWrites(D[e]);
    CoreRep1(m1, m', x, D, ex, {q} + {dv}, A1, gm, q, e, false);
    Rep1Head(D, q, e, false);
    if dv != 0 {
      assert D[dv] == C[dv];
      Rep1Keeps(D, q, e, false, dv);
    }
    AlsoKept(m1, m', Live(C), Live(C)[br := nb], br);
    UndisturbedTwice(m, m1, m', Live(C), Live(C));
    C' := Rep1(D, q, e, false);
  }

  /** A block takes the front of dv behind it; what is left is the new dv. */
  lemma DvSplit(m: Mem, m': Mem, x: Index, C: Tiling, dv: int, dvsize: int, A: Arena, gm: int, base: int, end: int, p: int, nb: int, dsize: int)
    returns (C': Tiling)
    requires Intact(m, x, C, {}, dv, dvsize, A, gm, base, end) && p in C && C[p].cinuse && p !in A.records && p + C[p].size == dv
    requires A16(nb) && C[p].size < nb && dsize >= 32 && nb + dsize == C[p].size + dvsize
    requires var r := p + nb;
             var m2 := InuseMem(m, p, nb)[r + 8 := dsize + 1][r + dsize := dsize];
             m' == m2[r + dsize + 8 := ClearPinuse(Rd(m2, r + dsize + 8))]
    ensures Intact(m', x, C', {}, p + nb, dsize, A, gm, base, end)
    ensures Undisturbed(m, m', Live(C)) && Live(C') == Live(C)[p := nb]
  {
    hide Core, Undisturbed, Live, SetPinuse, PInuse, Rep2, LiveOutside, AllLoose, Boundary, ClearPinuse, A16;
    var L, ex, r, e := Live(C), {} + {dv}, p + nb, dv + dvsize;
    Around(m, x, C, ex, A, gm, p);
    NotNull(m, x, C, ex, A, gm, p);
    Diff16(p, nb);
    FreeBounds(m, x, C, ex, A, gm, dv);
    HeadDecodes(C[p]);
    PinuseWrites(C[e]);
    CoreTiled(m, x, C, ex, A, gm);
    Span(C, p, p, e, A, ex);
    LiveHas(C, p);
    CoreRep2(m, m', x, C, ex, {} + {r}, A, gm, p, r, e, false);
    Rep2Keeps(C, p, r, e, false, 0);
    OwnKept(m, m', L, p, C[p].size);
    assert L[p := C[p].size] == L && (L - {p})[p := nb] == L[p := nb];
    C' := Rep2(C, p, r, e, false);
  }

  /** The front of top becomes a block. */
  lemma TopCut(m: Mem, m': Mem, x: Index, C: Tiling, dv: int, dvsize: int, A: Arena, gm: int, base: int, end: int, nb: int) returns (C': Tiling)
    requires Intact(m, x, C, {}, dv, dvsize, A, gm, base, end) && 32 <= nb < A.topsize && A16(nb)
    requires m' == m[A.top + nb + 8 := A.topsize - nb + 1][A.top + 8 := nb + 3]
    ensures Intact(m', x, C', {}, dv, dvsize, A.(top := A.top + nb, topsize := A.topsize - nb), gm, base, end)
    ensures Undisturbed(m, m', Live(C)) && Carved(Live(C), Live(C'), A.top + 16, nb)
  {
    hide Core, Undisturbed, Live, EndAt, A16;
    var ex, p, r := {} + {dv}, A.top, A.top + nb;
    TopFacts(m, x, C, ex, A, gm);
    if dv != p { EndKeeps(C, p, r, dv); }
    Diff16(p, nb);
    CoreEnd(m, m', x, C, ex, A, gm, p, r, true);
    PlusHeader(p);
    assert EndArena(A, r) == A.(top := r, topsize := A.topsize - nb);
    C' := EndAt(C, p, r, true);
  }

  /** A block takes the front of top behind it. */
  lemma TopTaken(m: Mem, m': Mem, x: Index, C: Tiling, dv: int, dvsize: int, A: Arena, gm: int, base: int, end: int, p: int, nb: int) returns (C': Tiling)
    requires Intact(m, x, C, {}, dv, dvsize, A, gm, base, end) && p in C && C[p].cinuse && p !in A.records && p + C[p].size == A.top
    requires A16(nb) && C[p].size < nb < C[p].size + A.topsize
    requires m' == InuseMem(m, p, nb)[p + nb + 8 := C[p].size + A.topsize - nb + 1]
    ensures Intact(m', x, C', {}, dv, dvsize, A.(top := p + nb, topsize := C[p].size + A.topsize - nb), gm, base, end)
    ensures Live(C') == Live(C)[p := nb] && Undisturbed(m, m', Live(C))
  {
    hide Core, Undisturbed, Live, EndAt, SetPinuse, PInuse, A16;
    var ex, r := {} + {dv}, p + nb;
    Around(m, x, C, ex, A, gm, p);
    NotNull(m, x, C, ex, A, gm, p);
    Diff16(p, nb);
    HeadDecodes(C[p]);
    CoreEnd(m, m', x, C, ex, A, gm, p, r, C[p].pinuse);
    EndKeepsAny(C, p, r, C[p].pinuse, dv);
    assert EndArena(A, r) == A.(top := r, topsize := C[p].size + A.topsize - nb);
    C' := EndAt(C, p, r, C[p].pinuse);
  }

  /** Once its top is closed off, the old segment is intact beside the new one. */
  lemma SegmentClosed(m: Mem, x: Index, C: Tiling, dv: int, dvsize: int, A: Arena, gm: int, base: int, oldTop: int, sp: int, br: int, n: int, ex: set<int>)
    requires base <= A.lo && DvAt(C, dv, dvsize) && dv != oldTop && dv != sp && oldTop > 0 && ex == (if sp == oldTop then {} else {oldTop}) + {dv}
    requires Core(m, x, Closed(C, oldTop, sp), ex, CloseArena(A, sp, br, n), gm)
    ensures Intact(m, x, Closed(C, oldTop, sp), if sp == oldTop then {} else {oldTop}, dv, dvsize, CloseArena(A, sp, br, n), gm, base, br + n)
  {
    hide Core, Closed;
    ClosedFacts(C, oldTop, sp);
  }

  /** A freed chunk next to top joins it, with the free chunk before it if there is one. */
  lemma FreedIntoTop(m: Mem, m': Mem, x: Index, C: Tiling, loose: set<int>, dv: int, dvsize: int, A: Arena, gm: int, base: int, end: int, p: int, a: int)
    returns (C': Tiling)
    requires Intact(m, x, C, loose, dv, dvsize, A, gm, base, end) && Leads(C, A, a, p) && C[a].pinuse && loose == (if a == p || a == dv then {} else {a})
    requires p + C[p].size == A.top && m' == m[a + 8 := A.topsize + (A.top - a) + 1]
    ensures Intact(m', x, C', {}, if a == dv then 0 else dv, if a == dv then 0 else dvsize, A.(top := a, topsize := A.topsize + (A.top - a)), gm, base, end)
    ensures Live(C') == Live(C) - {p} && Undisturbed(m, m', Live(C')) && a < A.top
  {
    hide Core, Undisturbed, Live, LiveOutside, CutAt, AllLoose, Tiled, Tagged, TileOk, Before, A16, IndexOk, HeadOk;
    var ex, newDv := loose + {dv}, if a == dv then 0 else dv;
    CoreTiled(m, x, C, ex, A, gm);
    NoNull(C, A);
    Span(C, a, p, A.top, A, ex);
    NotNull(m, x, C, ex, A, gm, a);
    CoreCut(m, m', x, C, ex, {} + {newDv}, A, gm, a);
    CutKeeps(C, a, A.top, newDv);
    C' := CutAt(C, a, A.top);
  }

  /** set_inuse on memory: the head keeps its pinuse bit, the next one gets its pinuse bit set. */
  function InuseMem(m: Mem, p: int, s: int): Mem {
    var m1 := m[p + 8 := s + 2 + PinuseBit(Rd(m, p + 8))];
    m1[p + s + 8 := SetPinuse(Rd(m1, p + s + 8))]
  }

  /** A block cut in two at r, front first or back first: both are blocks, and only the back one is new. */
  lemma BlockCut(m: Mem, m': Mem, x: Index, C: Tiling, dv: int, dvsize: int, A: Arena, gm: int, base: int, end: int, p: int, nb: int, rsize: int)
    returns (C': Tiling)
    requires Intact(m, x, C, {}, dv, dvsize, A, gm, base, end) && p in C && C[p].cinuse && p !in A.records
    requires A16(nb) && 32 <= nb && 32 <= rsize && nb + rsize == C[p].size
    requires m' == InuseMem(InuseMem(m, p, nb), p + nb, rsize) || m' == InuseMem(InuseMem(m, p + nb, rsize), p, nb)
    ensures Intact(m', x, C', {}, dv, dvsize, A, gm, base, end) && p in C' && C'[p].cinuse && C'[p].size == nb
    ensures var r := p + nb; r in C' && C'[r].cinuse && C'[r].pinuse && C'[r].size == rsize && r !in C && r !in A.records
    ensures Live(C') == Live(C)[p := nb][p + nb := rsize] && Undisturbed(m, m', Live(C)[p := nb])
  {
    hide Core, Undisturbed, Live, SetPinuse, PInuse, Rep2, LiveOutside, AllLoose, Boundary, A16;
    var L, ex, e, r := Live(C), {} + {dv}, p + C[p].size, p + nb;
    Around(m, x, C, ex, A, gm, p);
    NotNull(m, x, C, ex, A, gm, p);
    Diff16(p, nb);
    HeadDecodes(C[p]);
    Diff16(C[p].size, nb);
    PinuseWrites(if e in C then C[e] else Chunk(A.topsize, false, true));
    PinuseSet(Rd(m, r + 8));
    PinuseWrites(Chunk(rsize, true, PInuse(Rd(m, r + 8))));
    Alone(m, x, C, ex, A, gm, p, r);
    FreeApart(m, x, C, ex, A, gm, p, dv);
    CoreRep2(m, m', x, C, ex, ex, A, gm, p, r, e, true);
    Rep2Keeps(C, p, r, e, true, dv);
    Rep2First(C, p, r, e, true);
    CutLive(L, p, nb, r, rsize);
    OwnKept(m, m', L, p, nb);
    C' := Rep2(C, p, r, e, true);
  }

  /** A block and the loose chunk n behind it, cut anew at r: two blocks. */
  lemma BlockRecut(m: Mem, m': Mem, x: Index, C: Tiling, dv: int, dvsize: int, A: Arena, gm: int, base: int, end: int, p: int, nb: int, rsize: int, n: int)
    returns (C': Tiling)
    requires Intact(m, x, C, {n}, dv, dvsize, A, gm, base, end) && p in C && C[p].cinuse && p !in A.records && n == p + C[p].size && n in C && !C[n].cinuse
    requires C[p].size < nb && A16(nb) && rsize >= 32 && nb + rsize == C[p].size + C[n].size
    requires m' == InuseMem(InuseMem(m, p, nb), p + nb, rsize)
    ensures Intact(m', x, C', {}, dv, dvsize, A, gm, base, end)
    ensures var r := p + nb; r in C' && C'[r].cinuse && C'[r].size == rsize && r !in A.records && r !in Live(C)
    ensures Live(C') == Live(C)[p := nb][p + nb := rsize] && Undisturbed(m, m', Live(C))
  {
    hide Core, Undisturbed, Live, SetPinuse, PInuse, Rep2, LiveOutside, AllLoose, Boundary, A16;
    var L, ex, e, r := Live(C), {n} + {dv}, n + C[n].size, p + nb;
    Around(m, x, C, ex, A, gm, p);
    NotNull(m, x, C, ex, A, gm, p);
    Diff16(p, nb);
    FreeBounds(m, x, C, ex, A, gm, n);
    HeadDecodes(C[p]);
    PinuseWrites(C[e]);
    CoreTiled(m, x, C, ex, A, gm);
    Span(C, p, p, e, A, ex);
    SpanInside(m, x, C, ex, A, gm, p, r, dv);
    LiveHas(C, p);
    PinuseSet(Rd(m, r + 8));
    CoreRep2(m, m', x, C, ex, {} + {dv}, A, gm, p, r, e, true);
    Rep2Keeps(C, p, r, e, true, dv);
    OwnKept(m, m', L, p, C[p].size);
    assert L[p := C[p].size] == L;
    CutLive(L, p, nb, r, rsize);
    C' := Rep2(C, p, r, e, true);
  }

  lemma CarvedLess(L: map<int, int>, L': map<int, int>, mp: int, nb: int, nb': int)
    requires Carved(L, L', mp, nb) && L'[mp - 16] == nb && nb' <= nb <= nb' + 8
    ensures Carved(L, L', mp, nb')
  {
  }

  lemma BestFits(B: Stock, v: int, nb: int)
    requires v in B && nb <= B[v] && forall y {:trigger B[y]} :: y in B && nb <= B[y] ==> B[v] <= B[y]
    ensures BestFit(B, v, nb)
  {
  }

  /** The trie node of a stored size heads its chain. */
  lemma FoundChain(m: Mem, x: Index, gm: int, lo: int, hi: int, s: int)
    requires IndexOk(m, x, gm, lo, hi) && s in x.t.depth
    ensures s in x.ch && |x.ch[s]| > 0 && s in x.t.node && x.t.node[s] == x.ch[s][0]
    ensures Fd(m, x.ch[s][0]) == Next(x.ch[s], 0) && Next(x.ch[s], 0) >= lo && x.ch[s][0] >= lo
  {
    hide TreeIndex, Key;
    assert HeadOk(x.t, x.ch, s);
    ChainHead(m, x.t, x.ch, x.B, s);
    assert InPlace(x.B, x.ch[s][0], lo, hi) && InPlace(x.B, Next(x.ch[s], 0), lo, hi);
  }

  lemma NonNull(m: Mem, x: Index, gm: int, lo: int, hi: int)
    requires IndexOk(m, x, gm, lo, hi)
    ensures lo > 0
  {
  }

  lemma NoChildren(m: Mem, x: Index, gm: int, lo: int, hi: int, s: int)
    requires IndexOk(m, x, gm, lo, hi) && s in x.t.depth && s >= 0 && s in x.t.node
    requires Child(m, x.t.node[s], 0) == 0 && Child(m, x.t.node[s], 1) == 0
    ensures IsLeaf(x.t, s)
  {
    hide TreeIndex, Key;
    ChildIsNode(m, x.t, x.B, gm, lo, hi, s, 0);
    ChildIsNode(m, x.t, x.B, gm, lo, hi, s, 1);
  }

  /** Everything unlink_large_chunk reads at x before it writes. */
  lemma Locate(m: Mem, x: Index, gm: int, lo: int, hi: int, p: int) returns (j: int)
    requires IndexOk(m, x, gm, lo, hi) && p in x.B && x.B[p] >= 256
    ensures var s := x.B[p];
            && s in x.ch && 0 <= j < |x.ch[s]| && x.ch[s][j] == p && (j == 0 <==> Parent(m, p) != 0)
            && Bk(m, p) == Prev(x.ch[s], j) && Fd(m, p) == Next(x.ch[s], j) && (Bk(m, p) != p <==> |x.ch[s]| > 1)
            && Bk(m, Fd(m, p)) == p && Fd(m, Bk(m, p)) == p && Fd(m, p) >= lo && Bk(m, p) >= lo && Bk(m, p) > 0
            && (Bk(m, p) != p ==> Far(Bk(m, p), p))
            && (|x.ch[s]| == 1 ==> x.ch[s] == [p])
            && Parent(LinkOut(m, Bk(m, p), Fd(m, p)), p) == Parent(m, p)
  {
    hide TreeIndex, Key, SmallOk;
    j := LocateLarge(m, x.t, x.ch, x.B, gm, lo, hi, p);
    var f, b := Fd(m, p), Bk(m, p);
    assert InPlace(x.B, f, lo, hi) && InPlace(x.B, b, lo, hi);
    if b != p { LargeApart(x.B, lo, hi, gm, b, p); }
    if f != p { LargeApart(x.B, lo, hi, gm, f, p); }
    if b != f { LargeApart(x.B, lo, hi, gm, b, f); }
  }

  lemma RelinkableFrom(m: Mem, gm: int, least: int, lo: int, p: int, link: int, i: int, root: bool)
    requires Relinkable(m, gm, lo, p, link, i, root) && least <= lo
    ensures Relinkable(m, gm, least, p, link, i, root)
  {
  }

  lemma LeafFar(m: Mem, x: Index, gm: int, lo: int, hi: int, s: int, z: int)
    requires IndexOk(m, x, gm, lo, hi) && s in x.t.depth && z in x.t.depth && s != z
    ensures s in x.t.node && z in x.t.node && Far(x.t.node[z], x.t.node[s])
  {
    hide TreeIndex, Key;
    assert SizeOk(x.t, x.B, s) && SizeOk(x.t, x.B, z);
    OtherNode(x.t, x.B, lo, hi, gm, z, s);
  }

  /** a - b in 64 bits. */
  function Sub64(a: int, b: int): int { if a >= b then a - b else a - b + W }

  function DepthOf(t: Shape, c: int): int { if c in t.depth then t.depth[c] else 0 }

  lemma NodeReads(m: Mem, x: Index, gm: int, lo: int, hi: int, c: int)
    requires IndexOk(m, x, gm, lo, hi) && Sized(m, x.B) && c in x.t.depth
    ensures c in x.t.node && x.t.node[c] in x.B && x.B[x.t.node[c]] == c && 256 <= c < MAX_SIZE && x.t.node[c] >= lo > 0
    ensures ChunkSize(Rd(m, x.t.node[c] + 8)) == c && x.t.depth[c] <= 64
  {
    hide TreeIndex, Key;
    assert SizeOk(x.t, x.B, c);
    assert SizedAt(m, x.B, x.t.node[c]);
    OffState(x.B, lo, hi, gm, x.t.node[c]);
  }

  lemma NarrowNext(m: Mem, x: Index, gm: int, lo: int, hi: int, nb: int, best: int, c: int)
    requires IndexOk(m, x, gm, lo, hi) && c in x.t.depth && c >= 0 && Narrowing(x.t, nb, best, c)
    ensures Narrowing(x.t, nb, if nb <= c && c < best then c else best, Leftmost(x.t, c))
    ensures c in x.t.node
    ensures var w := if Child(m, x.t.node[c], 0) != 0 then Child(m, x.t.node[c], 0) else Child(m, x.t.node[c], 1);
            var l := Leftmost(x.t, c);
            if w == 0 then l == 0 else l in x.t.depth && l in x.t.node && x.t.node[l] == w && x.t.depth[l] == x.t.depth[c] + 1 && x.t.depth[l] <= 64
  {
    hide TreeIndex, Key;
    NarrowStep(m, x.t, x.B, gm, nb, best, c);
    ChildLink(m, x, gm, lo, hi, c, 0);
    ChildLink(m, x, gm, lo, hi, c, 1);
  }

  lemma NarrowDone(t: Shape, nb: int, best: int)
    requires Narrowing(t, nb, best, 0)
    ensures Covers(t, nb, best, 0)
  {
  }

  lemma PathStart(m: Mem, x: Index, gm: int, lo: int, hi: int, nb: int)
    requires IndexOk(m, x, gm, lo, hi) && nb >= 256 && Slot(TreeIndex(nb), 1) in x.t.pos
    ensures var c := x.t.pos[Slot(TreeIndex(nb), 1)];
            && c in x.t.depth && c in x.t.node && c >= 256 && x.t.node[c] == Rd(m, TreeBin(gm, TreeIndex(nb)))
            && x.t.depth[c] == 0 && TreeIndexOf(c) == TreeIndexOf(nb) && Following(x.t, nb, W, c, 0)
  {
    hide TreeIndex, Key;
    FollowStart(m, x.t, x.B, gm, nb);
    RootWord(m, x.t, x.B, gm, lo, hi, TreeIndex(nb));
    RootSize(m, x.t, x.B, gm, TreeIndex(nb));
  }

  lemma PathNext(m: Mem, x: Index, gm: int, lo: int, hi: int, nb: int, best: int, c: int, rs: int)
    requires IndexOk(m, x, gm, lo, hi) && nb >= 256 && c in x.t.depth && c >= 256 && Following(x.t, nb, best, c, rs)
    ensures var b := KeyBit(SizeKey(nb), x.t.depth[c]);
            && Following(x.t, nb, if nb <= c && c < best then c else best, ChildSize(x.t, c, b), NextRight(x.t, nb, c, rs))
            && c in x.t.node
            && var w, l, rt := Child(m, x.t.node[c], b), ChildSize(x.t, c, b), Child(m, x.t.node[c], 1);
               && (w == 0 <==> l == 0)
               && (w != 0 ==> l in x.t.depth && l in x.t.node && x.t.node[l] == w && x.t.depth[l] == x.t.depth[c] + 1 && x.t.depth[l] <= 64 && TreeIndexOf(l) == TreeIndexOf(c))
               && (if rt != 0 && rt != w then NextRight(x.t, nb, c, rs) >= 256 && NextRight(x.t, nb, c, rs) in x.t.depth && NextRight(x.t, nb, c, rs) in x.t.node && x.t.node[NextRight(x.t, nb, c, rs)] == rt
                   else NextRight(x.t, nb, c, rs) == rs)
  {
    hide TreeIndex, Key;
    var b := KeyBit(SizeKey(nb), x.t.depth[c]);
    FollowStep(m, x.t, x.B, gm, nb, best, c, rs);
    ChildLink(m, x, gm, lo, hi, c, b);
    ChildLink(m, x, gm, lo, hi, c, 1);
    ChildSub(m, x.t, x.B, gm, c, b);
    ChildSub(m, x.t, x.B, gm, c, 1);
    if b == 0 && ChildSize(x.t, c, 0) != 0 && ChildSize(x.t, c, 1) != 0 {
      assert KeyBit(SizeKey(ChildSize(x.t, c, 0)), x.t.depth[c]) == 0;
      LeafFar(m, x, gm, lo, hi, ChildSize(x.t, c, 0), ChildSize(x.t, c, 1));
    }
  }

  lemma ExactFit(m: Mem, x: Index, gm: int, lo: int, hi: int, nb: int, c: int)
    requires IndexOk(m, x, gm, lo, hi)
    ensures Narrowing(x.t, nb, nb, c)
  {
    TrivialCovers(m, x.t, x.B, gm, nb, nb, c);
  }

  lemma HandOver(m: Mem, x: Index, gm: int, lo: int, hi: int, nb: int, best: int, rs: int, v: int)
    requires IndexOk(m, x, gm, lo, hi) && nb >= 256 && Following(x.t, nb, best, 0, rs)
    requires v != 0 ==> best in x.t.depth && TreeIndexOf(best) == TreeIndexOf(nb)
    requires v == 0 ==> best == W
    ensures rs != 0 || v != 0 ==> Narrowing(x.t, nb, best, rs)
    ensures rs == 0 && v == 0 ==> Following(x.t, nb, W, 0, 0)
  {
    hide TreeIndex, Key;
    if rs != 0 || v != 0 { FollowToNarrow(m, x.t, x.B, gm, nb, best, rs); }
  }

  lemma RootReads(m: Mem, x: Index, gm: int, lo: int, hi: int, nb: int)
    requires IndexOk(m, x, gm, lo, hi) && nb >= 256
    ensures Rd(m, TreeBin(gm, TreeIndex(nb))) == 0 <==> Slot(TreeIndex(nb), 1) !in x.t.pos
    ensures Slot(TreeIndex(nb), 1) !in x.t.pos ==> Following(x.t, nb, W, 0, 0)
  {
    hide TreeIndex, Key;
    RootWord(m, x.t, x.B, gm, lo, hi, TreeIndex(nb));
    FollowStart(m, x.t, x.B, gm, nb);
  }

  /** left_bits(idx2bit(idx)) & treemap picks out the higher non-empty classes, and its lowest bit the next one. */
  lemma NextClass(m: Mem, x: Index, gm: int, lo: int, hi: int, nb: int, leftbits: Word32)
    requires IndexOk(m, x, gm, lo, hi) && nb >= 256 && Following(x.t, nb, W, 0, 0)
    requires leftbits == And(LeftBits(Bit(TreeIndex(nb))), x.tm)
    ensures NonZero(leftbits) ==>
              var i := Ctz(leftbits);
              && Slot(i, 1) in x.t.pos && Narrowing(x.t, nb, W, x.t.pos[Slot(i, 1)])
              && var c := x.t.pos[Slot(i, 1)]; c in x.t.depth && c in x.t.node && x.t.node[c] == Rd(m, TreeBin(gm, i)) && Rd(m, TreeBin(gm, i)) != 0
    ensures !NonZero(leftbits) ==> Narrowing(x.t, nb, W, 0)
  {
    hide TreeIndex, Key, LeftBits, Following, Narrowing;
    var idx := TreeIndex(nb);
    forall j | 0 <= j < 32 ensures leftbits[j] <==> idx < j && Slot(j, 1) in x.t.pos {
      LeftBitsAbove(idx, j);
      assert Mapped(x.tm, x.t, j);
    }
    AnyBelowMeans(leftbits, 32);
    if NonZero(leftbits) {
      var i := Ctz(leftbits);
      AnyBelowMeans(leftbits, i);
      forall j | idx + 1 <= j < i ensures Slot(j, 1) !in x.t.pos { assert !leftbits[j]; }
      assert LowestClass(x.t, idx + 1, i);
      FollowToNext(m, x.t, x.B, gm, nb, i);
      RootWord(m, x.t, x.B, gm, lo, hi, i);
    } else {
      forall i | idx + 1 <= i < 32 ensures Slot(i, 1) !in x.t.pos { assert !leftbits[i]; }
      FollowToNone(m, x.t, x.B, gm, nb);
    }
  }

  lemma LeastClass(m: Mem, x: Index, gm: int, lo: int, hi: int, nb: int)
    requires IndexOk(m, x, gm, lo, hi) && nb < 256 && NonZero(x.tm)
    ensures var i := Ctz(x.tm);
            && Slot(i, 1) in x.t.pos && Narrowing(x.t, nb, W, x.t.pos[Slot(i, 1)])
            && var c := x.t.pos[Slot(i, 1)]; c in x.t.depth && c in x.t.node && c >= 256 && x.t.node[c] == Rd(m, TreeBin(gm, i)) && Rd(m, TreeBin(gm, i)) != 0
  {
    hide TreeIndex, Key, Narrowing;
    var i := Ctz(x.tm);
    AnyBelowMeans(x.tm, i);
    assert Mapped(x.tm, x.t, i);
    forall j | 0 <= j < i ensures Slot(j, 1) !in x.t.pos { assert Mapped(x.tm, x.t, j); assert !x.tm[j]; }
    assert LowestClass(x.t, 0, i);
    NarrowFromLeast(m, x.t, x.B, gm, nb, i);
    RootWord(m, x.t, x.B, gm, lo, hi, i);
  }

  /** What the tries hold is what the stock holds in large chunks. */
  lemma BestOfStock(m: Mem, x: Index, gm: int, lo: int, hi: int, nb: int, best: int)
    requires IndexOk(m, x, gm, lo, hi) && Covers(x.t, nb, best, 0)
    ensures forall y {:trigger x.B[y]} :: y in x.B && 256 <= x.B[y] && nb <= x.B[y] ==> best <= x.B[y] && x.B[y] < MAX_SIZE
  {
    hide TreeIndex, Key;
    forall y | y in x.B && 256 <= x.B[y] && nb <= x.B[y] ensures best <= x.B[y] && x.B[y] < MAX_SIZE {
      assert Chained(x.ch, x.B, y);
      assert HeadOk(x.t, x.ch, x.B[y]);
      assert SizeOk(x.t, x.B, x.B[y]);
      assert Settled(x.t, best, 0, x.B[y]);
    }
  }

  lemma NotNull(m: Mem, x: Index, C: Tiling, ex: set<int>, A: Arena, gm: int, p: int)
    requires Core(m, x, C, ex, A, gm) && p in C
    ensures p >= A.lo > 0 && C[p].size >= 32 && A16(C[p].size) && A16(p)
  {
    assert TileOk(C, p, A);
  }

  lemma EndApart(m: Mem, x: Index, C: Tiling, ex: set<int>, A: Arena, gm: int, a: int, e: int)
    requires Core(m, x, C, ex, A, gm) && Boundary(C, a, e, A)
    ensures a + 32 <= e && (e in C ==> A16(C[e].size) && C[e].size >= 32) && A16(C[a].size) && A.top !in C
    ensures A16(a) && A16(e) && A16(A.top)
  {
    assert TileOk(C, a, A);
    if e in C { assert TileOk(C, e, A); }
    assert A.top in C ==> TileOk(C, A.top, A);
  }

  lemma UndisturbedSelf(m: Mem, L: map<int, int>)
    ensures Undisturbed(m, m, L)
  {
    forall q | q in L ensures PayloadKept(m, m, q, L[q]) { }
  }

  lemma CoreTiled(m: Mem, x: Index, C: Tiling, ex: set<int>, A: Arena, gm: int)
    requires Core(m, x, C, ex, A, gm)
    ensures Tiled(C, A) && Tagged(m, C)
  {
  }

  lemma CutKeeps(C: Tiling, a: int, top: int, q: int)
    requires q in C ==> !(a <= q < top)
    ensures q in C ==> q in CutAt(C, a, top) && CutAt(C, a, top)[q] == C[q]
  {
  }

  lemma Rep1Head(C: Tiling, a: int, e: int, u: bool)
    requires a in C && a < e
    ensures a in Rep1(C, a, e, u) && Rep1(C, a, e, u)[a] == Chunk(e - a, u, C[a].pinuse)
  {
  }

  lemma Rep1Keeps(C: Tiling, a: int, e: int, u: bool, q: int)
    requires a in C && a < e && (q in C ==> !(a <= q < e))
    ensures q in C ==> q in Rep1(C, a, e, u) && Rep1(C, a, e, u)[q].size == C[q].size && Rep1(C, a, e, u)[q].cinuse == C[q].cinuse
  {
  }

  lemma TopDecodes(topsize: int)
    requires A16(topsize)
    ensures !CInuse(topsize + 1) && PInuse(topsize + 1) && ChunkSize(topsize + 1) == topsize
  {
    HeadDecodes(Chunk(topsize, false, true));
  }

  lemma LessOne(L: map<int, int>, p: int)
    ensures forall q {:trigger q in L - {p}} :: q in L - {p} ==> q in L && L[q] == (L - {p})[q]
  {
  }

  /** No other chunk starts inside a chunk. */
  lemma FreeApart(m: Mem, x: Index, C: Tiling, ex: set<int>, A: Arena, gm: int, v: int, q: int)
    requires Core(m, x, C, ex, A, gm) && v in C && q != v
    ensures q in C ==> !(v <= q < v + C[v].size)
  {
    if q in C { assert Before(C, v, q); }
  }

  lemma Rep2Keeps(C: Tiling, a: int, b: int, e: int, v: bool, q: int)
    requires a in C && a < b < e && (q in C ==> !(a <= q < e))
    ensures var D := Rep2(C, a, b, e, v);
            b in D && D[b] == Chunk(e - b, v, true) && (q in C ==> q in D && D[q].size == C[q].size && D[q].cinuse == C[q].cinuse)
  {
  }

  lemma AlsoKept(m: Mem, m': Mem, L: map<int, int>, L': map<int, int>, v: int)
    requires Undisturbed(m, m', L') && v !in L && v in L' && L' == L[v := L'[v]]
    ensures Undisturbed(m, m', L)
  {
    forall q | q in L ensures PayloadKept(m, m', q, L[q]) { assert PayloadKept(m, m', q, L'[q]); }
  }

  lemma FreeNotLive(C: Tiling, v: int)
    requires v in C && !C[v].cinuse
    ensures v !in Live(C)
  {
  }

  /** Chunk p is smaller than nb, and neither top nor a free chunk right behind it makes up for that. */
  ghost predicate Cramped(C: Tiling, top: int, topsize: int, p: int, nb: int) {
    && p in C && C[p].size < nb
    && var n := p + C[p].size;
       (n == top ==> C[p].size + topsize <= nb) && (n != top && n in C && !C[n].cinuse ==> C[p].size + C[n].size < nb)
  }

  /** The block at mp is new, holds nb bytes of chunk, and wastes less than a minimal chunk. */
  ghost predicate Carved(L: map<int, int>, L': map<int, int>, mp: int, nb: int) {
    && A16(mp) && mp > 16 && mp - 16 !in L && mp - 16 in L' && L' == L[mp - 16 := L'[mp - 16]]
    && nb <= L'[mp - 16] < nb + 32
  }

  /** Stocked chunks are free chunks of the tiling, above the least address. */
  lemma CoreStock(m: Mem, x: Index, C: Tiling, ex: set<int>, A: Arena, gm: int)
    requires Core(m, x, C, ex, A, gm)
    ensures IndexOk(m, x, gm, A.lo, A.hi)
    ensures forall p {:trigger x.B[p]} :: p in x.B ==> p in C && !C[p].cinuse && C[p].size == x.B[p] && p !in ex && p >= A.lo && A16(p) && p > 0 && x.B[p] < A.hi - A.lo
  {
    hide IndexOk;
    forall p | p in x.B ensures p >= A.lo && A16(p) && p > 0 && x.B[p] < A.hi - A.lo { assert TileOk(C, p, A); }
  }

  lemma DvBound(m: Mem, x: Index, C: Tiling, ex: set<int>, A: Arena, gm: int, q: int)
    requires Core(m, x, C, ex, A, gm)
    ensures q in C ==> 32 <= C[q].size < A.hi - A.lo && A16(C[q].size)
  {
    if q in C { assert TileOk(C, q, A); }
  }

  /** What smallmap >> idx says about the bins from idx on. */
  lemma SmallBits(w: Word32, idx: nat)
    requires idx < 31
    ensures Shr(w, idx)[0] == w[idx] && Shr(w, idx)[1] == w[idx + 1]
    ensures NonZero(Shr(w, idx)) <==> exists j {:trigger w[j]} :: idx <= j < 32 && w[j]
  {
    var b := Shr(w, idx);
    AnyBelowMeans(b, 32);
    if j :| idx <= j < 32 && w[j] { assert b[j - idx]; }
  }

  /** With bins idx and idx + 1 empty, the bit search finds the lowest nonempty bin above. */
  lemma NextSmallBin(w: Word32, idx: nat)
    requires idx < 31 && !w[idx] && !w[idx + 1] && NonZero(Shr(w, idx))
    ensures var leftbits := And(Bitmap.Shl(Shr(w, idx), idx), LeftBits(Bit(idx)));
            NonZero(leftbits) && w[Ctz(leftbits)] && idx + 2 <= Ctz(leftbits) < 32
            && forall j {:trigger w[j]} :: idx <= j < Ctz(leftbits) ==> !w[j]
  {
    hide LeftBits;
    SmallBits(w, idx);
    var s := Bitmap.Shl(Shr(w, idx), idx);
    var leftbits := And(s, LeftBits(Bit(idx)));
    forall j | 0 <= j < 32 ensures leftbits[j] == (w[j] && idx < j) { LeftBitsAbove(idx, j); }
    var k :| idx <= k < 32 && w[k];
    assert leftbits[k];
    AnyBelowMeans(leftbits, 32);
    var i := Ctz(leftbits);
    AnyBelowMeans(leftbits, i);
    assert forall j {:trigger w[j]} :: idx <= j < i ==> !leftbits[j] && !w[j];
  }

  /** v is a smallest stocked chunk among those of at least nb bytes. */
  ghost predicate BestFit(B: Stock, v: int, nb: int) {
    v in B && nb <= B[v] && forall y {:trigger B[y]} :: y in B && nb <= B[y] ==> B[v] <= B[y]
  }

  /** The bins serve a request with p: it fits best, and while the designated victim would do, exactly or better. */
  ghost predicate Chosen(B: Stock, dvsize: int, small: bool, p: int, nb: int) {
    BestFit(B, p, nb) && (nb <= dvsize ==> if small then B[p] == nb else B[p] < dvsize)
  }

  /** They leave it to the designated victim, if that is large enough: nothing fits exactly, or nothing fits better. */
  ghost predicate Declined(B: Stock, dvsize: int, small: bool, nb: int) {
    forall y {:trigger B[y]} :: y in B ==>
      (dvsize < nb ==> B[y] < nb) && (nb <= dvsize ==> if small then B[y] != nb else B[y] < nb || dvsize <= B[y])
  }

  /** The designated victim after p was cut to nb bytes with rsize over: the remainder, if it is large enough to be a chunk. */
  predicate Kept(dv: int, dvsize: int, p: int, nb: int, rsize: int, dv': int, dvsize': int) {
    if rsize >= 32 then dv' == p + nb && dvsize' == rsize else dv' == dv && dvsize' == dvsize
  }

  /** The designated victim after chunk p grew into it to nb of their size bytes together. */
  predicate Lent(size: int, p: int, nb: int, dv': int, dvsize': int) {
    if size - nb >= 32 then dv' == p + nb && dvsize' == size - nb else dv' == 0 && dvsize' == 0
  }

  /** Top and the designated victim after chunk p, of size bytes, grew to nb where it stands. */
  predicate Extended(size: int, p: int, nb: int, dv: int, dvsize: int, top: int, topsize: int, dv': int, dvsize': int, top': int, topsize': int) {
    size < nb ==>
      && (p + size == top ==> top' == p + nb && topsize' == size + topsize - nb && dv' == dv && dvsize' == dvsize)
      && (p + size == dv != top ==> Lent(size + dvsize, p, nb, dv', dvsize') && top' == top && topsize' == topsize)
  }

  /** The designated victim after it gave nb bytes itself. */
  predicate Shortened(dv: int, dvsize: int, nb: int, dv': int, dvsize': int) {
    if dvsize - nb >= 32 then dv' == dv + nb && dvsize' == dvsize - nb else dv' == 0 && dvsize' == 0
  }

  /**
   * Where dlmalloc finds a chunk of nb bytes. A small request takes an exact fit from the bins, then the designated
   * victim, then the best fit of the bins, then top. A large one takes the best fit if it is smaller than a designated
   * victim that would do, then the designated victim, then top.
   */
  ghost predicate Served(B: Stock, dv: int, dvsize: int, top: int, topsize: int, small: bool, nb: int, p: int) {
    && (small && (exists y {:trigger B[y]} :: y in B && B[y] == nb) ==> p in B && B[p] == nb)
    && (small && nb <= dvsize && !(exists y {:trigger B[y]} :: y in B && B[y] == nb) ==> p == dv)
    && (!small && nb <= dvsize && (exists y {:trigger B[y]} :: y in B && nb <= B[y] < dvsize) ==> BestFit(B, p, nb))
    && (!small && nb <= dvsize && !(exists y {:trigger B[y]} :: y in B && nb <= B[y] < dvsize) ==> p == dv)
    && (dvsize < nb && (exists y {:trigger B[y]} :: y in B && nb <= B[y]) ==> BestFit(B, p, nb))
    && (dvsize < nb < topsize && !(exists y {:trigger B[y]} :: y in B && nb <= B[y]) ==> p == top)
  }

  /**
   * The designated victim after a chunk is freed: gone if it was swallowed by top, otherwise it only grows, and without
   * one a freed chunk never becomes it.
   */
  predicate VictimAfter(dv: int, dvsize: int, top: int, dv': int, dvsize': int, top': int) {
    if top' != top && top' == dv then dv' == 0 && dvsize' == 0
    else dv' <= dv && dv + dvsize <= dv' + dvsize' && (dvsize == 0 ==> dv' == dv && dvsize' == 0)
  }

  /** What is left where the chunk came from. */
  ghost predicate Remains(B: Stock, dv: int, dvsize: int, top: int, topsize: int, small: bool, nb: int, p: int, dv': int, dvsize': int, top': int, topsize': int) {
    if p in B then
      top' == top && topsize' == topsize && (if small then Kept(dv, dvsize, p, nb, B[p] - nb, dv', dvsize') else dv' == dv && dvsize' == dvsize)
    else if p == dv then
      top' == top && topsize' == topsize && Shortened(dv, dvsize, nb, dv', dvsize')
    else
      p == top && top' == top + nb && topsize' == topsize - nb && dv' == dv && dvsize' == dvsize
  }

  lemma ChosenServed(B: Stock, dv: int, dvsize: int, top: int, topsize: int, small: bool, nb: int, p: int, dv': int, dvsize': int)
    requires Chosen(B, dvsize, small, p, nb)
    requires if small then Kept(dv, dvsize, p, nb, B[p] - nb, dv', dvsize') else dv' == dv && dvsize' == dvsize
    ensures Served(B, dv, dvsize, top, topsize, small, nb, p) && Remains(B, dv, dvsize, top, topsize, small, nb, p, dv', dvsize', top, topsize)
    ensures !NoRoom(B, dvsize, topsize, nb)
  {
  }

  lemma DvServed(B: Stock, dv: int, dvsize: int, top: int, topsize: int, small: bool, nb: int, dv': int, dvsize': int)
    requires Declined(B, dvsize, small, nb) && nb <= dvsize && dv !in B && Shortened(dv, dvsize, nb, dv', dvsize')
    ensures Served(B, dv, dvsize, top, topsize, small, nb, dv) && Remains(B, dv, dvsize, top, topsize, small, nb, dv, dv', dvsize', top, topsize)
    ensures !NoRoom(B, dvsize, topsize, nb)
  {
  }

  lemma TopServed(B: Stock, dv: int, dvsize: int, top: int, topsize: int, small: bool, nb: int)
    requires Declined(B, dvsize, small, nb) && dvsize < nb < topsize && top !in B && dv != top
    ensures Served(B, dv, dvsize, top, topsize, small, nb, top) && !NoRoom(B, dvsize, topsize, nb)
    ensures Remains(B, dv, dvsize, top, topsize, small, nb, top, dv, dvsize, top + nb, topsize - nb)
  {
  }

  lemma NoneServes(B: Stock, dv: int, dvsize: int, top: int, topsize: int, small: bool, nb: int, p: int)
    requires Declined(B, dvsize, small, nb) && dvsize < nb && topsize <= nb
    ensures Served(B, dv, dvsize, top, topsize, small, nb, p) && NoRoom(B, dvsize, topsize, nb)
  {
  }

  /** Sizes are multiples of sixteen, so a chunk from nb's bin or the next one is an exact fit. */
  lemma ExactSize(m: Mem, x: Index, gm: int, lo: int, hi: int, nb: int, v: int)
    requires IndexOk(m, x, gm, lo, hi) && A16(nb) && v in x.B && nb <= x.B[v] <= nb + 8
    ensures x.B[v] == nb
  {
    assert InPlace(x.B, v, lo, hi);
  }

  lemma NoneExact(m: Mem, x: Index, gm: int, lo: int, hi: int, nb: int)
    requires IndexOk(m, x, gm, lo, hi) && 32 <= nb <= 240 && !x.sm[nb / 8]
    ensures forall y {:trigger x.B[y]} :: y in x.B ==> x.B[y] != nb
  {
    forall y | y in x.B ensures x.B[y] != nb { if x.B[y] == nb { BinBit(m, x, gm, lo, hi, y); } }
  }

  /** A chunk of the lowest non-empty small bin from nb's own on fits best. */
  lemma LowestBin(m: Mem, x: Index, gm: int, lo: int, hi: int, nb: int, i: int, v: int)
    requires IndexOk(m, x, gm, lo, hi) && 32 <= nb <= 240 && A16(nb) && nb <= 8 * i && i < 32 && v in x.B && x.B[v] == 8 * i
    requires forall j {:trigger x.sm[j]} :: nb / 8 <= j < i ==> !x.sm[j]
    ensures BestFit(x.B, v, nb)
  {
    forall y | y in x.B && nb <= x.B[y] ensures x.B[v] <= x.B[y] { if x.B[y] < 8 * i { BinBit(m, x, gm, lo, hi, y); } }
  }

  /** With the small bins from nb's own on empty, a smallest tree chunk fits best. */
  lemma LowestTree(m: Mem, x: Index, gm: int, lo: int, hi: int, nb: int, v: int)
    requires IndexOk(m, x, gm, lo, hi) && 32 <= nb <= 240 && A16(nb) && v in x.B && 256 <= x.B[v]
    requires forall j {:trigger x.sm[j]} :: nb / 8 <= j < 32 ==> !x.sm[j]
    requires forall y {:trigger x.B[y]} :: y in x.B && 256 <= x.B[y] ==> x.B[v] <= x.B[y]
    ensures BestFit(x.B, v, nb)
  {
    forall y | y in x.B && nb <= x.B[y] ensures x.B[v] <= x.B[y] { if x.B[y] < 256 { BinBit(m, x, gm, lo, hi, y); } }
  }

  /** A small stocked chunk's map bit is set. */
  lemma BinBit(m: Mem, x: Index, gm: int, lo: int, hi: int, y: int)
    requires IndexOk(m, x, gm, lo, hi) && y in x.B && x.B[y] < 256
    ensures 0 <= x.B[y] / 8 < 32 && x.sm[x.B[y] / 8]
  {
    hide TreeOk;
    assert InPlace(x.B, y, lo, hi) && Binned(x.bins, x.B, y);
    assert BinOk(m, x.sm, x.bins, x.B, gm, x.B[y] / 8);
  }

  /** Clear map bits mean empty bins. */
  lemma NothingFits(m: Mem, x: Index, gm: int, lo: int, hi: int, nb: int)
    requires IndexOk(m, x, gm, lo, hi) && 32 <= nb <= 240 && A16(nb)
    requires !NonZero(x.tm) && forall j {:trigger x.sm[j]} :: nb / 8 <= j < 32 ==> !x.sm[j]
    ensures forall y {:trigger x.B[y]} :: y in x.B ==> x.B[y] < nb
  {
    hide TreeIndex, Key;
    AnyBelowMeans(x.tm, 32);
    forall y | y in x.B ensures x.B[y] < nb {
      if x.B[y] >= 256 {
        LargeIsMapped(m, x, gm, lo, hi, y);
        assert false;
      } else {
        assert InPlace(x.B, y, lo, hi);
        var i := x.B[y] / 8;
        assert x.B[y] == 8 * i;
        var k := LocateSmall(m, x.sm, x.bins, x.B, gm, lo, hi, y, i);
      }
    }
  }

  /** A large stocked chunk sits below a root whose map bit is set. */
  lemma LargeIsMapped(m: Mem, x: Index, gm: int, lo: int, hi: int, y: int)
    requires IndexOk(m, x, gm, lo, hi) && y in x.B && x.B[y] >= 256
    ensures x.tm[TreeIndex(x.B[y])]
  {
    hide TreeIndex, Key;
    assert Chained(x.ch, x.B, y);
    var s := x.B[y];
    assert HeadOk(x.t, x.ch, s);
    assert SizeOk(x.t, x.B, s);
    BelowRoot(m, x.t, x.B, gm, s);
    assert Mapped(x.tm, x.t, TreeIndex(s));
  }

  lemma TopFacts(m: Mem, x: Index, C: Tiling, ex: set<int>, A: Arena, gm: int)
    requires Core(m, x, C, ex, A, gm)
    ensures A16(A.top) && A.top !in C && A.top !in Live(C) && A.top >= A.lo > 0 && A16(A.topsize) && A.topsize > 0
  {
    assert A.top in C ==> TileOk(C, A.top, A);
  }

  lemma EndKeeps(C: Tiling, a: int, e: int, q: int)
    requires q != a
    ensures q in C ==> q in EndAt(C, a, e, true) && EndAt(C, a, e, true)[q] == C[q]
  {
  }

  lemma RecordAway(m: Mem, x: Index, C: Tiling, ex: set<int>, A: Arena, gm: int, r: int)
    requires Core(m, x, C, ex, A, gm) && r in C
    ensures r > 0 && (r + 48 <= gm || gm + STATE_SIZE <= r)
  {
    assert TileOk(C, r, A);
  }

  lemma GmPositive(m: Mem, x: Index, C: Tiling, ex: set<int>, A: Arena, gm: int)
    requires Core(m, x, C, ex, A, gm)
    ensures gm > 0
  {
  }

  lemma SegLengths(m: Mem, C: Tiling, A: Arena, segs: seq<int>, bases: seq<int>, sizes: seq<int>)
    requires SegList(m, C, A, segs, bases, sizes)
    ensures |bases| == |sizes| == |segs| + 1
  {
  }

  lemma GrantAligned(A: Arena, br: int, n: int)
    requires NewGrant(A, br, n)
    ensures A16(br) && A16(n) && n > 0
  {
  }

  lemma SplitLive(C: Tiling, br: int, n: int, nb: int)
    requires br !in C && br + nb !in C && nb > 0
    ensures Live(SplitOff(C, br, n, nb)) - {br + nb} == Live(C)[br := nb] && br !in Live(C)
  {
  }

  lemma TagOf(m: Mem, x: Index, C: Tiling, ex: set<int>, A: Arena, gm: int, p: int)
    requires Core(m, x, C, ex, A, gm) && p in C
    ensures Rd(m, p + 8) == HeadWord(C[p]) && A16(p) && A16(C[p].size)
  {
    assert TagAt(m, C, p) && TileOk(C, p, A);
  }

  lemma LiveNew(C: Tiling, p: int)
    requires p !in C
    ensures p !in Live(C)
  {
  }

  lemma GrantPositive(m: Mem, x: Index, C: Tiling, ex: set<int>, A: Arena, gm: int, br: int, n: int)
    requires Core(m, x, C, ex, A, gm) && NewGrant(A, br, n)
    ensures 0 < br && A16(br) && A16(n) && n > 0 && Away(A, gm)
  {
  }

  lemma SplitOffFacts(C: Tiling, br: int, n: int, nb: int)
    requires nb > 0
    ensures var D := SplitOff(C, br, n, nb);
            && br + nb in D && D[br + nb] == Chunk(n - nb, true, true)
            && forall p {:trigger D[p]} {:trigger p in D} :: p in C && p != br && p != br + nb ==> p in D && D[p] == C[p]
  {
  }

  lemma SegAtHead(m: Mem, C: Tiling, A: Arena, segs: seq<int>, bases: seq<int>, sizes: seq<int>, k: int)
    requires SegList(m, C, A, segs, bases, sizes) && 0 <= k < |bases|
    ensures bases[k] in A.heads
    ensures k > 0 ==> segs[k - 1] in C && C[segs[k - 1]].cinuse && C[segs[k - 1]].size == 48 && segs[k - 1] in A.records
  {
    assert SegmentOk(A, bases, sizes, k);
    if k > 0 { assert Recorded(m, C, A, segs, bases, sizes, k - 1); }
  }

  /** Payloads outside the records are kept by a step on one record and a step on none. */
  lemma UserKept(m: Mem, m1: Mem, m': Mem, L: map<int, int>, r: int, records: set<int>)
    requires Undisturbed(m, m1, L - {r}) && Undisturbed(m1, m', L) && (r in L ==> r in records)
    ensures Undisturbed(m, m', L - records)
  {
    var K := L - records;
    forall q | q in K ensures PayloadKept(m, m', q, K[q]) {
      assert PayloadKept(m, m1, q, (L - {r})[q]) && PayloadKept(m1, m', q, L[q]);
      forall a | q + 16 <= a < q + K[q] + 8 ensures Rd(m', a) == Rd(m, a) { assert Rd(m1, a) == Rd(m, a); }
    }
  }

  /** The words add_segment leaves behind: new top, record head, the rest of the old top, fenceposts, and nothing else. */
  ghost predicate Retired(m: Mem, m': Mem, oldTop: int, sp: int, oldEnd: int, br: int, n: int) {
    && Rd(m', br + 8) == n - TOP_FOOT + 1 && Rd(m', br + n - TOP_FOOT + 8) == TOP_FOOT
    && Rd(m', sp + 8) == 48 + 2 + (if sp == oldTop then 1 else 0)
    && (sp != oldTop ==> Rd(m', oldTop + 8) == sp - oldTop + 1 && Rd(m', sp) == sp - oldTop)
    && (forall w {:trigger Rd(m', w)} :: !(oldTop + 8 <= w < oldEnd) && w != br + 8 && w != br + n - TOP_FOOT + 8 ==> Rd(m', w) == Rd(m, w))
    && (forall i {:trigger FenceAt(m', sp + 48, i)} :: 0 <= i && sp + 48 + 8 * i + 8 < oldEnd ==> FenceAt(m', sp + 48, i))
  }

  /** Unlinking a small chunk: its neighbours pass the checks, and either the bin empties or they are linked past it. */
  lemma SmallUnlinked(m: Mem, x: Index, gm: int, lo: int, hi: int, p: int, i: int) returns (k: int)
    requires IndexOk(m, x, gm, lo, hi) && p in x.B && x.B[p] < 256 && i == x.B[p] / 8
    ensures 0 <= i < 32 == |x.bins| && 0 <= k < |x.bins[i]|
    ensures var f, b, h := Fd(m, p), Bk(m, p), Header(gm, i);
            && (f == h || (f >= lo && Bk(m, f) == p)) && (b == h || (b >= lo && Fd(m, b) == p))
            && var y := x.(bins := x.bins[i := Without(x.bins[i], k)], B := x.B - {p});
               if b == f then IndexOk(m, y.(sm := And(x.sm, Not(Bit(i)))), gm, lo, hi) && Quiet(m, m, x.B, gm)
               else var m' := m[f + 24 := b][b + 16 := f]; IndexOk(m', y, gm, lo, hi) && Quiet(m, m', x.B, gm)
  {
    hide TreeOk, And, Not, Bit, Quiet;
    assert InPlace(x.B, p, lo, hi);
    k := LocateSmall(m, x.sm, x.bins, x.B, gm, lo, hi, p, i);
    TakeSmall(m, x, gm, lo, hi, p, i, k);
    assert BinOk(m, x.sm, x.bins, x.B, gm, i);
    var f, b := Fd(m, p), Bk(m, p);
    if f in x.B { assert InPlace(x.B, f, lo, hi); }
    if b in x.B { assert InPlace(x.B, b, lo, hi); }
    QuietSelf(m, x.B, gm);
  }

  lemma QuietSelf(m: Mem, B: Stock, gm: int)
    ensures Quiet(m, m, B, gm)
  {
  }

  lemma BinsOf(m: Mem, x: Index, gm: int, lo: int, hi: int, i: int)
    requires IndexOk(m, x, gm, lo, hi) && 0 <= i < 32
    ensures |x.bins| == 32 && (x.sm[i] ==> Or(x.sm, Bit(i)) == x.sm)
  {
  }

  ghost predicate RecordAt(m: Mem, sp: int, base: int, size: int, next: int) {
    Rd(m, sp + 16) == base && Rd(m, sp + 24) == size && Rd(m, sp + 32) == next
  }

  ghost predicate FenceAt(m: Mem, p0: int, i: int) { Rd(m, p0 + 8 * i + 8) == FENCEPOST_HEAD }

  /** The aligned record sits TOP_FOOT bytes before the end of the segment. */
  lemma RecordPlace(top: int, topsize: int, rawsp: int)
    requires A16(top) && A16(topsize) && rawsp == top + topsize + TOP_FOOT - 95
    ensures rawsp + (16 - (rawsp + 16) % 16) % 16 == top + topsize
  {
    var j := (top + topsize) / 16;
    assert top + topsize == 16 * j;
    assert rawsp + 16 == 16 * j + 1;
  }

  lemma TopOneSideCore(m: Mem, x: Index, C: Tiling, ex: set<int>, A: Arena, gm: int, br: int, n: int)
    requires Core(m, x, C, ex, A, gm) && NewGrant(A, br, n)
    ensures A.top + A.topsize + TOP_FOOT <= br || br + n <= A.top
  {
    TopOneSide(C, A, br, n);
  }

  lemma ClosingHolds(m: Mem, x: Index, C: Tiling, ex: set<int>, A: Arena, gm: int, csp: int, br: int, n: int)
    requires Core(m, x, C, ex, A, gm) && NewGrant(A, br, n) && n > TOP_FOOT
    requires A16(csp) && (csp == A.top || A.top + MIN_CHUNK <= csp) && csp + 80 <= A.top + A.topsize + TOP_FOOT
    ensures Closing(C, A, csp, br, n)
  {
  }

  /** Core and segment list after the writes of add_segment. */
  lemma Opened(m: Mem, m': Mem, x: Index, C: Tiling, ex: set<int>, ex': set<int>, A: Arena, gm: int, csp: int, br: int, n: int,
               segs: seq<int>, bases: seq<int>, sizes: seq<int>)
    requires Core(m, x, C, ex, A, gm) && SegList(m, C, A, segs, bases, sizes) && NewGrant(A, br, n) && n > TOP_FOOT
    requires A16(csp) && (csp == A.top || A.top + MIN_CHUNK <= csp) && csp + 80 <= A.top + A.topsize + TOP_FOOT
    requires SameElsewhere(ex, ex', A.top, A.top + 1) && (csp != A.top ==> A.top in ex')
    requires Retired(m, m', A.top, csp, A.top + A.topsize + TOP_FOOT, br, n)
    requires |bases| > 0 && |sizes| > 0 && RecordAt(m', csp, bases[0], sizes[0], NextOf(segs, 0))
    requires bases[0] <= A.top && A.top + A.topsize + TOP_FOOT == bases[0] + sizes[0] && (bases[0] + sizes[0] == csp + 80 || bases[0] + sizes[0] == csp + 96)
    ensures Core(m', x, Closed(C, A.top, csp), ex', CloseArena(A, csp, br, n), gm) && Undisturbed(m, m', Live(C))
    ensures csp !in C && Live(Closed(C, A.top, csp)) == Live(C)[csp := 48]
    ensures SegList(m', Closed(C, A.top, csp), CloseArena(A, csp, br, n), [csp] + segs, [br] + bases, [n] + sizes)
  {
    hide Core, Undisturbed, Live, NewGrant, SegList, Recorded, SegmentOk, Closed;
    ClosingHolds(m, x, C, ex, A, gm, csp, br, n);
    ClosedFacts(C, A.top, csp);
    TopFacts(m, x, C, ex, A, gm);
    assert FenceAt(m', csp + 48, 0);
    CoreClose(m, m', x, C, ex, ex', A, gm, csp, br, n);
    SegsPushed(m, m', C, Closed(C, A.top, csp), A, CloseArena(A, csp, br, n), segs, bases, sizes, csp, br, n);
  }

  ghost function EmptyIndex(): Index {
    Index(Zero(), Zero(), seq(32, i => []), Shape(map[], map[], map[]), map[], map[])
  }

  lemma EmptyIndexOk(m: Mem, gm: int, lo: int, hi: int)
    requires lo > 0 && gm > 0 && (gm + STATE_SIZE <= lo || hi <= gm)
    requires forall i {:trigger TreeBin(gm, i)} :: 0 <= i < 32 ==> Rd(m, TreeBin(gm, i)) == 0
    ensures IndexOk(m, EmptyIndex(), gm, lo, hi)
  {
    hide TreeIndex, Key;
    var x := EmptyIndex();
    forall i | 0 <= i < 32 ensures BinOk(m, x.sm, x.bins, x.B, gm, i) { }
    forall i | 0 <= i < 32 ensures RootOk(m, x.t, gm, i) { assert Rd(m, TreeBin(gm, i)) == 0; }
    forall i | 0 <= i < 32 ensures Mapped(x.tm, x.t, i) { }
  }

  /** An arena of one grant and no chunks. */
  lemma FirstSegment(m: Mem, A: Arena, gm: int)
    requires A.lo > 0 && gm > 0 && Away(A, gm) && A.top == A.lo && A16(A.top) && A16(A.topsize) && A.topsize > 0
    requires A.top + A.topsize + TOP_FOOT <= A.hi && A.heads == {A.top} && A.records == {} && A.granted == Bytes(A.top, A.topsize + TOP_FOOT)
    requires TopTagged(m, A.top, A.topsize)
    requires forall i {:trigger TreeBin(gm, i)} :: 0 <= i < 32 ==> Rd(m, TreeBin(gm, i)) == 0
    ensures Core(m, EmptyIndex(), map[], {} + {0}, A, gm)
    ensures SegList(m, map[], A, [], [A.top], [A.topsize + TOP_FOOT])
  {
    hide IndexOk;
    EmptyIndexOk(m, gm, A.lo, A.hi);
    var C: Tiling := map[];
    assert Starts(C, A, A.top);
    assert Tiled(C, A);
    assert FreeExcept(C, {} + {0}) == map[];
    var bases, sizes, segs: seq<int> := [A.top], [A.topsize + TOP_FOOT], [];
    assert SegmentOk(A, bases, sizes, 0);
  }

  lemma Aligned(br: int, n: int)
    requires br % 4096 == 0 && n % 4096 == 0
    ensures A16(br) && A16(n)
  {
    assert br == 16 * (256 * (br / 4096)) && n == 16 * (256 * (n / 4096));
  }

  lemma BlocksPut(L: map<int, int>, R: set<int>, p: int, s: int)
    requires p !in L && p !in R
    ensures L[p := s] - R == (L - R)[p := s]
  {
  }

  lemma BlocksRecord(L: map<int, int>, R: set<int>, p: int)
    requires p !in L
    ensures L[p := 48] - (R + {p}) == L - R
  {
  }

  lemma UndisturbedSub(m: Mem, m': Mem, L: map<int, int>, R: set<int>)
    requires Undisturbed(m, m', L)
    ensures Undisturbed(m, m', L - R)
  {
    forall q | q in L - R ensures PayloadKept(m, m', q, (L - R)[q]) { assert PayloadKept(m, m', q, L[q]); }
  }

  lemma RecordsLive(m: Mem, C: Tiling, A: Arena, segs: seq<int>, bases: seq<int>, sizes: seq<int>)
    requires SegList(m, C, A, segs, bases, sizes)
    ensures forall r {:trigger r in A.records} :: r in A.records ==> r in C && C[r].cinuse && C[r].size == 48
  {
    forall r | r in A.records ensures r in C && C[r].cinuse && C[r].size == 48 {
      var i :| 0 <= i < |segs| && segs[i] == r;
      assert Recorded(m, C, A, segs, bases, sizes, i);
    }
  }

  /** granularity_align over size_t, with 64 KiB granularity. */
  function GranularityAlign(s: int): int {
    var y := (s % W + 0xFFFF) % W;
    y - y % 0x10000
  }

  /** Unless the arithmetic wraps, the aligned request holds the chunk, its padding and a page multiple. */
  lemma GranularityFacts(nb: int)
    requires 0 <= nb < W
    ensures var a := GranularityAlign(nb + 96); a % 0x10000 == 0 && a % 4096 == 0 && a >= 0 && (a > nb <==> nb + 96 + 0xFFFF < W)
    ensures var a := GranularityAlign(nb + 96); a > nb ==> nb + 96 <= a < nb + 96 + 0x10000 && a >= 0x10000
  {
    var s := nb + 96;
    var y := (s % W + 0xFFFF) % W;
    var k := y / 0x10000;
    assert y - y % 0x10000 == 0x10000 * k == 4096 * (16 * k);
    if s >= W {
      assert s % W == s - W;
    } else if s + 0xFFFF >= W {
      assert y == s + 0xFFFF - W;
    } else {
      assert y == s + 0xFFFF;
    }
  }

  lemma ZeroBits(idx: nat)
    requires idx < 32
    ensures !Zero()[idx] && (idx + 1 < 32 ==> !Zero()[idx + 1]) && !NonZero(Zero()) && !NonZero(Shr(Zero(), idx))
  {
    AnyBelowMeans(Zero(), 32);
    AnyBelowMeans(Shr(Zero(), idx), 32);
  }

  const MAX_SMALL_REQUEST := 232
  const MAX_REQUEST := W - 128

  /** request2size: header overhead added and rounded up to 16, at least a minimal chunk. */
  function Request2Size(bytes: int): int {
    if bytes < 23 then 32 else bytes + 23 - (bytes + 23) % 16
  }

  /** The chunk holds the request and its header, is aligned, and is no larger than it must be. */
  lemma RequestFacts(bytes: int)
    requires 0 <= bytes
    ensures var nb := Request2Size(bytes); A16(nb) && nb >= 32 && bytes + 8 <= nb && (nb < bytes + 24 || nb == 32)
    ensures bytes <= MAX_SMALL_REQUEST <==> Request2Size(bytes) <= 240
    ensures bytes > MAX_SMALL_REQUEST ==> Request2Size(bytes) >= 256
  {
    var k := (bytes + 23) / 16;
    assert bytes + 23 - (bytes + 23) % 16 == 16 * k;
  }

  /** The chunk size dlmalloc looks for: the padded request, or all ones when that would overflow. */
  function PaddedSize(bytes: int): int { if bytes >= MAX_REQUEST then W - 1 else Request2Size(bytes) }

  lemma TooLarge()
    ensures GranularityAlign(W - 1 + 96) <= W - 1
  {
    GranularityFacts(W - 1);
  }

  /** Neither bins, designated victim nor top can serve nb bytes. */
  ghost predicate NoRoom(B: Stock, dvsize: int, topsize: int, nb: int) {
    dvsize < nb && topsize <= nb && forall y {:trigger B[y]} :: y in B ==> B[y] < nb
  }

  lemma SegmentsSame(A: Arena, A': Arena, bases: seq<int>, sizes: seq<int>)
    requires |bases| == |sizes| && A'.heads == A.heads && A'.granted == A.granted
    requires forall i {:trigger SegmentOk(A, bases, sizes, i)} :: 0 <= i < |bases| ==> SegmentOk(A, bases, sizes, i)
    ensures forall i {:trigger SegmentOk(A', bases, sizes, i)} :: 0 <= i < |bases| ==> SegmentOk(A', bases, sizes, i)
  {
    forall i | 0 <= i < |bases| ensures SegmentOk(A', bases, sizes, i) {
      assert SegmentOk(A, bases, sizes, i);
      assert Owned(A', bases[i], bases[i] + sizes[i]);
    }
  }

  /** The extent of an in-use chunk holds no other chunk and no record. */
  lemma Alone(m: Mem, x: Index, C: Tiling, ex: set<int>, A: Arena, gm: int, p: int, r: int)
    requires Core(m, x, C, ex, A, gm) && p in C && C[p].cinuse && p !in A.records && p < r < p + C[p].size
    ensures var e := p + C[p].size;
            Boundary(C, p, e, A) && AllLoose(C, ex, p, e) && LiveOutside(C, p, e) == Live(C) - {p} && r !in C && r !in A.records && p in Live(C) && r !in Live(C)
  {
    hide IndexOk;
    Solo(C, p, A);
    Span(C, p, p, p + C[p].size, A, ex);
    assert r in C ==> Before(C, p, r);
  }

  lemma Rep2First(C: Tiling, a: int, b: int, e: int, v: bool)
    requires a in C && a < b < e
    ensures var D := Rep2(C, a, b, e, v); a in D && D[a] == Chunk(b - a, true, C[a].pinuse)
  {
  }

  lemma CutLive(L: map<int, int>, p: int, nb: int, r: int, rsize: int)
    requires p in L && r !in L && r != p
    ensures (L - {p})[p := nb][r := rsize] == L[p := nb][r := rsize]
  {
  }

  /** Writes beyond the first nb bytes of p, and none in other live chunks. */
  lemma OwnKept(m: Mem, m': Mem, L: map<int, int>, p: int, nb: int)
    requires Undisturbed(m, m', L - {p}) && PayloadKept(m, m', p, nb)
    ensures Undisturbed(m, m', L[p := nb])
  {
    var K := L[p := nb];
    forall q | q in K ensures PayloadKept(m, m', q, K[q]) { if q != p { assert PayloadKept(m, m', q, (L - {p})[q]); } }
  }

  lemma LiveHas(C: Tiling, p: int)
    requires p in C && C[p].cinuse
    ensures p in Live(C) && Live(C)[p] == C[p].size
  {
  }

  lemma EndKeepsAny(C: Tiling, a: int, e: int, pinuse: bool, q: int)
    requires a in C && C[a].cinuse
    ensures q in C && !C[q].cinuse ==> q in EndAt(C, a, e, pinuse) && EndAt(C, a, e, pinuse)[q] == C[q]
  {
  }

  /** What lies between an in-use chunk's start and the end of the free chunk behind it. */
  lemma SpanInside(m: Mem, x: Index, C: Tiling, ex: set<int>, A: Arena, gm: int, p: int, r: int, q: int)
    requires Core(m, x, C, ex, A, gm) && p in C && C[p].cinuse && p !in A.records
    requires var n := p + C[p].size; n in C && !C[n].cinuse && n in ex && n < r < n + C[n].size && q != n
    ensures r !in C && r !in A.records && r !in Live(C) && (q in C && !C[q].cinuse ==> !(p <= q < p + C[p].size + C[p + C[p].size].size))
  {
    hide IndexOk;
    var n := p + C[p].size;
    assert TileOk(C, p, A) && TileOk(C, n, A);
    assert r in C ==> Before(C, n, r);
    if q in C { assert Before(C, p, q) && Before(C, n, q); }
  }

  function Smaller(a: int, b: int): int { if a < b then a else b }

  lemma SpanInsideDv(m: Mem, x: Index, C: Tiling, ex: set<int>, A: Arena, gm: int, p: int, q: int)
    requires Core(m, x, C, ex, A, gm) && p in C && C[p].cinuse && p !in A.records
    requires var n := p + C[p].size; n in C && !C[n].cinuse && n in ex && q != n
    ensures q in C && !C[q].cinuse ==> !(p <= q < p + C[p].size + C[p + C[p].size].size)
  {
    hide IndexOk;
    var n := p + C[p].size;
    assert TileOk(C, n, A);
    SpanInside(m, x, C, ex, A, gm, p, n + 1, q);
  }

  /** A payload kept at a larger size is kept at a smaller one. */
  lemma Regrown(m: Mem, m': Mem, L: map<int, int>, p: int, nb: int)
    requires Undisturbed(m, m', L[p := nb]) && p in L && L[p] <= nb
    ensures Undisturbed(m, m', L)
  {
    forall q | q in L ensures PayloadKept(m, m', q, L[q]) { assert PayloadKept(m, m', q, L[p := nb][q]); }
  }

  ghost predicate WordMoved(m: Mem, m': Mem, src: int, dst: int, i: int) { Rd(m', dst + 8 * i) == Rd(m, src + 8 * i) }

  /** The first n bytes at dst in m' are those at src in m. */
  ghost predicate WordsMoved(m: Mem, m': Mem, src: int, dst: int, n: int) {
    forall i {:trigger WordMoved(m, m', src, dst, i)} :: 0 <= i && 8 * i < n ==> WordMoved(m, m', src, dst, i)
  }

  lemma WordsMore(m: Mem, m1: Mem, m': Mem, src: int, dst: int, k: int)
    requires WordsMoved(m, m1, src, dst, 8 * k) && k >= 0 && m' == m1[dst + 8 * k := Rd(m, src + 8 * k)]
    ensures WordsMoved(m, m', src, dst, 8 * (k + 1))
  {
    forall i | 0 <= i && 8 * i < 8 * (k + 1) ensures WordMoved(m, m', src, dst, i) {
      if i < k { assert WordMoved(m, m1, src, dst, i); }
    }
  }

  lemma EightTimes(q: int, i: int)
    requires A16(q)
    ensures (q + 16 + 8 * i) % 8 == 0
  {
    var k := q / 16;
    assert q + 16 + 8 * i == 8 * (2 * k + 2 + i);
  }

  /**
   * Realloc from mp to np: the old block is gone, the new one, which may be the same place, holds nb bytes of chunk and
   * the old contents as far as both reach, and every other block is untouched.
   */
  ghost predicate Moved(m: Mem, m': Mem, K: map<int, int>, K': map<int, int>, mp: int, np: int, nb: int) {
    var p, q := mp - 16, np - 16;
    && p in K && q in K' && q !in K - {p} && K' == (K - {p})[q := K'[q]] && nb <= K'[q] < nb + 32 && A16(np)
    && WordsMoved(m, m', mp, np, Smaller(K[p], K'[q]) - 8) && Undisturbed(m, m', K - {p})
  }

  lemma AfterMove(m0: Mem, m1: Mem, m2: Mem, m': Mem, K: map<int, int>, p: int, q: int, s: int, n: int)
    requires p in K && q !in K && n <= K[p] - 8 && n <= s - 8 && n >= 0
    requires Undisturbed(m0, m1, K) && Undisturbed(m1, m2, K[q := s] - {q}) && Undisturbed(m2, m', K[q := s] - {p})
    requires WordsMoved(m1, m2, p + 16, q + 16, n)
    ensures WordsMoved(m0, m', p + 16, q + 16, n) && Undisturbed(m0, m', K - {p})
    ensures K[q := s] - {p} == (K - {p})[q := s]
  {
    assert K[q := s] - {q} == K;
    forall i | 0 <= i && 8 * i < n ensures WordMoved(m0, m', p + 16, q + 16, i) {
      assert WordMoved(m1, m2, p + 16, q + 16, i);
      assert PayloadKept(m0, m1, p, K[p]);
      assert PayloadKept(m2, m', q, (K[q := s] - {p})[q]);
    }
    UndisturbedTwice(m0, m1, m2, K, K);
    UndisturbedSub(m2, m', K[q := s] - {p}, {q});
    assert K[q := s] - {p} - {q} == K - {p};
    UndisturbedTwice(m0, m2, m', K, K - {p});
  }

  lemma StayedPut(m: Mem, m': Mem, K: map<int, int>, K': map<int, int>, p: int)
    requires p in K && p in K' && K' == K[p := K'[p]] && Undisturbed(m, m', K[p := Smaller(K[p], K'[p])])
    ensures WordsMoved(m, m', p + 16, p + 16, Smaller(K[p], K'[p]) - 8) && Undisturbed(m, m', K - {p}) && K' == (K - {p})[p := K'[p]]
  {
    var k := Smaller(K[p], K'[p]);
    assert PayloadKept(m, m', p, K[p := k][p]);
    forall i | 0 <= i && 8 * i < k - 8 ensures WordMoved(m, m', p + 16, p + 16, i) { }
    UndisturbedSub(m, m', K[p := k], {p});
    assert K[p := k] - {p} == K - {p};
  }

  /** The request is so large that rounding it up to the granularity wraps around. */
  predicate TooBig(bytes: int) { GranularityAlign(PaddedSize(bytes) + 96) <= PaddedSize(bytes) }

  /** What internal_memalign refuses outright, or finds out to wrap around. */
  predicate Unservable(alignment: int, bytes: int) { bytes >= MAX_REQUEST - alignment || TooBig(Request2Size(bytes) + alignment + 24) }

  /** What memalign may ask sbrk for. */
  function MemalignGrant(alignment: int, bytes: int): int { GranularityAlign(PaddedSize(Request2Size(bytes) + alignment + 24) + 96) }

  lemma LeadFits(p: int, alignment: int, spot: int)
    requires alignment % 32 == 0 && p < spot < p + alignment && A16(spot - p)
    ensures var pos := if spot - p >= 32 then spot else spot + alignment; A16(pos - p) && 32 <= pos - p <= alignment + 16
  {
    var i, j := (spot - p) / 16, alignment / 32;
    Sixteens(i, j);
    assert spot - p == 16 * i && spot + alignment - p == 16 * (i + 2 * j);
  }

  lemma Sixteens(i: int, j: int)
    ensures A16(16 * i) && A16(16 * (i + 2 * j))
  {
  }

  lemma SmallCeil(alignment: nat, np: int)
    requires alignment <= 16
    ensures A16(np) ==> np % CeilPow2(alignment) == 0
  {
    hide CeilPow2;
    CeilUpTo16(alignment);
    if A16(np) { SmallDivides(np / 16, CeilPow2(alignment), np); }
  }

  lemma SmallDivides(j: int, c: int, np: int)
    requires np == 16 * j && c in {1, 2, 4, 8, 16}
    ensures np % c == 0
  {
    if c == 1 {
    } else if c == 2 {
      assert np == 2 * (8 * j);
    } else if c == 4 {
      assert np == 4 * (4 * j);
    } else if c == 8 {
      assert np == 8 * (2 * j);
    }
  }

  lemma CeilUpTo16(n: nat)
    requires n <= 16
    ensures CeilPow2(n) in {1, 2, 4, 8, 16}
  {
    assert n > 1 ==> CeilPow2(n) == 2 * CeilPow2((n + 1) / 2);
    hide CeilPow2;
    if n > 1 { CeilUpTo8((n + 1) / 2); }
  }

  lemma CeilUpTo8(n: nat)
    requires n <= 8
    ensures CeilPow2(n) in {1, 2, 4, 8}
  {
    if n > 2 {
      var h := (n + 1) / 2;
      assert CeilPow2(n) == 2 * CeilPow2(h);
      assert h > 2 ==> CeilPow2(h) == 2 * CeilPow2((h + 1) / 2);
    }
  }

  /** Both ways memalign settles on an alignment end at the least power of two, a multiple of 32. */
  lemma AlignmentRounds(alignment: nat, a: int)
    requires 16 < alignment <= HALF && a == if alignment < 32 then 32 else alignment
    ensures CeilPow2(alignment) == CeilPow2(a) && CeilPow2(a) % 32 == 0 && 32 <= CeilPow2(a)
    ensures ClearLowest(a) == 0 ==> a == CeilPow2(a)
  {
    HalfPow2();
    Pow2Test(a);
    if IsPow2(a) { CeilUnique(a, a); }
    if alignment < 32 { CeilUnique(alignment, 32); }
    if CeilPow2(a) > 32 { Pow2Order(32, CeilPow2(a)); }
  }

  ghost predicate ZeroWord(m: Mem, a: int, i: int) { Rd(m, a + 8 * i) == 0 }

  lemma LowCleared(w: int, a: int)
    requires a > 0
    ensures (w - w % a) % a == 0
  {
    DivUnique(w - w % a, a, w / a, 0);
  }

  lemma LastWord(n: int, i: int)
    requires 0 <= i && 8 * i <= n < 8 * i + 8
    ensures n % 8 == n - 8 * i && 0 <= n % 8
  {
  }

  /** The request dlcalloc passes on: the product in 64 bits, or all ones when a division shows that it wrapped. */
  function CallocRequest(n: int, size: int): int
    requires 0 <= n && 0 <= size
  {
    if n == 0 then 0
    else
      var req := n * size % W;
      if (n >= 0x10000 || size >= 0x10000) && req / n != size then W - 1 else req
  }

  lemma MulMono(a: int, b: int, c: int, d: int)
    requires 0 <= a <= c && 0 <= b <= d
    ensures 0 <= a * b <= c * d
  {
    assert a * b <= c * b <= c * d;
  }

  /** The division test catches exactly the products that do not fit. */
  lemma CallocFacts(n: int, size: int)
    requires 0 <= n < W && 0 <= size < W
    ensures CallocRequest(n, size) == if n * size < W then n * size else W - 1
  {
    MulMono(0, 0, n, size);
    if n != 0 {
      if n < 0x10000 && size < 0x10000 { SmallProduct(n, size); }
      if n * size < W {
        FitsMod(n * size);
        DivUnique(n * size, n, size, 0);
      } else {
        WrapsBelow(n * size);
        var req := n * size % W;
        Quotient(req, n, size);
      }
    }
  }

  lemma SmallProduct(n: int, size: int)
    requires 0 <= n < 0x10000 && 0 <= size < 0x10000
    ensures n * size < W
  {
    MulMono(n, size, 0x10000, 0x10000);
  }

  lemma FitsMod(x: int)
    requires 0 <= x < W
    ensures x % W == x
  {
  }

  lemma WrapsBelow(x: int)
    requires W <= x
    ensures 0 <= x % W < x
  {
  }

  lemma Quotient(x: int, n: int, size: int)
    requires n > 0 && 0 <= x < n * size
    ensures x / n != size
  {
    assert x / n == size ==> x == n * size + x % n;
  }

  function AlignedGrant(alignment: nat, bytes: int): int {
    if alignment <= 16 then GranularityAlign(PaddedSize(bytes) + 96) else MemalignGrant(CeilPow2(alignment), bytes)
  }

  lemma PlusHeader(p: int)
    requires A16(p)
    ensures A16(p + 16)
  {
  }
}
