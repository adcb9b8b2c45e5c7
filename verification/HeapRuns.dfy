/** Whole runs of the heap: whatever well-behaved callers ask for and whatever pages the kernel hands out. */
module HeapRuns {
  import opened Memory
  import opened Trie
  import opened SmallBins
  import opened TreeShape
  import opened Tiles
  import opened Tags
  import opened Alignment
  import opened Heap
  import opened Octets

  /** One request of a caller; answer is where the kernel would place new pages. */
  datatype Request =
    | Allocate(bytes: nat, answer: int)
    | Zeroed(n: nat, size: nat, answer: int)
    | Align(alignment: nat, bytes: nat, answer: int)
    | Resize(mp: int, bytes: nat, answer: int)
    | Release(mp: int)
    | Write(mp: int, index: nat, value: int)
    | Read(mp: int, index: nat)

  // ---------------------------------------------------------------- the store of independent blocks

  /** A block of the abstract store: how many bytes were asked for, how large its chunk is, and the words written. */
  datatype Block = Block(bytes: nat, room: int, words: map<int, int>)

  /** The blocks callers hold, by chunk address. */
  type World = map<int, Block>

  ghost function Zeros(n: int): map<int, int> { map i | 0 <= i < n && 8 * i + 8 <= n :: 0 }

  /** The words of a block that lie in its first size bytes of chunk. */
  ghost function Within(words: map<int, int>, size: int): map<int, int> { map i | i in words && 8 * i + 16 <= size :: words[i] }

  /** A block for that many bytes and with those contents appears at mp, or nothing changes. */
  ghost predicate Gained(w: World, w': World, mp: int, bytes: nat, words: map<int, int>) {
    if mp == 0 then w' == w
    else mp - 16 !in w && mp - 16 in w' && bytes + 8 <= w'[mp - 16].room && w' == w[mp - 16 := Block(bytes, w'[mp - 16].room, words)]
  }

  /** The block at mp becomes one for that many bytes at np, with what fits of its contents, or nothing changes. */
  ghost predicate Transferred(w: World, w': World, mp: int, np: int, bytes: nat)
    requires mp - 16 in w
  {
    var p, q := mp - 16, np - 16;
    if np == 0 then w' == w
    else q !in w - {p} && q in w' && bytes + 8 <= w'[q].room && w' == (w - {p})[q := Block(bytes, w'[q].room, Within(w[p].words, w'[q].room))]
  }

  /** Word index of the block at mp becomes v, if the block reaches that far. */
  ghost function Written(w: World, mp: int, index: nat, v: int): World
    requires mp - 16 in w
  {
    var b := w[mp - 16];
    if 8 * index + 16 <= b.room then w[mp - 16 := b.(words := b.words[index := v])] else w
  }

  /** What a request does to the store, and its result. Requests on blocks the caller does not hold do nothing. */
  ghost predicate Effect(r: Request, result: int, w: World, w': World) {
    match r
    case Allocate(bytes, _) => Gained(w, w', result, bytes, map[])
    case Zeroed(n, size, _) => n * size >= 0 && Gained(w, w', result, n * size, Zeros(n * size))
    case Align(alignment, bytes, _) => Gained(w, w', result, bytes, map[]) && (result != 0 ==> result % CeilPow2(alignment) == 0)
    case Resize(mp, bytes, _) =>
      if mp == 0 then Gained(w, w', result, bytes, map[])
      else if mp - 16 in w then Transferred(w, w', mp, result, bytes)
      else w' == w && result == 0
    case Release(mp) => w' == w - {mp - 16}
    case Write(mp, index, value) => w' == if mp - 16 in w then Written(w, mp, index, value) else w
    case Read(mp, index) => w' == w && (mp - 16 in w && index in w[mp - 16].words ==> result == w[mp - 16].words[index])
  }

  /** Two blocks, each with the words written inside it, do not overlap. */
  ghost predicate PairApart(w: World, p: int, q: int)
    requires p in w && q in w
  {
    p > 0 && p % 16 == 0 && w[p].bytes + 8 <= w[p].room && (p != q ==> p + w[p].room <= q || q + w[q].room <= p)
  }

  ghost predicate AllApart(w: World) { forall p, q {:trigger PairApart(w, p, q)} :: p in w && q in w ==> PairApart(w, p, q) }

  /** A run seen from outside: the requests, their results, and the store before and after each. */
  ghost predicate Trace(requests: seq<Request>, results: seq<int>, worlds: seq<World>) {
    && |results| == |requests| && |worlds| == |requests| + 1
    && (forall k {:trigger worlds[k]} :: 0 <= k < |worlds| ==> AllApart(worlds[k]))
    && forall k {:trigger requests[k]} :: 0 <= k < |requests| ==> Effect(requests[k], results[k], worlds[k], worlds[k + 1])
  }

  // ---------------------------------------------------------------- the pages a run takes

  predicate Allocates(r: Request) { r.Allocate? || r.Zeroed? || r.Align? || r.Resize? }

  /** What the heap asks the system for when it has nothing that would do. */
  function Wanted(r: Request): int {
    match r
    case Allocate(bytes, _) => GranularityAlign(PaddedSize(bytes) + 96)
    case Zeroed(n, size, _) => GranularityAlign(PaddedSize(CallocRequest(n, size)) + 96)
    case Align(alignment, bytes, _) => AlignedGrant(alignment, bytes)
    case Resize(_, bytes, _) => GranularityAlign(PaddedSize(bytes) + 96)
    case _ => 0
  }

  /** No amount of memory helps: the request is at the limit, or rounding it up wraps around. */
  predicate Oversized(r: Request) {
    match r
    case Allocate(bytes, _) => TooBig(bytes)
    case Zeroed(n, size, _) => TooBig(CallocRequest(n, size))
    case Align(alignment, bytes, _) => if alignment <= 16 then TooBig(bytes) else Unservable(CeilPow2(alignment), bytes)
    case Resize(_, bytes, _) => bytes >= MAX_REQUEST || TooBig(bytes)
    case _ => false
  }

  /** The pages the kernel would place for a request. */
  function Offer(r: Request): set<int>
    requires Allocates(r)
  {
    PageSet(r.answer / 4096, (r.answer + Wanted(r)) / 4096)
  }

  /** n bytes at answer are whole pages of the direct map. */
  predicate InWindow(base: int, answer: int, n: int) { answer % 4096 == 0 && base <= answer && answer + n <= base + MAX_SIZE }

  predicate Placeable(pages: set<int>, base: int, answer: int, n: int) {
    InWindow(base, answer, n) && PageSet(answer / 4096, (answer + n) / 4096) * pages == {}
  }

  /** The request does something: a resize needs a block that is held, or the null pointer. */
  ghost predicate Admitted(r: Request, held: set<int>) { Allocates(r) && (r.Resize? && r.mp != 0 ==> r.mp - 16 in held) }

  /** A request takes the pages offered or none, and fails only if they are not to be had or nothing would help. */
  ghost predicate Supply(r: Request, result: int, held: set<int>, base: int, pages: set<int>, pages': set<int>) {
    if Admitted(r, held) then
      && (pages' == pages || (Placeable(pages, base, r.answer, Wanted(r)) && pages' == pages + Offer(r)))
      && (result == 0 ==> Oversized(r) || !Placeable(pages, base, r.answer, Wanted(r)))
    else pages' == pages
  }

  /** The pages taken before and after each request of a run. */
  ghost predicate Supplied(requests: seq<Request>, results: seq<int>, worlds: seq<World>, base: int, taken: seq<set<int>>) {
    && |results| == |requests| && |worlds| == |taken| == |requests| + 1
    && forall k {:trigger requests[k]} :: 0 <= k < |requests| ==> Supply(requests[k], results[k], worlds[k].Keys, base, taken[k], taken[k + 1])
  }

  // ---------------------------------------------------------------- the last write, from requests and results alone

  /** Where word i of the block at p lives after a request, as long as it must keep its value. */
  function Fate(r: Request, result: int, p: int, i: nat): Option<int> {
    match r
    case Release(mp) => if mp - 16 == p then None else Some(p)
    case Resize(mp, bytes, _) =>
      if mp == 0 || mp - 16 != p || result == 0 then Some(p) else if 8 * i + 8 <= bytes then Some(result - 16) else None
    case Write(mp, index, _) => if mp - 16 == p && index == i then None else Some(p)
    case _ => Some(p)
  }

  /** The same over requests j up to k. */
  function Follow(requests: seq<Request>, results: seq<int>, p: int, i: nat, j: nat, k: nat): Option<int>
    requires j <= k <= |requests| == |results|
    decreases k - j
  {
    if j == k then Some(p) else
      match Fate(requests[j], results[j], p, i)
      case None => None
      case Some(q) => Follow(requests, results, q, i, j + 1, k)
  }

  /** The blocks the caller of a request holds afterwards and what it asked for, given what it held before. */
  function Holding(r: Request, result: int, held: map<int, nat>): map<int, nat> {
    match r
    case Allocate(bytes, _) => if result == 0 then held else held[result - 16 := bytes]
    case Zeroed(n, size, _) => if result == 0 || n * size < 0 then held else held[result - 16 := n * size]
    case Align(_, bytes, _) => if result == 0 then held else held[result - 16 := bytes]
    case Resize(mp, bytes, _) => if result == 0 then held else (held - {mp - 16})[result - 16 := bytes]
    case Release(mp) => held - {mp - 16}
    case Write(_, _, _) => held
    case Read(_, _) => held
  }

  /** What is held after the first k requests, starting with nothing. */
  function Held(requests: seq<Request>, results: seq<int>, k: nat): map<int, nat>
    requires k <= |requests| == |results|
  {
    if k == 0 then map[] else Holding(requests[k - 1], results[k - 1], Held(requests, results, k - 1))
  }

  ghost function Sizes(w: World): map<int, nat> { map p | p in w :: w[p].bytes }

  lemma HoldingIs(r: Request, result: int, w: World, w': World)
    requires Effect(r, result, w, w') && AllApart(w)
    ensures Sizes(w') == Holding(r, result, Sizes(w))
  {
    hide AllApart;
    match r
    case Resize(mp, bytes, _) =>
      if mp == 0 && -16 in w {
        BlockAt(w, -16);
        assert false;
      }
    case _ =>
  }

  lemma BlockAt(w: World, p: int)
    requires AllApart(w) && p in w
    ensures PairApart(w, p, p)
  {
  }

  /** The store's blocks are exactly those that requests and results say are held, at the size asked for. */
  lemma {:induction false} HeldIs(requests: seq<Request>, results: seq<int>, worlds: seq<World>, k: nat)
    requires Trace(requests, results, worlds) && worlds[0] == map[] && k <= |requests|
    ensures Sizes(worlds[k]) == Held(requests, results, k)
  {
    hide Effect, AllApart, Holding;
    if k > 0 {
      HeldIs(requests, results, worlds, k - 1);
      assert Effect(requests[k - 1], results[k - 1], worlds[k - 1], worlds[k - 1 + 1]);
      assert AllApart(worlds[k - 1]);
      HoldingIs(requests[k - 1], results[k - 1], worlds[k - 1], worlds[k]);
    }
  }

  /** One request leaves the word its value wherever Fate says it lives. */
  lemma FateKeeps(r: Request, result: int, w: World, w': World, p: int, i: nat)
    requires Effect(r, result, w, w') && p in w && i in w[p].words && p > 0
    ensures var q := Fate(r, result, p, i); q.Some? ==> q.value in w' && i in w'[q.value].words && w'[q.value].words[i] == w[p].words[i]
  {
  }

  /** In every run a word keeps its value from request j to request k wherever its block went, until it is written or let go. */
  lemma {:induction false} Survives(requests: seq<Request>, results: seq<int>, worlds: seq<World>, p: int, i: nat, j: nat, k: nat)
    requires Trace(requests, results, worlds) && j <= k <= |requests| && p in worlds[j] && i in worlds[j][p].words
    ensures var q := Follow(requests, results, p, i, j, k);
            q.Some? ==> q.value in worlds[k] && i in worlds[k][q.value].words && worlds[k][q.value].words[i] == worlds[j][p].words[i]
    decreases k - j
  {
    hide Effect, PairApart;
    if j < k {
      assert Effect(requests[j], results[j], worlds[j], worlds[j + 1]);
      assert p > 0 by { assert AllApart(worlds[j]); StartsPositive(worlds[j], p); }
      FateKeeps(requests[j], results[j], worlds[j], worlds[j + 1], p, i);
      var q := Fate(requests[j], results[j], p, i);
      if q.Some? { Survives(requests, results, worlds, q.value, i, j + 1, k); }
    }
  }

  lemma StartsPositive(w: World, p: int)
    requires AllApart(w) && p in w
    ensures p > 0
  {
    assert PairApart(w, p, p);
  }

  /** Request k reads the word that request j put there: a write inside the size asked for, or a zeroed allocation. */
  predicate ReadsBack(requests: seq<Request>, results: seq<int>, j: nat, k: nat)
    requires j < k < |requests| == |results|
  {
    match requests[k]
    case Read(mp, i) =>
      (match requests[j]
       case Write(at, index, value) =>
         (index == i && at - 16 in Held(requests, results, j) && 8 * i + 8 <= Held(requests, results, j)[at - 16]
          && Follow(requests, results, at - 16, i, j + 1, k) == Some(mp - 16)) ==> results[k] == value
       case Zeroed(n, size, _) =>
         (results[j] != 0 && 8 * i + 8 <= n * size && Follow(requests, results, results[j] - 16, i, j + 1, k) == Some(mp - 16)) ==> results[k] == 0
       case _ => true)
    case _ => true
  }

  /** The last-write law over every run from an empty heap. */
  lemma LastWrite(requests: seq<Request>, results: seq<int>, worlds: seq<World>, j: nat, k: nat)
    requires Trace(requests, results, worlds) && worlds[0] == map[] && j < k < |requests|
    ensures ReadsBack(requests, results, j, k)
  {
    hide Held, Follow, AllApart, Within;
    HeldIs(requests, results, worlds, j);
    assert Effect(requests[j], results[j], worlds[j], worlds[j + 1]) && Effect(requests[k], results[k], worlds[k], worlds[k + 1]);
    if requests[k].Read? {
      var i := requests[k].index;
      match requests[j]
      case Write(at, index, value) =>
        if index == i && at - 16 in Held(requests, results, j) && 8 * i + 8 <= Held(requests, results, j)[at - 16] {
          assert at - 16 in worlds[j] && AllApart(worlds[j]);
          BlockAt(worlds[j], at - 16);
          assert worlds[j + 1][at - 16].words[i] == value;
          Survives(requests, results, worlds, at - 16, i, j + 1, k);
        }
      case Zeroed(n, size, _) =>
        if results[j] != 0 && 8 * i + 8 <= n * size {
          assert i in Zeros(n * size);
          Survives(requests, results, worlds, results[j] - 16, i, j + 1, k);
        }
      case _ =>
    }
  }

  // ---------------------------------------------------------------- the store against memory

  /** Word i of block q is inside its payload and reads back as v. */
  ghost predicate Reads(m: Mem, q: int, size: int, i: int, v: int) { 0 <= i && 8 * i + 16 <= size && Rd(m, q + 16 + 8 * i) == v }

  ghost predicate BlockHolds(m: Mem, q: int, b: Block) {
    b.bytes + 8 <= b.room && forall i {:trigger b.words[i]} :: i in b.words ==> Reads(m, q, b.room, i, b.words[i])
  }

  ghost predicate Holds(m: Mem, K: map<int, int>, w: World) {
    && w.Keys == K.Keys
    && forall q {:trigger BlockHolds(m, q, w[q])} :: q in w ==> w[q].room == K[q] && BlockHolds(m, q, w[q])
  }

  /** Untouched payloads still hold what was stored. */
  lemma Kept(m: Mem, m': Mem, q: int, b: Block)
    requires BlockHolds(m, q, b) && PayloadKept(m, m', q, b.room)
    ensures BlockHolds(m', q, b)
  {
    forall i | i in b.words ensures Reads(m', q, b.room, i, b.words[i]) {
      assert Reads(m, q, b.room, i, b.words[i]);
      assert Rd(m', q + 16 + 8 * i) == Rd(m, q + 16 + 8 * i);
    }
  }

  /** A step that leaves the blocks of L alone and only drops others from the store. */
  lemma StoreShrinks(m: Mem, m': Mem, K: map<int, int>, L: map<int, int>, w: World)
    requires Holds(m, K, w) && Undisturbed(m, m', L) && forall q {:trigger q in L} :: q in L ==> q in K && L[q] == K[q]
    ensures Holds(m', L, map q | q in w && q in L :: w[q])
  {
    var w' := map q | q in w && q in L :: w[q];
    forall q | q in L ensures q in w { assert q in K.Keys; }
    assert w'.Keys == L.Keys;
    forall q | q in w' ensures w'[q].room == L[q] && BlockHolds(m', q, w'[q]) {
      assert BlockHolds(m, q, w[q]) && PayloadKept(m, m', q, L[q]);
      Kept(m, m', q, w[q]);
    }
  }

  lemma StoreSame(m: Mem, m': Mem, K: map<int, int>, w: World)
    requires Holds(m, K, w) && Undisturbed(m, m', K)
    ensures Holds(m', K, w)
  {
    StoreShrinks(m, m', K, K, w);
    assert (map q | q in w && q in K :: w[q]) == w;
  }

  /** A new block holds what memory has at its address. */
  lemma StoreGrows(m: Mem, K: map<int, int>, w: World, q: int, b: Block)
    requires Holds(m, K, w) && q !in K && BlockHolds(m, q, b)
    ensures Holds(m, K[q := b.room], w[q := b])
  {
    var K', w' := K[q := b.room], w[q := b];
    forall x | x in w' ensures w'[x].room == K'[x] && BlockHolds(m, x, w'[x]) {
      if x != q { assert BlockHolds(m, x, w[x]); }
    }
  }

  lemma StoreWrites(m: Mem, m': Mem, K: map<int, int>, w: World, q: int, i: nat, v: int)
    requires Holds(m, K, w) && q in K && 8 * i + 16 <= K[q] && m' == m[q + 16 + 8 * i := v] && Undisturbed(m, m', K - {q})
    ensures q in w && w[q].room == K[q] && Holds(m', K, Written(w, q + 16, i, v))
  {
    var w' := w[q := w[q].(words := w[q].words[i := v])];
    assert BlockHolds(m, q, w[q]);
    forall x | x in w' ensures w'[x].room == K[x] && BlockHolds(m', x, w'[x]) {
      if x != q {
        assert BlockHolds(m, x, w[x]) && PayloadKept(m, m', x, (K - {q})[x]);
        Kept(m, m', x, w[x]);
      } else {
        forall j | j in w'[q].words ensures Reads(m', q, K[q], j, w'[q].words[j]) { if j != i { assert Reads(m, q, K[q], j, w[q].words[j]); } }
      }
    }
  }

  /** The footprint is the number of bytes obtained. */
  ghost predicate Accounted(footprint: int, granted: set<int>) { footprint == |granted| }

  lemma MoreBytes(footprint: int, granted: set<int>, br: int, n: int)
    requires Accounted(footprint, granted) && Bytes(br, n) !! granted && n >= 0
    ensures Accounted(footprint + n, granted + Bytes(br, n))
  {
    ByteCount(br, n);
  }

  /** Moving a block moves what it holds, as far as the new one reaches. */
  lemma StoreMoves(m: Mem, m': Mem, K: map<int, int>, K': map<int, int>, w: World, mp: int, np: int, nb: int, bytes: nat)
    requires Holds(m, K, w) && Moved(m, m', K, K', mp, np, nb) && bytes + 8 <= nb
    ensures Holds(m', K', (w - {mp - 16})[np - 16 := Block(bytes, K'[np - 16], Within(w[mp - 16].words, K'[np - 16]))])
  {
    var p, q := mp - 16, np - 16;
    var b := Block(bytes, K'[q], Within(w[p].words, K'[q]));
    var w' := (w - {p})[q := b];
    assert BlockHolds(m, p, w[p]);
    forall x | x in w' ensures w'[x].room == K'[x] && BlockHolds(m', x, w'[x]) {
      if x != q {
        assert BlockHolds(m, x, w[x]) && PayloadKept(m, m', x, (K - {p})[x]);
        Kept(m, m', x, w[x]);
      } else {
        forall i | i in b.words ensures Reads(m', q, K'[q], i, b.words[i]) {
          assert Reads(m, p, K[p], i, w[p].words[i]);
          assert WordMoved(m, m', mp, np, i);
        }
      }
    }
  }

  lemma HoldsKeys(m: Mem, K: map<int, int>, w: World)
    requires Holds(m, K, w)
    ensures w.Keys == K.Keys
  {
  }

  lemma HoldsAt(m: Mem, K: map<int, int>, w: World, q: int)
    requires Holds(m, K, w) && q in w
    ensures q in K && w[q].room == K[q] && w[q].bytes + 8 <= w[q].room && BlockHolds(m, q, w[q])
  {
    assert BlockHolds(m, q, w[q]);
  }

  /** A block nobody has written to yet. */
  lemma EmptyBlock(m: Mem, q: int, bytes: nat, room: int)
    requires bytes + 8 <= room
    ensures BlockHolds(m, q, Block(bytes, room, map[]))
  {
  }

  lemma ZeroBlock(m: Mem, q: int, n: nat, room: int)
    requires n + 8 <= room
    requires forall i {:trigger ZeroWord(m, q + 16, i)} :: 0 <= i && 8 * i + 8 <= n ==> ZeroWord(m, q + 16, i)
    ensures BlockHolds(m, q, Block(n, room, Zeros(n)))
  {
    forall i | i in Zeros(n) ensures Reads(m, q, room, i, 0) { assert ZeroWord(m, q + 16, i); }
  }

  ghost predicate Paged(pages: set<int>, w: int) { w / 4096 in pages }

  class Run {
    const heap: Heap
    /** Pages handed out so far, by number. */
    var pages: set<int>
    /** Chunk addresses of the blocks callers hold. */
    var live: set<int>
    ghost var world: World

    /** The heap is intact, no check has failed, and every block holds what its owner stored. */
    ghost predicate Coherent()
      reads this, heap
    {
      && heap.Valid() && !heap.aborted && Holds(heap.mem, heap.Blocks(), world) && live == heap.Blocks().Keys
      && Accounted(heap.footprint, heap.granted)
      && forall w {:trigger Paged(pages, w)} :: w in heap.granted ==> Paged(pages, w)
    }

    constructor (gm: int, base: int)
      requires gm > 0 && base > 0 && (gm + STATE_SIZE <= base || base + MAX_SIZE <= gm)
      ensures Coherent() && world == map[] && pages == {} && heap.base == base && fresh(heap)
    {
      heap := new Heap(gm, base);
      pages, live, world := {}, {}, map[];
    }

    /** The kernel's answer, if those pages are free and in the direct map; otherwise there is no memory. */
    method Place(answer: int, n: int) returns (br: int)
      requires Coherent() && n % 4096 == 0
      ensures heap.Grantable(br, n) && (br != 0 ==> Bytes(br, n) !! heap.granted)
      ensures if Placeable(pages, heap.base, answer, n) then br == answer != 0 else br == 0
    {
      br := 0;
      if Placeable(pages, heap.base, answer, n) {
        br := answer;
        forall w | answer <= w < answer + n ensures w !in heap.granted {
          PageOf(answer, n, w);
          var offered := PageSet(answer / 4096, (answer + n) / 4096);
          assert w / 4096 in offered && w / 4096 !in offered * pages;
          assert w in heap.granted ==> Paged(pages, w);
        }
      }
    }

    /** Note which pages the heap took, going by its footprint. */
    method NotePages(ghost granted0: set<int>, footprint0: int, br: int, n: int)
      requires n % 4096 == 0 && n >= 0 && (br != 0 ==> br % 4096 == 0) && heap.Grew(granted0, footprint0, br, n)
      requires Accounted(footprint0, granted0) && (br != 0 ==> Bytes(br, n) !! granted0)
      requires forall w {:trigger Paged(pages, w)} :: w in granted0 ==> Paged(pages, w)
      modifies this`pages
      ensures Accounted(heap.footprint, heap.granted)
      ensures forall w {:trigger Paged(pages, w)} :: w in heap.granted ==> Paged(pages, w)
      ensures pages == old(pages) || (br != 0 && pages == old(pages) + PageSet(br / 4096, (br + n) / 4096))
    {
      ghost var pages0 := pages;
      if br != 0 { MoreBytes(footprint0, granted0, br, n); }
      if heap.footprint != footprint0 {
        pages := pages + PageSet(br / 4096, (br + n) / 4096);
      }
      forall w | w in heap.granted ensures Paged(pages, w) {
        if w in granted0 { assert Paged(pages0, w); } else { PageOf(br, n, w); }
      }
    }

    method DoAllocate(bytes: nat, answer: int) returns (mp: int)
      requires Coherent() && bytes < W
      modifies this, heap
      ensures Coherent() && Effect(Allocate(bytes, answer), mp, old(world), world)
      ensures Supply(Allocate(bytes, answer), mp, old(world).Keys, heap.base, old(pages), pages)
    {
      hide Served, Remains, NoRoom, Heap.Valid, Undisturbed, Holds, Heap.Blocks, Bytes, GranularityAlign, PaddedSize, BlockHolds;
      var n := GranularityAlign(PaddedSize(bytes) + 96);
      PagesWhole(bytes);
      var br := Place(answer, n);
      ghost var m0, K0, G0 := heap.mem, heap.Blocks(), heap.granted;
      var f0 := heap.footprint;
      HoldsKeys(m0, K0, world);
      mp := heap.Malloc(bytes, br);
      NotePages(G0, f0, br, n);
      StoreSame(m0, heap.mem, K0, world);
      if mp != 0 {
        ghost var b := Block(bytes, heap.Blocks()[mp - 16], map[]);
        EmptyBlock(heap.mem, mp - 16, bytes, b.room);
        StoreGrows(heap.mem, K0, world, mp - 16, b);
        live := live + {mp - 16};
        world := world[mp - 16 := b];
      }
    }

    method DoZeroed(n: nat, size: nat, answer: int) returns (mp: int)
      requires Coherent() && n < W && size < W
      modifies this, heap
      ensures Coherent() && Effect(Zeroed(n, size, answer), mp, old(world), world)
      ensures Supply(Zeroed(n, size, answer), mp, old(world).Keys, heap.base, old(pages), pages)
    {
      hide Heap.Valid, Undisturbed, Holds, Heap.Blocks, Bytes, GranularityAlign, PaddedSize, CallocRequest, Zeros, BlockHolds;
      CallocFacts(n, size);
      MulMono(0, 0, n, size);
      var req := CallocRequest(n, size);
      PagesWhole(req);
      var g := GranularityAlign(PaddedSize(req) + 96);
      var br := Place(answer, g);
      ghost var m0, K0, G0 := heap.mem, heap.Blocks(), heap.granted;
      var f0 := heap.footprint;
      HoldsKeys(m0, K0, world);
      mp := heap.Calloc(n, size, br);
      NotePages(G0, f0, br, g);
      StoreSame(m0, heap.mem, K0, world);
      if mp != 0 {
        ghost var b := Block(n * size, heap.Blocks()[mp - 16], Zeros(n * size));
        ZeroBlock(heap.mem, mp - 16, n * size, b.room);
        StoreGrows(heap.mem, K0, world, mp - 16, b);
        live := live + {mp - 16};
        world := world[mp - 16 := b];
      }
    }

    method DoAlign(alignment: nat, bytes: nat, answer: int) returns (mp: int)
      requires Coherent() && bytes < W && alignment <= HALF
      modifies this, heap
      ensures Coherent() && Effect(Align(alignment, bytes, answer), mp, old(world), world)
      ensures Supply(Align(alignment, bytes, answer), mp, old(world).Keys, heap.base, old(pages), pages)
    {
      hide Heap.Valid, Undisturbed, Holds, Heap.Blocks, Bytes, AlignedGrant, CeilPow2, Request2Size, BlockHolds;
      AlignedPages(alignment, bytes);
      var g := AlignedGrant(alignment, bytes);
      var br := Place(answer, g);
      ghost var m0, K0, G0 := heap.mem, heap.Blocks(), heap.granted;
      var f0 := heap.footprint;
      HoldsKeys(m0, K0, world);
      mp := heap.AlignedAlloc(alignment, bytes, br);
      NotePages(G0, f0, br, g);
      StoreSame(m0, heap.mem, K0, world);
      if mp != 0 {
        ghost var b := Block(bytes, heap.Blocks()[mp - 16], map[]);
        EmptyBlock(heap.mem, mp - 16, bytes, b.room);
        StoreGrows(heap.mem, K0, world, mp - 16, b);
        live := live + {mp - 16};
        world := world[mp - 16 := b];
      }
    }

    /** realloc of a block the caller holds, or of the null pointer. */
    method DoResize(mp: int, bytes: nat, answer: int) returns (np: int)
      requires Coherent() && bytes < W && (mp == 0 || mp - 16 in live)
      modifies this, heap
      ensures Coherent() && Effect(Resize(mp, bytes, answer), np, old(world), world)
      ensures Supply(Resize(mp, bytes, answer), np, old(world).Keys, heap.base, old(pages), pages)
    {
      hide Heap.Valid, Undisturbed, Holds, Heap.Blocks, Bytes, GranularityAlign, PaddedSize, Request2Size, WordsMoved, BlockHolds, Within, Supply, PageSet, InWindow;
      PagesWhole(bytes);
      RequestFacts(bytes);
      HoldsKeys(heap.mem, heap.Blocks(), world);
      var n := GranularityAlign(PaddedSize(bytes) + 96);
      var br := Place(answer, n);
      ghost var m0, K0, G0, w0 := heap.mem, heap.Blocks(), heap.granted, world;
      var f0 := heap.footprint;
      ghost var pages0 := pages;
      np := heap.Realloc(mp, bytes, br);
      NotePages(G0, f0, br, n);
      ResizeSupply(mp, bytes, answer, np, world.Keys, heap.base, pages0, pages, br);
      if np == 0 {
        StoreSame(m0, heap.mem, K0, w0);
      } else if mp == 0 {
        StoreSame(m0, heap.mem, K0, w0);
        ghost var b := Block(bytes, heap.Blocks()[np - 16], map[]);
        EmptyBlock(heap.mem, np - 16, bytes, b.room);
        StoreGrows(heap.mem, K0, w0, np - 16, b);
        live := live + {np - 16};
        world := w0[np - 16 := b];
      } else {
        StoreMoves(m0, heap.mem, K0, heap.Blocks(), w0, mp, np, Request2Size(bytes), bytes);
        live := live - {mp - 16} + {np - 16};
        ghost var room := heap.Blocks()[np - 16];
        world := (w0 - {mp - 16})[np - 16 := Block(bytes, room, Within(w0[mp - 16].words, room))];
      }
    }

    lemma NullIsNoBlock()
      requires heap.Valid() && -16 in heap.Blocks()
      ensures false
    {
      heap.BlocksApart(-16, -16);
    }

    method DoRelease(mp: int)
      requires Coherent() && mp - 16 in live
      modifies this, heap
      ensures Coherent() && Effect(Release(mp), 0, old(world), world) && pages == old(pages)
    {
      hide Heap.Valid, Undisturbed, Heap.Blocks, BlockHolds;
      ghost var m0, K0, w0 := heap.mem, heap.Blocks(), world;
      if mp == 0 { NullIsNoBlock(); }
      heap.Free(mp);
      StoreShrinks(m0, heap.mem, K0, heap.Blocks(), w0);
      assert (map q | q in w0 && q in heap.Blocks() :: w0[q]) == w0 - {mp - 16};
      live := live - {mp - 16};
      world := world - {mp - 16};
    }

    /** Write word index of the block at mp, if it has one. */
    method DoWrite(mp: int, index: nat, value: int)
      requires Coherent() && mp - 16 in live
      modifies this, heap
      ensures Coherent() && Effect(Write(mp, index, value), 0, old(world), world) && pages == old(pages)
    {
      hide Heap.Valid, Undisturbed, Holds, Heap.Blocks, BlockHolds;
      assert mp - 16 in world by { HoldsKeys(heap.mem, heap.Blocks(), world); }
      HoldsAt(heap.mem, heap.Blocks(), world, mp - 16);
      if 8 * index + 16 <= heap.BlockSize(mp - 16) {
        ghost var m0 := heap.mem;
        heap.BlocksApart(mp - 16, mp - 16);
        EightTimes(mp - 16, index);
        heap.Store(mp - 16, mp + 8 * index, value);
        StoreWrites(m0, heap.mem, heap.Blocks(), world, mp - 16, index, value);
        world := Written(world, mp, index, value);
      }
    }

    /** Reading back a word that was written returns it. */
    method DoRead(mp: int, index: nat) returns (value: int)
      requires Coherent()
      ensures Effect(Read(mp, index), value, world, world)
    {
      hide Heap.Valid, Heap.Blocks;
      value := Rd(heap.mem, mp + 8 * index);
      if mp - 16 in world {
        assert BlockHolds(heap.mem, mp - 16, world[mp - 16]);
      }
    }

    method Serve(r: Request) returns (result: int)
      requires Coherent() && Typed(r)
      modifies this, heap
      ensures Coherent() && Effect(r, result, old(world), world) && Supply(r, result, old(world).Keys, heap.base, old(pages), pages)
    {
      hide Heap.Valid, Heap.Blocks, Gained, Transferred, Written, Wanted, Oversized, Placeable, Offer;
      assert live == world.Keys by { HoldsKeys(heap.mem, heap.Blocks(), world); }
      hide Coherent;
      result := 0;
      match r
      case Allocate(bytes, answer) => result := DoAllocate(bytes, answer);
      case Zeroed(n, size, answer) => result := DoZeroed(n, size, answer);
      case Align(alignment, bytes, answer) => result := DoAlign(alignment, bytes, answer);
      case Resize(mp, bytes, answer) => if mp == 0 || mp - 16 in live { result := DoResize(mp, bytes, answer); }
      case Release(mp) => if mp - 16 in live { DoRelease(mp); }
      case Write(mp, index, value) => if mp - 16 in live { DoWrite(mp, index, value); }
      case Read(mp, index) => result := DoRead(mp, index);
    }

    lemma WorldApart()
      requires Coherent()
      ensures AllApart(world)
    {
      hide Heap.Valid, Heap.Blocks, BlockHolds;
      forall p, q | p in world && q in world ensures PairApart(world, p, q) {
        HoldsAt(heap.mem, heap.Blocks(), world, p);
        HoldsAt(heap.mem, heap.Blocks(), world, q);
        heap.BlocksApart(p, q);
      }
    }

    /** Any sequence of requests, those on blocks the caller does not hold being skipped: a run of the store of independent blocks. */
    method Execute(requests: seq<Request>) returns (results: seq<int>, ghost worlds: seq<World>, ghost taken: seq<set<int>>)
      requires Coherent() && forall k {:trigger requests[k]} :: 0 <= k < |requests| ==> Typed(requests[k])
      modifies this, heap
      ensures Coherent() && Trace(requests, results, worlds) && worlds[0] == old(world) && worlds[|requests|] == world
      ensures Supplied(requests, results, worlds, heap.base, taken) && taken[0] == old(pages) && taken[|requests|] == pages
    {
      hide Coherent, Effect, AllApart, Supply;
      results, worlds, taken := [], [world], [pages];
      WorldApart();
      for k := 0 to |requests|
        invariant Coherent() && |worlds| == |taken| == k + 1 && worlds[0] == old(world) && worlds[k] == world && taken[0] == old(pages) && taken[k] == pages
        invariant Trace(requests[..k], results, worlds) && Supplied(requests[..k], results, worlds, heap.base, taken)
      {
        var result := Serve(requests[k]);
        WorldApart();
        TraceGrows(requests[..k], results, worlds, requests[k], result, world);
        SupplyGrows(requests[..k], results, worlds, heap.base, taken, requests[k], result, world, pages);
        assert requests[..k] + [requests[k]] == requests[..k + 1];
        results, worlds, taken := results + [result], worlds + [world], taken + [pages];
      }
      assert requests[..|requests|] == requests;
    }
  }

  lemma SupplyGrows(requests: seq<Request>, results: seq<int>, worlds: seq<World>, base: int, taken: seq<set<int>>, r: Request, result: int, w: World, pages: set<int>)
    requires Supplied(requests, results, worlds, base, taken) && Supply(r, result, worlds[|requests|].Keys, base, taken[|requests|], pages)
    ensures Supplied(requests + [r], results + [result], worlds + [w], base, taken + [pages])
  {
    hide Supply;
    var rs, xs, ws, ts := requests + [r], results + [result], worlds + [w], taken + [pages];
    forall k | 0 <= k < |rs| ensures Supply(rs[k], xs[k], ws[k].Keys, base, ts[k], ts[k + 1]) {
      if k < |requests| { assert Supply(requests[k], results[k], worlds[k].Keys, base, taken[k], taken[k + 1]); }
    }
  }

  lemma TraceGrows(requests: seq<Request>, results: seq<int>, worlds: seq<World>, r: Request, result: int, w: World)
    requires Trace(requests, results, worlds) && AllApart(w) && Effect(r, result, worlds[|requests|], w)
    ensures Trace(requests + [r], results + [result], worlds + [w])
  {
    hide Effect, AllApart;
    var rs, xs, ws := requests + [r], results + [result], worlds + [w];
    forall k | 0 <= k < |ws| ensures AllApart(ws[k]) { if k < |worlds| { assert AllApart(worlds[k]); } }
    forall k | 0 <= k < |rs| ensures Effect(rs[k], xs[k], ws[k], ws[k + 1]) {
      if k < |requests| { assert Effect(requests[k], results[k], worlds[k], worlds[k + 1]); }
    }
  }

  // ---------------------------------------------------------------- what a caller sees

  /** The block request k is answered with is not held already, unless it is the one resized, and is aligned as asked. */
  predicate WellPlaced(requests: seq<Request>, results: seq<int>, k: nat)
    requires k < |requests| == |results|
  {
    var r, held := requests[k], Held(requests, results, k);
    Allocates(r) && results[k] != 0 ==>
      && (results[k] - 16 !in if r.Resize? then held - {r.mp - 16} else held)
      && (r.Align? ==> results[k] % CeilPow2(r.alignment) == 0)
  }

  lemma BlocksWellPlaced(requests: seq<Request>, results: seq<int>, worlds: seq<World>, k: nat)
    requires Trace(requests, results, worlds) && worlds[0] == map[] && k < |requests|
    ensures WellPlaced(requests, results, k)
  {
    hide Held, AllApart, Within;
    HeldIs(requests, results, worlds, k);
    assert Effect(requests[k], results[k], worlds[k], worlds[k + 1]);
  }

  /** Some earlier request was offered a page that request k is offered again. */
  ghost predicate Offered(requests: seq<Request>, k: nat)
    requires k < |requests| && Allocates(requests[k])
  {
    exists i {:trigger requests[i]} :: 0 <= i < k && Allocates(requests[i]) && Offer(requests[i]) * Offer(requests[k]) != {}
  }

  /** Request k fails only if it is too large, or the kernel offers it pages outside the direct map or not for the first time. */
  ghost predicate Answered(requests: seq<Request>, results: seq<int>, base: int, k: nat)
    requires k < |requests| == |results|
  {
    Admitted(requests[k], Held(requests, results, k).Keys) && results[k] == 0 ==>
      Oversized(requests[k]) || !InWindow(base, requests[k].answer, Wanted(requests[k])) || Offered(requests, k)
  }

  /** Every page taken was offered. */
  lemma {:induction false} TakenFrom(requests: seq<Request>, results: seq<int>, worlds: seq<World>, base: int, taken: seq<set<int>>, k: nat, page: int)
    returns (i: nat)
    requires Supplied(requests, results, worlds, base, taken) && taken[0] == {} && k <= |requests| && page in taken[k]
    ensures i < k && Allocates(requests[i]) && page in Offer(requests[i])
  {
    hide Wanted, Oversized, Placeable, Offer;
    assert Supply(requests[k - 1], results[k - 1], worlds[k - 1].Keys, base, taken[k - 1], taken[k - 1 + 1]);
    if page in taken[k - 1] {
      i := TakenFrom(requests, results, worlds, base, taken, k - 1, page);
    } else {
      i := k - 1;
    }
  }

  lemma FailsOnly(requests: seq<Request>, results: seq<int>, worlds: seq<World>, base: int, taken: seq<set<int>>, k: nat)
    requires Trace(requests, results, worlds) && worlds[0] == map[] && Supplied(requests, results, worlds, base, taken) && taken[0] == {} && k < |requests|
    ensures Answered(requests, results, base, k)
  {
    hide Trace, Held, Wanted, Oversized, InWindow, PageSet;
    HeldIs(requests, results, worlds, k);
    assert Held(requests, results, k).Keys == worlds[k].Keys;
    var r := requests[k];
    assert Supply(r, results[k], worlds[k].Keys, base, taken[k], taken[k + 1]);
    if Allocates(r) && !Offered(requests, k) {
      forall page | page in Offer(r) ensures page !in taken[k] {
        if page in taken[k] {
          var i := TakenFrom(requests, results, worlds, base, taken, k, page);
          assert page in Offer(requests[i]) * Offer(r);
        }
      }
      assert Offer(r) * taken[k] == {};
    }
  }

  /**
   * A whole session on a new heap, as its caller sees it: every read returns the value of the last write to that word,
   * or zero if the block was allocated zeroed and not written there, whatever was allocated, moved, freed or written in
   * between; no block is handed out while it is held, alignments are kept, and at every moment the blocks held, at the
   * sizes asked for, do not overlap; and a request fails only if it is too large or the kernel has no fresh pages for it.
   */
  method Session(gm: int, base: int, requests: seq<Request>) returns (results: seq<int>)
    requires gm > 0 && base > 0 && (gm + STATE_SIZE <= base || base + MAX_SIZE <= gm)
    requires forall k {:trigger requests[k]} :: 0 <= k < |requests| ==> Typed(requests[k])
    ensures |results| == |requests|
    ensures forall j, k {:trigger ReadsBack(requests, results, j, k)} :: 0 <= j < k < |requests| ==> ReadsBack(requests, results, j, k)
    ensures forall k {:trigger WellPlaced(requests, results, k)} :: 0 <= k < |requests| ==> WellPlaced(requests, results, k)
    ensures forall k {:trigger Held(requests, results, k)} :: 0 <= k <= |requests| ==> Disjoint(Held(requests, results, k))
    ensures forall k {:trigger Answered(requests, results, base, k)} :: 0 <= k < |requests| ==> Answered(requests, results, base, k)
  {
    hide Trace, Supplied, ReadsBack, WellPlaced, Disjoint, Held, Answered;
    var run := new Run(gm, base);
    ghost var worlds, taken;
    results, worlds, taken := run.Execute(requests);
    TraceLengths(requests, results, worlds);
    forall j, k | 0 <= j < k < |requests| ensures ReadsBack(requests, results, j, k) { LastWrite(requests, results, worlds, j, k); }
    forall k | 0 <= k < |requests| ensures WellPlaced(requests, results, k) { BlocksWellPlaced(requests, results, worlds, k); }
    forall k | 0 <= k <= |requests| ensures Disjoint(Held(requests, results, k)) { HeldApart(requests, results, worlds, k); }
    forall k | 0 <= k < |requests| ensures Answered(requests, results, base, k) { FailsOnly(requests, results, worlds, base, taken, k); }
  }

  lemma TraceLengths(requests: seq<Request>, results: seq<int>, worlds: seq<World>)
    requires Trace(requests, results, worlds)
    ensures |results| == |requests| && |worlds| == |requests| + 1
  {
  }

  /** The caller's bytes of two blocks do not overlap, and each block starts on a 16-byte boundary. */
  ghost predicate Disjoint(held: map<int, nat>) {
    forall p, q {:trigger held[p], held[q]} :: p in held && q in held ==>
      (p + 16) % 16 == 0 && (p != q ==> p + 16 + held[p] <= q + 16 || q + 16 + held[q] <= p + 16)
  }

  lemma HeldApart(requests: seq<Request>, results: seq<int>, worlds: seq<World>, k: nat)
    requires Trace(requests, results, worlds) && worlds[0] == map[] && k <= |requests|
    ensures Disjoint(Held(requests, results, k))
  {
    hide Effect, Held;
    HeldIs(requests, results, worlds, k);
    var w := worlds[k];
    assert AllApart(w);
    forall p, q | p in Sizes(w) && q in Sizes(w)
      ensures (p + 16) % 16 == 0 && (p != q ==> p + 16 + Sizes(w)[p] <= q + 16 || q + 16 + Sizes(w)[q] <= p + 16)
    {
      assert PairApart(w, p, q) && PairApart(w, q, p);
    }
  }

  /** Arguments fit size_t, and alignments are ones the rounding loop can reach. */
  predicate Typed(r: Request) {
    match r
    case Allocate(bytes, _) => bytes < W
    case Zeroed(n, size, _) => n < W && size < W
    case Align(alignment, bytes, _) => alignment <= HALF && bytes < W
    case Resize(_, bytes, _) => bytes < W
    case Release(_) => true
    case Write(_, _, _) => true
    case Read(_, _) => true
  }

  lemma AlignedPages(alignment: nat, bytes: nat)
    ensures AlignedGrant(alignment, bytes) % 4096 == 0 && AlignedGrant(alignment, bytes) >= 0
  {
    hide CeilPow2, Request2Size, GranularityAlign, PaddedSize;
    PagesWhole(bytes);
    RequestFacts(bytes);
    if alignment > 16 { PagesWhole(Request2Size(bytes) + CeilPow2(alignment) + 24); }
  }

  lemma ResizeSupply(mp: int, bytes: nat, answer: int, np: int, held: set<int>, base: int, pages: set<int>, pages': set<int>, br: int)
    requires var n := GranularityAlign(PaddedSize(bytes) + 96);
             && (if Placeable(pages, base, answer, n) then br == answer != 0 else br == 0)
             && (pages' == pages || (br != 0 && pages' == pages + PageSet(br / 4096, (br + n) / 4096)))
    requires np == 0 ==> br == 0 || bytes >= MAX_REQUEST || GranularityAlign(Request2Size(bytes) + 96) <= Request2Size(bytes)
    ensures (mp == 0 || mp - 16 in held) ==> Supply(Resize(mp, bytes, answer), np, held, base, pages, pages')
  {
    hide GranularityAlign, Request2Size, PageSet;
  }

  lemma PageOf(a: int, n: int, w: int)
    requires a % 4096 == 0 && n % 4096 == 0 && a <= w < a + n
    ensures a / 4096 <= w / 4096 < (a + n) / 4096
  {
  }

  predicate PageIn(k: int, lo: int, hi: int) { lo <= k < hi }

  function PageSet(lo: int, hi: int): set<int> { set k | lo <= k < hi && PageIn(k, lo, hi) }

  lemma PagesWhole(bytes: nat)
    ensures var n := GranularityAlign(PaddedSize(bytes) + 96); n % 4096 == 0 && n >= 0
  {
    RequestFacts(bytes);
    GranularityFacts(PaddedSize(bytes));
  }
}
