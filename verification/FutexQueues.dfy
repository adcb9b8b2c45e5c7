/** The futex queues: which sleepers WAKE and REQUEUE pick, and the loops that do it in place. */
module FutexQueues {
  /** Entries are numbered in the order they go to sleep. */
  type Queue = seq<nat>

  /** The entries of q still asleep, in order. */
  function Asleep(q: Queue, awoken: set<nat>): Queue {
    if q == [] then [] else if q[0] in awoken then Asleep(q[1..], awoken) else [q[0]] + Asleep(q[1..], awoken)
  }

  function Take(q: Queue, n: nat): Queue { if n < |q| then q[..n] else q }

  function Drop(q: Queue, n: nat): Queue { if n < |q| then q[n..] else [] }

  /** q without the entries in gone. */
  function Minus(q: Queue, gone: set<nat>): Queue {
    if q == [] then [] else if q[0] in gone then Minus(q[1..], gone) else [q[0]] + Minus(q[1..], gone)
  }

  function Elems(q: Queue): set<nat> { set x | x in q }

  ghost predicate Distinct(q: Queue) { forall i, j {:trigger q[i], q[j]} :: 0 <= i < j < |q| ==> q[i] != q[j] }

  // ---------------------------------------------------------------- one pass over the queue

  /** What scanning q once leaves in the queue, wakes and moves, with v wakes and w moves to give out. */
  datatype Scan = Scan(kept: Queue, woken: Queue, moved: Queue)

  function ScanQueue(q: Queue, awoken: set<nat>, v: nat, w: nat): Scan {
    if q == [] then Scan([], [], [])
    else if q[0] !in awoken && v > 0 then
      var r := ScanQueue(q[1..], awoken + {q[0]}, v - 1, w);
      Scan([q[0]] + r.kept, [q[0]] + r.woken, r.moved)
    else if q[0] !in awoken && w > 0 then
      var r := ScanQueue(q[1..], awoken, v, w - 1);
      Scan(r.kept, r.woken, [q[0]] + r.moved)
    else
      var r := ScanQueue(q[1..], awoken, v, w);
      Scan([q[0]] + r.kept, r.woken, r.moved)
  }

  lemma DistinctTail(q: Queue)
    requires q != [] && Distinct(q)
    ensures Distinct(q[1..]) && q[0] !in q[1..]
  {
    forall i, j | 0 <= i < j < |q[1..]| ensures q[1..][i] != q[1..][j] { assert q[1..][i] == q[i + 1] && q[1..][j] == q[j + 1]; }
    forall i | 0 <= i < |q[1..]| ensures q[1..][i] != q[0] { assert q[1..][i] == q[i + 1]; }
  }

  /** Awakening an entry that is not in q changes nothing about q. */
  lemma {:induction false} AsleepElsewhere(q: Queue, awoken: set<nat>, x: nat)
    requires x !in q
    ensures Asleep(q, awoken + {x}) == Asleep(q, awoken)
  {
    if q != [] { AsleepElsewhere(q[1..], awoken, x); }
  }

  lemma {:induction false} MinusElsewhere(q: Queue, gone: set<nat>, x: nat)
    requires x !in q
    ensures Minus(q, gone + {x}) == Minus(q, gone)
  {
    if q != [] { MinusElsewhere(q[1..], gone, x); }
  }

  lemma {:induction false} MinusNone(q: Queue)
    ensures Minus(q, {}) == q
  {
    if q != [] { MinusNone(q[1..]); }
  }

  lemma {:induction false} AsleepIn(q: Queue, awoken: set<nat>, x: nat)
    ensures x in Asleep(q, awoken) <==> x in q && x !in awoken
  {
    if q != [] { AsleepIn(q[1..], awoken, x); }
  }

  lemma {:induction false} AsleepDistinct(q: Queue, awoken: set<nat>)
    requires Distinct(q)
    ensures Distinct(Asleep(q, awoken))
  {
    if q != [] {
      DistinctTail(q);
      AsleepDistinct(q[1..], awoken);
      AsleepIn(q[1..], awoken, q[0]);
    }
  }

  lemma TakeCons(x: nat, a: Queue, n: nat)
    requires n > 0
    ensures Take([x] + a, n) == [x] + Take(a, n - 1) && Drop([x] + a, n) == Drop(a, n - 1)
  {
  }

  lemma TakeZero(a: Queue)
    ensures Take(a, 0) == [] && Drop(a, 0) == a
  {
  }

  /** The pass wakes the first v sleepers, moves the next w, and keeps everyone else in order. */
  lemma {:induction false} ScanMeans(q: Queue, awoken: set<nat>, v: nat, w: nat)
    requires Distinct(q)
    ensures var r, a := ScanQueue(q, awoken, v, w), Asleep(q, awoken);
            r.woken == Take(a, v) && r.moved == Take(Drop(a, v), w) && r.kept == Minus(q, Elems(r.moved))
  {
    hide Take, Drop, Distinct;
    if q == [] {
      assert Take([], v) == [] && Drop([], v) == [] && Take([], w) == [] by { NoneTaken(v); NoneTaken(w); }
    } else {
      var x, t := q[0], q[1..];
      DistinctTail(q);
      if x !in awoken && v > 0 {
        ScanMeans(t, awoken + {x}, v - 1, w);
        AsleepElsewhere(t, awoken, x);
        NotMoved(t, awoken + {x}, v - 1, w, x);
        TakeCons(x, Asleep(t, awoken), v);
      } else if x !in awoken && w > 0 {
        ScanMeans(t, awoken, v, w - 1);
        var r := ScanQueue(t, awoken, v, w - 1);
        assert Elems([x] + r.moved) == Elems(r.moved) + {x};
        MinusElsewhere(t, Elems(r.moved), x);
        TakeZero([x] + Asleep(t, awoken));
        TakeZero(Asleep(t, awoken));
        TakeCons(x, Asleep(t, awoken), w);
      } else {
        ScanMeans(t, awoken, v, w);
        NotMoved(t, awoken, v, w, x);
        if x !in awoken {
          TakeZero([x] + Asleep(t, awoken));
          TakeZero(Asleep(t, awoken));
        }
      }
    }
  }

  lemma NoneTaken(n: nat)
    ensures Take([], n) == [] && Drop([], n) == []
  {
  }

  lemma {:induction false} NotMoved(q: Queue, awoken: set<nat>, v: nat, w: nat, x: nat)
    requires x !in q
    ensures x !in ScanQueue(q, awoken, v, w).moved && x !in ScanQueue(q, awoken, v, w).woken
  {
    if q != [] {
      if q[0] !in awoken && v > 0 { NotMoved(q[1..], awoken + {q[0]}, v - 1, w, x); }
      else if q[0] !in awoken && w > 0 { NotMoved(q[1..], awoken, v, w - 1, x); }
      else { NotMoved(q[1..], awoken, v, w, x); }
    }
  }

  /** Progress through a pass: what is kept, woken and moved so far, and what is still to be scanned. */
  ghost predicate Scanning(q: Queue, awoken0: set<nat>, v: nat, w: nat, done: Scan, rest: Queue, awoken: set<nat>) {
    && awoken == awoken0 + Elems(done.woken) && |done.woken| <= v && |done.moved| <= w
    && var r := ScanQueue(rest, awoken, v - |done.woken|, w - |done.moved|);
       ScanQueue(q, awoken0, v, w) == Scan(done.kept + r.kept, done.woken + r.woken, done.moved + r.moved)
  }

  lemma ScanStarts(q: Queue, awoken: set<nat>, v: nat, w: nat)
    ensures Scanning(q, awoken, v, w, Scan([], [], []), q, awoken)
  {
    var r := ScanQueue(q, awoken, v, w);
    assert [] + r.kept == r.kept && [] + r.woken == r.woken && [] + r.moved == r.moved;
    assert awoken + Elems([]) == awoken;
  }

  lemma Append(a: Queue, x: nat, b: Queue)
    ensures a + ([x] + b) == a + [x] + b && Elems(a + [x]) == Elems(a) + {x}
  {
  }

  lemma ScanSteps(q: Queue, awoken0: set<nat>, v: nat, w: nat, done: Scan, rest: Queue, awoken: set<nat>)
    requires Scanning(q, awoken0, v, w, done, rest, awoken) && rest != []
    ensures var x := rest[0];
            if x !in awoken && |done.woken| < v then
              Scanning(q, awoken0, v, w, Scan(done.kept + [x], done.woken + [x], done.moved), rest[1..], awoken + {x})
            else if x !in awoken && |done.moved| < w then
              Scanning(q, awoken0, v, w, Scan(done.kept, done.woken, done.moved + [x]), rest[1..], awoken)
            else
              Scanning(q, awoken0, v, w, Scan(done.kept + [x], done.woken, done.moved), rest[1..], awoken)
  {
    var x, t, v', w' := rest[0], rest[1..], v - |done.woken|, w - |done.moved|;
    if x !in awoken && v' > 0 {
      var r := ScanQueue(t, awoken + {x}, v' - 1, w');
      Append(done.kept, x, r.kept);
      Append(done.woken, x, r.woken);
    } else if x !in awoken && w' > 0 {
      Append(done.moved, x, ScanQueue(t, awoken, v', w' - 1).moved);
    } else {
      Append(done.kept, x, ScanQueue(t, awoken, v', w').kept);
    }
  }

  lemma ScanEnds(q: Queue, awoken0: set<nat>, v: nat, w: nat, done: Scan, awoken: set<nat>)
    requires Scanning(q, awoken0, v, w, done, [], awoken) && Distinct(q)
    ensures var a := Asleep(q, awoken0);
            && done.woken == Take(a, v) && done.moved == Take(Drop(a, v), w) && done.kept == Minus(q, Elems(done.moved))
            && awoken == awoken0 + Elems(done.woken)
  {
    ScanMeans(q, awoken0, v, w);
    assert done.kept + [] == done.kept && done.woken + [] == done.woken && done.moved + [] == done.moved;
  }

  lemma RemoveAt(kept: Queue, rest: Queue)
    requires rest != []
    ensures (kept + rest)[|kept|] == rest[0] && (kept + rest)[..|kept|] + (kept + rest)[|kept| + 1..] == kept + rest[1..]
    ensures kept + rest == kept + [rest[0]] + rest[1..]
  {
  }

  // ---------------------------------------------------------------- the loops

  /** The threads that entries belong to. */
  function Owners(owner: seq<nat>, q: Queue): set<nat> { set x | x in q && x < |owner| :: owner[x] }

  lemma OwnersMore(owner: seq<nat>, q: Queue, x: nat)
    ensures Owners(owner, q + [x]) == Owners(owner, q) + Owners(owner, [x]) && Owners(owner, []) == {}
  {
  }

  function QueueAt(queues: map<nat, Queue>, addr: nat): Queue { if addr in queues then queues[addr] else [] }

  class FutexTable {
    /** FUTEXES: address to asleep_list. */
    var queues: map<nat, Queue>
    /** Entries whose awoken flag is set. */
    var awoken: set<nat>
    /** The task each entry belongs to, the tasks in state Ready, and those with a forceful wakeup time. */
    var owner: seq<nat>
    var ready: set<nat>
    var timed: set<nat>

    constructor ()
      ensures queues == map[] && awoken == {} && owner == [] && ready == {} && timed == {}
    {
      queues, awoken, owner, ready, timed := map[], {}, [], {}, {};
    }

    /** futex_find: the queue for an address, created empty. */
    method Find(addr: nat)
      modifies this`queues
      ensures addr in queues && old(queues).Keys <= queues.Keys
      ensures forall a {:trigger QueueAt(queues, a)} :: QueueAt(queues, a) == QueueAt(old(queues), a)
    {
      if addr !in queues { queues := queues[addr := []]; }
    }

    /** Mark an entry awoken and its task ready. */
    method Awaken(x: nat)
      modifies this`awoken, this`ready
      ensures awoken == old(awoken) + {x} && ready == old(ready) + Owners(owner, [x])
    {
      if x < |owner| { ready := ready + {owner[x]}; }
      awoken := awoken + {x};
    }

    /** FUTEX_WAKE: exactly the first value sleepers of the queue, in order, and how many that is; their tasks lose their time limit. */
    method Wake(addr: nat, value: nat) returns (count: nat)
      requires Distinct(QueueAt(queues, addr))
      modifies this`queues, this`awoken, this`ready, this`timed
      ensures forall a {:trigger QueueAt(queues, a)} :: QueueAt(queues, a) == QueueAt(old(queues), a)
      ensures var w := Take(Asleep(QueueAt(old(queues), addr), old(awoken)), value);
              && awoken == old(awoken) + Elems(w) && count == |w|
              && ready == old(ready) + Owners(owner, w) && timed == old(timed) - Owners(owner, w)
    {
      hide Scanning, Distinct, Owners;
      Find(addr);
      ghost var q, A0, queues1 := queues[addr], awoken, queues;
      assert q == QueueAt(queues, addr);
      ghost var done := Scan([], [], []);
      ScanStarts(q, A0, value, 0);
      OwnersMore(owner, [], 0);
      count := 0;
      var i := 0;
      while i < |queues[addr]|
        invariant 0 <= i <= |q| && queues == queues1 && Scanning(q, A0, value, 0, done, q[i..], awoken)
        invariant count == |done.woken| && done.moved == []
        invariant ready == old(ready) + Owners(owner, done.woken) && timed == old(timed) - Owners(owner, done.woken)
      {
        var x := queues[addr][i];
        ScanSteps(q, A0, value, 0, done, q[i..], awoken);
        assert q[i..][1..] == q[i + 1..];
        if x !in awoken && count < value {
          OwnersMore(owner, done.woken, x);
          Awaken(x);
          ClearTime(x);
          count := count + 1;
          done := Scan(done.kept + [x], done.woken + [x], done.moved);
        } else {
          done := Scan(done.kept + [x], done.woken, done.moved);
        }
        i := i + 1;
      }
      assert q[i..] == [];
      ScanEnds(q, A0, value, 0, done, awoken);
    }

    method ClearTime(x: nat)
      modifies this`timed
      ensures timed == old(timed) - Owners(owner, [x])
    {
      if x < |owner| { timed := timed - {owner[x]}; }
    }

    /** Take the entry at position i out of one queue and append it to the other. */
    method MoveEntry(addr: nat, addr2: nat, i: nat)
      requires addr in queues && addr2 in queues && addr != addr2 && i < |queues[addr]|
      modifies this`queues
      ensures var q, q2 := old(queues)[addr], old(queues)[addr2];
              queues == old(queues)[addr := q[..i] + q[i + 1..]][addr2 := q2 + [q[i]]]
    {
      var x := queues[addr][i];
      queues := queues[addr := queues[addr][..i] + queues[addr][i + 1..]];
      queues := queues[addr2 := queues[addr2] + [x]];
    }

    /** The requeue loop, with both queues locked. */
    method RequeueLoop(addr: nat, addr2: nat, value: nat, value3: nat) returns (count: nat)
      requires addr in queues && addr2 in queues && addr != addr2 && Distinct(queues[addr])
      modifies this`queues, this`awoken, this`ready
      ensures var a := Asleep(old(queues)[addr], old(awoken));
              var w, m := Take(a, value), Take(Drop(a, value), value3);
              && awoken == old(awoken) + Elems(w) && count == |w| + |m| && ready == old(ready) + Owners(owner, w)
              && queues == old(queues)[addr := Minus(old(queues)[addr], Elems(m))][addr2 := old(queues)[addr2] + m]
    {
      hide Scanning, Distinct, Asleep, Minus, Take, Drop, Elems, Owners;
      ghost var q, q2, A0 := queues[addr], queues[addr2], awoken;
      ghost var s, rest := Scan([], [], []), q;
      ScanStarts(q, A0, value, value3);
      OwnersMore(owner, [], 0);
      var awokenCount, movedCount, i := 0, 0, 0;
      assert q == s.kept + rest && q2 == q2 + s.moved;
      assert queues == queues[addr := q][addr2 := q2];
      while i < |queues[addr]|
        invariant queues == old(queues)[addr := s.kept + rest][addr2 := q2 + s.moved] && |s.kept| == i
        invariant Scanning(q, A0, value, value3, s, rest, awoken) && awokenCount == |s.woken| && movedCount == |s.moved|
        invariant ready == old(ready) + Owners(owner, s.woken)
        decreases |rest|
      {
        var x := queues[addr][i];
        RemoveAt(s.kept, rest);
        ScanSteps(q, A0, value, value3, s, rest, awoken);
        if x !in awoken && awokenCount < value {
          OwnersMore(owner, s.woken, x);
          Awaken(x);
          awokenCount := awokenCount + 1;
          s := Scan(s.kept + [x], s.woken + [x], s.moved);
          i := i + 1;
        } else if x !in awoken && movedCount < value3 {
          MoveEntry(addr, addr2, i);
          movedCount := movedCount + 1;
          assert q2 + s.moved + [x] == q2 + (s.moved + [x]);
          s := Scan(s.kept, s.woken, s.moved + [x]);
        } else {
          s := Scan(s.kept + [x], s.woken, s.moved);
          i := i + 1;
        }
        rest := rest[1..];
      }
      assert rest == [] && s.kept + rest == s.kept;
      ScanEnds(q, A0, value, value3, s, awoken);
      count := awokenCount + movedCount;
    }

    /**
     * FUTEX_REQUEUE to another address: wake the first value sleepers, move the next value3 to the end of the other
     * queue in order, leave the rest. It leaves the time limits of the woken tasks in place. With both addresses the same
     * the second lock is never granted and nothing happens.
     */
    method Requeue(addr: nat, addr2: nat, value: nat, value3: nat) returns (done: bool, count: nat)
      requires Distinct(QueueAt(queues, addr))
      modifies this`queues, this`awoken, this`ready
      ensures done <==> addr != addr2
      ensures !done ==> awoken == old(awoken) && ready == old(ready) && QueueAt(queues, addr) == QueueAt(old(queues), addr)
      ensures done ==>
                var a := Asleep(QueueAt(old(queues), addr), old(awoken));
                var w, m := Take(a, value), Take(Drop(a, value), value3);
                && awoken == old(awoken) + Elems(w) && count == |w| + |m| && ready == old(ready) + Owners(owner, w)
                && QueueAt(queues, addr) == Minus(QueueAt(old(queues), addr), Elems(m)) && QueueAt(queues, addr2) == QueueAt(old(queues), addr2) + m
      ensures forall a {:trigger QueueAt(queues, a)} :: a != addr && a != addr2 ==> QueueAt(queues, a) == QueueAt(old(queues), a)
    {
      hide Distinct, Asleep, Minus, Take, Drop, Elems, Owners;
      Find(addr);
      ghost var queues1 := queues;
      Find(addr2);
      assert forall a {:trigger QueueAt(queues, a)} :: QueueAt(queues, a) == QueueAt(queues1, a) == QueueAt(old(queues), a);
      if addr == addr2 { return false, 0; }
      assert queues[addr] == QueueAt(queues, addr) && queues[addr2] == QueueAt(queues, addr2);
      ghost var qs := queues;
      count := RequeueLoop(addr, addr2, value, value3);
      assert forall a {:trigger QueueAt(queues, a)} :: a != addr && a != addr2 ==> QueueAt(queues, a) == QueueAt(qs, a);
      done := true;
    }
  }
}
