/**
 * Every run of the futex calls, any number of threads. A WAIT is four steps: push an entry, mark the task asleep, see
 * that it is ready or its time is up, and return. WAKE and REQUEUE hold their queue locks throughout and are one step.
 */
module FutexRuns {
  import opened FutexQueues

  datatype Pc =
    | Idle
    | Queued(addr: nat, entry: nat, timeout: bool)
    | Sleeping(addr: nat, entry: nat)
    | Leaving(addr: nat, entry: nat)

  /**
   * owner is the thread of each entry, in the order they were pushed; ready and timed are the threads in state Ready
   * and those with a forceful wakeup time. home, log, won and lost are history: the queue each queued entry is in, the
   * entries in the order they were awoken, and those whose WAIT returned 0 or ETIMEDOUT.
   */
  datatype State = State(queues: map<nat, Queue>, awoken: set<nat>, owner: seq<nat>, pcs: map<nat, Pc>, ready: set<nat>, timed: set<nat>,
                         home: map<nat, nat>, log: Queue, won: Queue, lost: Queue)

  datatype Move =
    | Push(t: nat, addr: nat, timeout: bool)
    | MarkAsleep(t: nat)
    | Stop(t: nat)
    | Finish(t: nat)
    | Wake(addr: nat, value: nat)
    | Requeue(addr: nat, addr2: nat, value: nat, value3: nat)

  function PcOf(s: State, t: nat): Pc { if t in s.pcs then s.pcs[t] else Idle }

  function Woken(s: State, addr: nat, v: nat): Queue { Take(Asleep(QueueAt(s.queues, addr), s.awoken), v) }

  function Moved(s: State, addr: nat, v: nat, w: nat): Queue { Take(Drop(Asleep(QueueAt(s.queues, addr), s.awoken), v), w) }

  function StepPush(s: State, t: nat, addr: nat, timeout: bool): State {
    var e := |s.owner|;
    s.(queues := s.queues[addr := QueueAt(s.queues, addr) + [e]], owner := s.owner + [t], home := s.home[e := addr],
       pcs := s.pcs[t := Queued(addr, e, timeout)])
  }

  function StepMarkAsleep(s: State, t: nat): State
    requires PcOf(s, t).Queued?
  {
    var p := PcOf(s, t);
    s.(ready := s.ready - {t}, timed := if p.timeout then s.timed + {t} else s.timed, pcs := s.pcs[t := Sleeping(p.addr, p.entry)])
  }

  function StepStop(s: State, t: nat): State
    requires PcOf(s, t).Sleeping?
  {
    if t in s.ready || t in s.timed then s.(pcs := s.pcs[t := Leaving(PcOf(s, t).addr, PcOf(s, t).entry)]) else s
  }

  /** Success takes the entry off the queue it was pushed to; ETIMEDOUT returns before the entry is removed. */
  function StepFinish(s: State, t: nat): State
    requires PcOf(s, t).Leaving?
  {
    var p := PcOf(s, t);
    if p.entry in s.awoken then
      s.(queues := s.queues[p.addr := Minus(QueueAt(s.queues, p.addr), {p.entry})], won := s.won + [p.entry], pcs := s.pcs[t := Idle],
         home := if p.entry in s.home && s.home[p.entry] == p.addr then s.home - {p.entry} else s.home)
    else s.(lost := s.lost + [p.entry], pcs := s.pcs[t := Idle])
  }

  function StepWake(s: State, addr: nat, v: nat): State {
    var w := Woken(s, addr, v);
    s.(awoken := s.awoken + Elems(w), ready := s.ready + Owners(s.owner, w), timed := s.timed - Owners(s.owner, w), log := s.log + w)
  }

  /** To its own address the call never gets the second lock. It does not clear the wakeup times. */
  function StepRequeue(s: State, addr: nat, addr2: nat, v: nat, n: nat): State {
    if addr == addr2 then s else
    var w, m := Woken(s, addr, v), Moved(s, addr, v, n);
    s.(queues := s.queues[addr := Minus(QueueAt(s.queues, addr), Elems(m))][addr2 := QueueAt(s.queues, addr2) + m],
       awoken := s.awoken + Elems(w), ready := s.ready + Owners(s.owner, w), log := s.log + w,
       home := map x | x in s.home :: if x in m then addr2 else s.home[x])
  }

  function Next(s: State, move: Move): State {
    match move
    case Push(t, addr, timeout) => if PcOf(s, t).Idle? then StepPush(s, t, addr, timeout) else s
    case MarkAsleep(t) => if PcOf(s, t).Queued? then StepMarkAsleep(s, t) else s
    case Stop(t) => if PcOf(s, t).Sleeping? then StepStop(s, t) else s
    case Finish(t) => if PcOf(s, t).Leaving? then StepFinish(s, t) else s
    case Wake(addr, v) => StepWake(s, addr, v)
    case Requeue(addr, addr2, v, n) => StepRequeue(s, addr, addr2, v, n)
  }

  // ---------------------------------------------------------------- the invariant

  ghost predicate EntryOk(s: State, e: nat) {
    && (e in s.home ==> e < |s.owner| && e in QueueAt(s.queues, s.home[e]))
    && (e < |s.owner| && e !in s.awoken ==> e in s.home)
    && (e in s.awoken ==> e < |s.owner|)
    && (e in s.won ==> e in s.awoken)
    && (e in s.lost ==> e < |s.owner| && e !in s.won)
  }

  ghost predicate QueueOk(s: State, a: nat) {
    Distinct(QueueAt(s.queues, a)) && forall e {:trigger e in QueueAt(s.queues, a)} :: e in QueueAt(s.queues, a) ==> e in s.home && s.home[e] == a
  }

  /** A thread inside WAIT works on its own entry, and that entry has not been answered yet. */
  ghost predicate ThreadOk(s: State, t: nat) {
    !PcOf(s, t).Idle? ==>
      var e := PcOf(s, t).entry;
      e < |s.owner| && s.owner[e] == t && e !in s.won && e !in s.lost
  }

  ghost predicate Inv(s: State) {
    && Distinct(s.log) && Elems(s.log) == s.awoken && Distinct(s.won) && Distinct(s.lost)
    && (forall e {:trigger EntryOk(s, e)} :: EntryOk(s, e))
    && (forall a {:trigger QueueOk(s, a)} :: QueueOk(s, a))
    && (forall t {:trigger ThreadOk(s, t)} :: ThreadOk(s, t))
  }

  // ---------------------------------------------------------------- facts about picking sleepers

  lemma DistinctAppend(a: Queue, b: Queue)
    requires Distinct(a) && Distinct(b) && Elems(a) !! Elems(b)
    ensures Distinct(a + b)
  {
    forall i, j | 0 <= i < j < |a + b| ensures (a + b)[i] != (a + b)[j] {
      if i < |a| <= j { assert a[i] in Elems(a) && b[j - |a|] in Elems(b); }
    }
  }

  lemma DistinctSplit(a: Queue, n: nat, x: nat)
    requires Distinct(a)
    ensures Distinct(Take(a, n)) && Distinct(Drop(a, n)) && !(x in Take(a, n) && x in Drop(a, n))
    ensures (x in Take(a, n) || x in Drop(a, n)) <==> x in a
  {
    if n < |a| { assert a == a[..n] + a[n..]; }
  }

  lemma {:induction false} MinusIn(q: Queue, gone: set<nat>, x: nat)
    ensures x in Minus(q, gone) <==> x in q && x !in gone
  {
    if q != [] { MinusIn(q[1..], gone, x); }
  }

  lemma {:induction false} MinusDistinct(q: Queue, gone: set<nat>)
    requires Distinct(q)
    ensures Distinct(Minus(q, gone))
  {
    if q != [] {
      DistinctTail(q);
      MinusDistinct(q[1..], gone);
      MinusIn(q[1..], gone, q[0]);
    }
  }

  /** Who is picked: sleepers of that queue, the woken and the moved never the same. */
  lemma Picked(s: State, addr: nat, v: nat, n: nat, x: nat)
    requires Inv(s)
    ensures x in Woken(s, addr, v) || x in Moved(s, addr, v, n) ==>
              x in QueueAt(s.queues, addr) && x !in s.awoken && x in s.home && s.home[x] == addr && x < |s.owner|
    ensures !(x in Woken(s, addr, v) && x in Moved(s, addr, v, n))
    ensures Distinct(Woken(s, addr, v)) && Distinct(Moved(s, addr, v, n))
  {
    hide Take, Drop, Distinct, Asleep;
    var q := QueueAt(s.queues, addr);
    assert QueueOk(s, addr) && EntryOk(s, x);
    AsleepDistinct(q, s.awoken);
    AsleepIn(q, s.awoken, x);
    DistinctSplit(Asleep(q, s.awoken), v, x);
    DistinctSplit(Drop(Asleep(q, s.awoken), v), n, x);
  }

  // ---------------------------------------------------------------- every step keeps the invariant

  lemma PushKeepsInv(s: State, t: nat, addr: nat, timeout: bool)
    requires Inv(s) && PcOf(s, t).Idle?
    ensures Inv(StepPush(s, t, addr, timeout))
  {
    hide Distinct;
    var s', n := StepPush(s, t, addr, timeout), |s.owner|;
    assert EntryOk(s, n);
    forall e: nat ensures EntryOk(s', e) { assert EntryOk(s, e); }
    forall a: nat ensures QueueOk(s', a) {
      assert QueueOk(s, a);
      assert n !in QueueAt(s.queues, a);
      DistinctOne(n);
      DistinctAppend(QueueAt(s.queues, a), [n]);
    }
    forall u: nat ensures ThreadOk(s', u) { assert ThreadOk(s, u); }
  }

  lemma DistinctOne(x: nat)
    ensures Distinct([x]) && Elems([x]) == {x}
  {
  }

  lemma FinishKeepsInv(s: State, t: nat)
    requires Inv(s) && PcOf(s, t).Leaving?
    ensures Inv(StepFinish(s, t))
  {
    hide Distinct, Minus;
    var s', x, addr := StepFinish(s, t), PcOf(s, t).entry, PcOf(s, t).addr;
    assert ThreadOk(s, t) && EntryOk(s, x) && QueueOk(s, addr);
    DistinctOne(x);
    DistinctAppend(s.won, [x]);
    DistinctAppend(s.lost, [x]);
    forall e: nat ensures EntryOk(s', e) {
      assert EntryOk(s, e);
      MinusIn(QueueAt(s.queues, addr), {x}, e);
    }
    forall a: nat ensures QueueOk(s', a) {
      assert QueueOk(s, a);
      MinusDistinct(QueueAt(s.queues, addr), {x});
      forall e | e in QueueAt(s'.queues, a) ensures e in s'.home && s'.home[e] == a { MinusIn(QueueAt(s.queues, addr), {x}, e); }
    }
    forall u: nat ensures ThreadOk(s', u) { assert ThreadOk(s, u); }
  }

  /** What WAKE and REQUEUE do to the log. */
  lemma LogGrows(s: State, addr: nat, v: nat)
    requires Inv(s)
    ensures var w := Woken(s, addr, v); Distinct(s.log + w) && Elems(s.log + w) == s.awoken + Elems(w)
  {
    hide Distinct, Woken;
    var w := Woken(s, addr, v);
    forall x | x in Elems(w) ensures x !in s.awoken { Picked(s, addr, v, 0, x); }
    Picked(s, addr, v, 0, 0);
    DistinctAppend(s.log, w);
  }

  lemma WakeKeepsInv(s: State, addr: nat, v: nat)
    requires Inv(s)
    ensures Inv(StepWake(s, addr, v))
  {
    hide Distinct, Woken, Owners;
    var s' := StepWake(s, addr, v);
    LogGrows(s, addr, v);
    forall e: nat ensures EntryOk(s', e) { assert EntryOk(s, e); Picked(s, addr, v, 0, e); }
    forall a: nat ensures QueueOk(s', a) { assert QueueOk(s, a); }
    forall u: nat ensures ThreadOk(s', u) { assert ThreadOk(s, u); }
  }

  lemma RequeueKeepsEntry(s: State, addr: nat, addr2: nat, v: nat, n: nat, e: nat)
    requires Inv(s) && addr != addr2
    ensures EntryOk(StepRequeue(s, addr, addr2, v, n), e)
  {
    hide Distinct, Woken, Owners, Moved, Minus;
    assert EntryOk(s, e);
    Picked(s, addr, v, n, e);
    MinusIn(QueueAt(s.queues, addr), Elems(Moved(s, addr, v, n)), e);
  }

  lemma RequeueKeepsQueue(s: State, addr: nat, addr2: nat, v: nat, n: nat, a: nat)
    requires Inv(s) && addr != addr2
    ensures QueueOk(StepRequeue(s, addr, addr2, v, n), a)
  {
    hide Distinct, Woken, Owners, Moved, Minus;
    var s', m, q2 := StepRequeue(s, addr, addr2, v, n), Moved(s, addr, v, n), QueueAt(s.queues, addr2);
    assert QueueOk(s, a) && QueueOk(s, addr) && QueueOk(s, addr2);
    MinusDistinct(QueueAt(s.queues, addr), Elems(m));
    Picked(s, addr, v, n, 0);
    forall x | x in Elems(m) ensures x !in q2 { Picked(s, addr, v, n, x); }
    DistinctAppend(q2, m);
    forall e | e in QueueAt(s'.queues, a) ensures e in s'.home && s'.home[e] == a {
      Picked(s, addr, v, n, e);
      MinusIn(QueueAt(s.queues, addr), Elems(m), e);
    }
  }

  lemma RequeueKeepsInv(s: State, addr: nat, addr2: nat, v: nat, n: nat)
    requires Inv(s)
    ensures Inv(StepRequeue(s, addr, addr2, v, n))
  {
    hide Distinct, Woken, Owners, Moved, EntryOk, QueueOk;
    if addr != addr2 {
      var s' := StepRequeue(s, addr, addr2, v, n);
      LogGrows(s, addr, v);
      forall e: nat ensures EntryOk(s', e) { RequeueKeepsEntry(s, addr, addr2, v, n, e); }
      forall a: nat ensures QueueOk(s', a) { RequeueKeepsQueue(s, addr, addr2, v, n, a); }
      forall u: nat ensures ThreadOk(s', u) { assert ThreadOk(s, u); }
    }
  }

  lemma SameQueues(s: State, s': State)
    requires Inv(s) && s' == s.(pcs := s'.pcs, ready := s'.ready, timed := s'.timed)
    requires forall t {:trigger ThreadOk(s', t)} :: ThreadOk(s', t)
    ensures Inv(s')
  {
    hide Distinct;
    forall e: nat ensures EntryOk(s', e) { assert EntryOk(s, e); }
    forall a: nat ensures QueueOk(s', a) { assert QueueOk(s, a); }
  }

  lemma StepKeepsInv(s: State, move: Move)
    requires Inv(s)
    ensures Inv(Next(s, move))
  {
    hide Inv, StepPush, StepFinish, StepWake, StepRequeue;
    match move
    case Push(t, addr, timeout) => if PcOf(s, t).Idle? { PushKeepsInv(s, t, addr, timeout); }
    case MarkAsleep(t) => if PcOf(s, t).Queued? { OwnPcKeepsInv(s, t, StepMarkAsleep(s, t)); }
    case Stop(t) => if PcOf(s, t).Sleeping? && (t in s.ready || t in s.timed) { OwnPcKeepsInv(s, t, StepStop(s, t)); }
    case Finish(t) => if PcOf(s, t).Leaving? { FinishKeepsInv(s, t); }
    case Wake(addr, v) => WakeKeepsInv(s, addr, v);
    case Requeue(addr, addr2, v, n) => RequeueKeepsInv(s, addr, addr2, v, n);
  }

  lemma OwnPcKeepsInv(s: State, t: nat, s': State)
    requires Inv(s) && !PcOf(s, t).Idle? && t in s'.pcs && !s'.pcs[t].Idle? && s'.pcs[t].entry == PcOf(s, t).entry
    requires s' == s.(pcs := s.pcs[t := s'.pcs[t]], ready := s'.ready, timed := s'.timed)
    ensures Inv(s')
  {
    hide Distinct, EntryOk, QueueOk;
    forall u: nat ensures ThreadOk(s', u) { assert ThreadOk(s, u); }
    SameQueues(s, s');
  }

  // ---------------------------------------------------------------- runs

  ghost function Run(s: State, moves: seq<Move>): State
    decreases |moves|
  {
    if moves == [] then s else Run(Next(s, moves[0]), moves[1..])
  }

  const START := State(map[], {}, [], map[], {}, {}, map[], [], [], [])

  lemma StartInv()
    ensures Inv(START)
  {
    forall e: nat ensures EntryOk(START, e) { }
    forall a: nat ensures QueueOk(START, a) { }
    forall t: nat ensures ThreadOk(START, t) { }
  }

  lemma {:induction false} RunKeepsInv(s: State, moves: seq<Move>)
    requires Inv(s)
    ensures Inv(Run(s, moves))
    decreases |moves|
  {
    if moves != [] {
      StepKeepsInv(s, moves[0]);
      RunKeepsInv(Next(s, moves[0]), moves[1..]);
    }
  }

  lemma {:induction false} DistinctSubset(a: Queue, b: Queue)
    requires Distinct(a) && Elems(a) <= Elems(b)
    ensures |a| <= |b|
  {
    if a != [] {
      var x := a[0];
      DistinctTail(a);
      assert x in Elems(a);
      var i :| 0 <= i < |b| && b[i] == x;
      var b' := b[..i] + b[i + 1..];
      forall y | y in Elems(a[1..]) ensures y in Elems(b') {
        assert y in Elems(a);
        var j :| 0 <= j < |b| && b[j] == y;
        assert b'[if j < i then j else j - 1] == y;
      }
      DistinctSubset(a[1..], b');
    }
  }

  /**
   * In every run: an entry still asleep is in exactly one queue, once; each entry is awoken at most once; WAIT answers
   * an entry at most once, 0 only if it was awoken; so no more WAITs succeed than WAKE and REQUEUE have awoken.
   */
  lemma FutexSafety(moves: seq<Move>, e: nat, a: nat)
    ensures var s := Run(START, moves);
            && (e < |s.owner| && e !in s.awoken ==> exists b {:trigger QueueAt(s.queues, b)} :: e in QueueAt(s.queues, b))
            && (forall b {:trigger QueueAt(s.queues, b)} :: e in QueueAt(s.queues, a) && e in QueueAt(s.queues, b) ==> a == b)
            && Distinct(QueueAt(s.queues, a)) && Distinct(s.log) && Elems(s.log) == s.awoken
            && Distinct(s.won) && Distinct(s.lost) && (e in s.won ==> e in s.log && e !in s.lost) && |s.won| <= |s.log|
  {
    hide Distinct;
    StartInv();
    RunKeepsInv(START, moves);
    var s := Run(START, moves);
    assert EntryOk(s, e) && QueueOk(s, a);
    forall b | e in QueueAt(s.queues, a) && e in QueueAt(s.queues, b) ensures a == b { assert QueueOk(s, b) && e in s.home; }
    forall x | x in Elems(s.won) ensures x in Elems(s.log) { assert EntryOk(s, x); }
    DistinctSubset(s.won, s.log);
    assert e in s.awoken ==> e in Elems(s.log);
  }

  /**
   * A WAIT that returns 0 takes its entry off the queue it was pushed to and touches no other queue; the entry is gone
   * from all queues exactly when it had not been requeued elsewhere.
   */
  lemma FinishRemoves(s: State, t: nat, b: nat)
    requires Inv(s) && PcOf(s, t).Leaving? && PcOf(s, t).entry in s.awoken
    ensures var e, addr, s' := PcOf(s, t).entry, PcOf(s, t).addr, Next(s, Finish(t));
            && e !in QueueAt(s'.queues, addr) && (b != addr ==> QueueAt(s'.queues, b) == QueueAt(s.queues, b))
            && (forall x {:trigger x in QueueAt(s'.queues, addr)} :: x != e ==> (x in QueueAt(s'.queues, addr) <==> x in QueueAt(s.queues, addr)))
            && (e in s'.home <==> e in s.home && s.home[e] != addr)
  {
    var e, addr, s' := PcOf(s, t).entry, PcOf(s, t).addr, Next(s, Finish(t));
    forall x ensures x in QueueAt(s'.queues, addr) <==> x in QueueAt(s.queues, addr) && x != e { MinusIn(QueueAt(s.queues, addr), {e}, x); }
  }

  // ---------------------------------------------------------------- the loops compute the steps

  /** The table holds what the state says. */
  ghost predicate Matches(f: FutexTable, s: State)
    reads f
  {
    && (forall a {:trigger QueueAt(f.queues, a)} :: QueueAt(f.queues, a) == QueueAt(s.queues, a))
    && f.awoken == s.awoken && f.owner == s.owner && f.ready == s.ready && f.timed == s.timed
  }

  /** The loop of FUTEX_WAKE takes a table that matches a reachable state to the state after the Wake step. */
  method WakeStep(f: FutexTable, addr: nat, value: nat, ghost s: State) returns (count: nat)
    requires Inv(s) && Matches(f, s)
    modifies f
    ensures Matches(f, Next(s, Wake(addr, value))) && count == |Woken(s, addr, value)|
  {
    hide Distinct, Owners, Asleep, Take;
    assert QueueOk(s, addr);
    assert QueueAt(f.queues, addr) == QueueAt(s.queues, addr);
    count := f.Wake(addr, value);
  }

  /** And the loop of FUTEX_REQUEUE to the state after the Requeue step. */
  method RequeueStep(f: FutexTable, addr: nat, addr2: nat, value: nat, value3: nat, ghost s: State) returns (done: bool, count: nat)
    requires Inv(s) && Matches(f, s)
    modifies f
    ensures Matches(f, Next(s, Requeue(addr, addr2, value, value3)))
    ensures done <==> addr != addr2
    ensures done ==> count == |Woken(s, addr, value)| + |Moved(s, addr, value, value3)|
  {
    hide Distinct, Owners, Asleep, Take, Drop, Minus;
    assert QueueOk(s, addr);
    assert QueueAt(f.queues, addr) == QueueAt(s.queues, addr) && QueueAt(f.queues, addr2) == QueueAt(s.queues, addr2);
    ghost var before := f.queues;
    done, count := f.Requeue(addr, addr2, value, value3);
    ghost var s' := Next(s, Requeue(addr, addr2, value, value3));
    forall a ensures QueueAt(f.queues, a) == QueueAt(s'.queues, a) { assert QueueAt(before, a) == QueueAt(s.queues, a); }
  }

  // ---------------------------------------------------------------- a wakeup that comes too early

  /** Asleep with no time limit although its entry has been awoken. */
  predicate Stuck(s: State, t: nat) { PcOf(s, t).Sleeping? && t !in s.ready && t !in s.timed && PcOf(s, t).entry in s.awoken }

  /** t has an entry on some queue that could still be awoken. */
  ghost predicate HasSpare(s: State, t: nat) { exists x {:trigger s.owner[x]} :: 0 <= x < |s.owner| && s.owner[x] == t && x !in s.awoken }

  /** A WAKE between the push and the marking is lost: the task is put to sleep after having been made ready. */
  lemma LostWakeup(addr: nat)
    ensures Stuck(Run(START, [Push(0, addr, false), Wake(addr, 1), MarkAsleep(0)]), 0)
  {
    var s1 := Next(START, Push(0, addr, false));
    assert QueueAt(s1.queues, addr) == [0];
    assert Asleep([0], {}) == [0];
    var s2 := Next(s1, Wake(addr, 1));
    var s3 := Next(s2, MarkAsleep(0));
    assert 0 in s2.awoken && PcOf(s2, 0) == Queued(addr, 0, false);
    RunThree(START, Push(0, addr, false), Wake(addr, 1), MarkAsleep(0));
  }

  lemma RunOne(s: State, a: Move)
    ensures Run(s, [a]) == Next(s, a)
  {
    hide Next;
    assert [a][1..] == [];
    assert Run(s, [a]) == Run(Next(s, a), []);
  }

  lemma RunThree(s: State, a: Move, b: Move, c: Move)
    ensures Run(s, [a, b, c]) == Next(Next(Next(s, a), b), c)
  {
    hide Next;
    assert [a, b, c][1..] == [b, c] && [b, c][1..] == [c];
    assert Run(s, [a, b, c]) == Run(Next(s, a), [b, c]);
    assert Run(Next(s, a), [b, c]) == Run(Next(Next(s, a), b), [c]);
    RunOne(Next(Next(s, a), b), c);
  }

  /** That is the only way to get stuck. */
  lemma StuckExactly(s: State, move: Move, t: nat)
    requires Inv(s) && !Stuck(s, t)
    ensures Stuck(Next(s, move), t) <==>
              move == MarkAsleep(t) && PcOf(s, t).Queued? && PcOf(s, t).entry in s.awoken && !PcOf(s, t).timeout && t !in s.timed
  {
    hide Woken, Moved, Minus, EntryOk, QueueOk, Distinct;
    assert ThreadOk(s, t);
    var addr, v := if move.Wake? || move.Requeue? then move.addr else 0, if move.Wake? || move.Requeue? then move.value else 0;
    if (move.Wake? || move.Requeue?) && PcOf(s, t).Sleeping? { Picked(s, addr, v, 0, PcOf(s, t).entry); }
  }

  lemma StuckStays(s: State, move: Move, t: nat)
    requires Inv(s) && Stuck(s, t) && !HasSpare(s, t)
    ensures Stuck(Next(s, move), t) && !HasSpare(Next(s, move), t)
  {
    hide Woken, Moved, Minus, EntryOk, QueueOk, Distinct;
    var s' := Next(s, move);
    forall x | 0 <= x < |s'.owner| && s'.owner[x] == t ensures x in s'.awoken {
      assert x < |s.owner| ==> s'.owner[x] == s.owner[x];
    }
    if move.Wake? || move.Requeue? {
      forall x | x in Woken(s, move.addr, move.value) && x < |s.owner| ensures s.owner[x] != t { Picked(s, move.addr, move.value, 0, x); }
    }
  }

  lemma {:induction false} StuckRun(s: State, moves: seq<Move>, t: nat)
    requires Inv(s) && Stuck(s, t) && !HasSpare(s, t)
    ensures Stuck(Run(s, moves), t)
    decreases |moves|
  {
    if moves != [] {
      StepKeepsInv(s, moves[0]);
      StuckStays(s, moves[0], t);
      StuckRun(Next(s, moves[0]), moves[1..], t);
    }
  }

  /** No later call ever releases a stuck thread, unless it left another entry behind when an earlier WAIT timed out. */
  lemma StuckForever(s: State, t: nat)
    requires Inv(s) && Stuck(s, t)
    ensures (forall moves {:trigger Run(s, moves)} :: Stuck(Run(s, moves), t)) <==> !HasSpare(s, t)
  {
    if HasSpare(s, t) {
      var x :| 0 <= x < |s.owner| && s.owner[x] == t && x !in s.awoken;
      assert EntryOk(s, x);
      var addr := s.home[x];
      var a := Asleep(QueueAt(s.queues, addr), s.awoken);
      AsleepIn(QueueAt(s.queues, addr), s.awoken, x);
      var s' := Next(s, Wake(addr, |a|));
      assert x in Woken(s, addr, |a|);
      assert t in s'.ready;
      RunOne(s, Wake(addr, |a|));
      assert !Stuck(Run(s, [Wake(addr, |a|)]), t);
    } else {
      forall moves: seq<Move> ensures Stuck(Run(s, moves), t) { StuckRun(s, moves, t); }
    }
  }

  // ---------------------------------------------------------------- timeouts

  predicate Untimed(moves: seq<Move>) { forall i {:trigger moves[i]} :: 0 <= i < |moves| && moves[i].Push? ==> !moves[i].timeout }

  /** With no time limits about, an entry still asleep belongs to a thread waiting for it. */
  ghost predicate Awaited(s: State, e: nat) {
    e < |s.owner| && e !in s.awoken ==> var p := PcOf(s, s.owner[e]); (p.Queued? || p.Sleeping?) && p.entry == e
  }

  ghost predicate Patient(s: State, t: nat) {
    var p := PcOf(s, t);
    (p.Queued? ==> !p.timeout) && (p.Leaving? || (p.Sleeping? && t in s.ready) ==> p.entry in s.awoken)
  }

  ghost predicate Quiet(s: State) {
    && s.timed == {} && s.lost == []
    && (forall e {:trigger Awaited(s, e)} :: Awaited(s, e))
    && (forall t {:trigger Patient(s, t)} :: Patient(s, t))
  }

  lemma AwaitedStep(s: State, move: Move, e: nat)
    requires Inv(s) && Quiet(s) && (move.Push? ==> !move.timeout)
    ensures Awaited(Next(s, move), e)
  {
    hide Woken, Moved, Minus, EntryOk, QueueOk, Distinct, Owners;
    assert Awaited(s, e);
    if e < |s.owner| { assert ThreadOk(s, s.owner[e]) && Patient(s, s.owner[e]); }
  }

  lemma PatientStep(s: State, move: Move, t: nat)
    requires Inv(s) && Quiet(s) && (move.Push? ==> !move.timeout)
    ensures Patient(Next(s, move), t)
  {
    hide Woken, Moved, Minus, EntryOk, QueueOk, Distinct;
    assert Patient(s, t);
    if move.Wake? || move.Requeue? {
      forall x | x in Woken(s, move.addr, move.value) ensures x < |s.owner| && Awaited(s, x) && x !in s.awoken { Picked(s, move.addr, move.value, 0, x); }
    }
  }

  lemma QuietStep(s: State, move: Move)
    requires Inv(s) && Quiet(s) && (move.Push? ==> !move.timeout)
    ensures Quiet(Next(s, move))
  {
    forall e: nat ensures Awaited(Next(s, move), e) { AwaitedStep(s, move, e); }
    forall t: nat ensures Patient(Next(s, move), t) { PatientStep(s, move, t); }
    hide Woken, Moved, Minus, EntryOk, QueueOk, Distinct, Awaited, Owners;
    if move.Finish? || move.MarkAsleep? { assert Patient(s, move.t); }
  }

  lemma {:induction false} QuietRun(s: State, moves: seq<Move>)
    requires Inv(s) && Quiet(s) && Untimed(moves)
    ensures Quiet(Run(s, moves))
    decreases |moves|
  {
    if moves != [] {
      assert moves[0].Push? ==> !moves[0].timeout;
      StepKeepsInv(s, moves[0]);
      QuietStep(s, moves[0]);
      forall i | 0 <= i < |moves[1..]| && moves[1..][i].Push? ensures !moves[1..][i].timeout { assert moves[1..][i] == moves[i + 1]; }
      QuietRun(Next(s, moves[0]), moves[1..]);
    }
  }

  /** In a run where no WAIT carries a timeout, every WAIT that returns, returns 0. */
  lemma UntimedNeverTimesOut(moves: seq<Move>)
    requires Untimed(moves)
    ensures Run(START, moves).lost == []
  {
    StartInv();
    forall e: nat ensures Awaited(START, e) { }
    forall t: nat ensures Patient(START, t) { }
    QuietRun(START, moves);
  }

  /** Entry e of thread t can only succeed: answered with 0, or awaited by t with nothing else that could rouse t. */
  ghost predicate Secure(s: State, t: nat, e: nat) {
    || e in s.won
    || (var p := PcOf(s, t);
        && !p.Idle? && p.entry == e && t !in s.timed && (p.Queued? ==> !p.timeout)
        && (p.Leaving? || (p.Sleeping? && t in s.ready) ==> e in s.awoken)
        && forall x {:trigger s.owner[x]} :: 0 <= x < |s.owner| && s.owner[x] == t && x != e ==> x in s.awoken)
  }

  lemma SecureStep(s: State, move: Move, t: nat, e: nat)
    requires Inv(s) && Secure(s, t, e)
    ensures Secure(Next(s, move), t, e)
  {
    hide Woken, Moved, Minus, EntryOk, QueueOk, Distinct;
    if e !in s.won {
      var s' := Next(s, move);
      forall x | 0 <= x < |s'.owner| && s'.owner[x] == t && x != e ensures x in s'.awoken { assert x < |s.owner| ==> s'.owner[x] == s.owner[x]; }
      if move.Wake? || move.Requeue? {
        forall x | x in Woken(s, move.addr, move.value) ensures x < |s.owner| && x !in s.awoken { Picked(s, move.addr, move.value, 0, x); }
      }
    }
  }

  lemma {:induction false} SecureRun(s: State, moves: seq<Move>, t: nat, e: nat)
    requires Inv(s) && Secure(s, t, e)
    ensures e !in Run(s, moves).lost
    decreases |moves|
  {
    if moves == [] {
      assert EntryOk(s, e) && ThreadOk(s, t);
    } else {
      StepKeepsInv(s, moves[0]);
      SecureStep(s, moves[0], t, e);
      SecureRun(Next(s, moves[0]), moves[1..], t, e);
    }
  }

  /** The WAIT that thread t starts at s without a time limit can still end in ETIMEDOUT. */
  ghost predicate CanTimeOut(s: State, t: nat, addr: nat) {
    exists moves {:trigger Run(Next(s, Push(t, addr, false)), moves)} :: |s.owner| in Run(Next(s, Push(t, addr, false)), moves).lost
  }

  /** It can exactly if an earlier WAIT of that thread left its wakeup time, or an entry on some queue, behind. */
  lemma TimesOutExactly(s: State, t: nat, addr: nat)
    requires Inv(s) && PcOf(s, t).Idle?
    ensures CanTimeOut(s, t, addr) <==> t in s.timed || HasSpare(s, t)
  {
    var e, s1 := |s.owner|, Next(s, Push(t, addr, false));
    StepKeepsInv(s, Push(t, addr, false));
    assert EntryOk(s, e);
    if t in s.timed {
      OverdueLoses(s1, t);
      assert e in Run(s1, [MarkAsleep(t), Stop(t), Finish(t)]).lost;
    } else if HasSpare(s, t) {
      var moves := SpareLoses(s, t, addr);
      assert e in Run(s1, moves).lost;
    } else {
      assert Secure(s1, t, e) by {
        forall x | 0 <= x < |s1.owner| && s1.owner[x] == t && x != e ensures x in s1.awoken { assert s.owner[x] == t; }
      }
      forall moves: seq<Move> ensures e !in Run(s1, moves).lost { SecureRun(s1, moves, t, e); }
    }
  }

  lemma OverdueLoses(s: State, t: nat)
    requires PcOf(s, t).Queued? && t in s.timed && PcOf(s, t).entry !in s.awoken
    ensures PcOf(s, t).entry in Run(s, [MarkAsleep(t), Stop(t), Finish(t)]).lost
  {
    RunThree(s, MarkAsleep(t), Stop(t), Finish(t));
  }

  lemma {:induction false} AsleepAppend(q: Queue, awoken: set<nat>, e: nat)
    requires e !in awoken
    ensures Asleep(q + [e], awoken) == Asleep(q, awoken) + [e]
  {
    if q == [] {
      assert [e][1..] == [];
      assert q + [e] == [e];
    } else {
      assert (q + [e])[1..] == q[1..] + [e];
      AsleepAppend(q[1..], awoken, e);
    }
  }

  /** Waking the entry left behind, which is ahead of the new one, rouses the thread too early. */
  lemma SpareLoses(s: State, t: nat, addr: nat) returns (moves: seq<Move>)
    requires Inv(s) && PcOf(s, t).Idle? && HasSpare(s, t)
    ensures |s.owner| in Run(Next(s, Push(t, addr, false)), moves).lost
  {
    hide Distinct, Minus;
    var e, s1 := |s.owner|, Next(s, Push(t, addr, false));
    var x :| 0 <= x < |s.owner| && s.owner[x] == t && x !in s.awoken;
    assert EntryOk(s, x) && EntryOk(s, e);
    var a := s.home[x];
    var q := QueueAt(s.queues, a);
    var n := |Asleep(q, s.awoken)|;
    var s2 := Next(s1, MarkAsleep(t));
    var s3 := Next(s2, Wake(a, n));
    AsleepIn(q, s.awoken, x);
    if a == addr { AsleepAppend(q, s.awoken, e); }
    assert Woken(s2, a, n) == Asleep(q, s.awoken);
    assert QueueOk(s, a);
    AsleepIn(q, s.awoken, e);
    assert s2.owner[x] == t && x in Woken(s2, a, n);
    assert t in s3.ready && e !in s3.awoken && PcOf(s3, t) == Sleeping(addr, e);
    var s4 := Next(s3, Stop(t));
    moves := [MarkAsleep(t), Wake(a, n), Stop(t)] + [Finish(t)];
    RunThree(s1, MarkAsleep(t), Wake(a, n), Stop(t));
    RunJoin(s1, [MarkAsleep(t), Wake(a, n), Stop(t)], [Finish(t)]);
    RunOne(s4, Finish(t));
  }

  /** One timed WAIT is enough: its wakeup time outlives it and ends the thread's next, unlimited WAIT with ETIMEDOUT. */
  lemma StaleTimeout(addr: nat)
    ensures var once := [Push(0, addr, true), MarkAsleep(0), Stop(0), Finish(0)];
            var again := [Push(0, addr, false), MarkAsleep(0), Stop(0), Finish(0)];
            Run(START, once + again).lost == [0, 1]
  {
    var once := [Push(0, addr, true), MarkAsleep(0), Stop(0), Finish(0)];
    var again := [Push(0, addr, false), MarkAsleep(0), Stop(0), Finish(0)];
    WaitTimesOut(START, addr, true);
    var s := Run(START, once);
    WaitTimesOut(s, addr, false);
    RunJoin(START, once, again);
  }

  lemma {:induction false} RunJoin(s: State, a: seq<Move>, b: seq<Move>)
    ensures Run(s, a + b) == Run(Run(s, a), b)
    decreases |a|
  {
    if a == [] {
      assert a + b == b;
    } else {
      assert (a + b)[1..] == a[1..] + b;
      RunJoin(Next(s, a[0]), a[1..], b);
    }
  }

  lemma WaitTimesOut(s: State, addr: nat, timeout: bool)
    requires PcOf(s, 0).Idle? && (timeout || 0 in s.timed) && |s.owner| !in s.awoken
    ensures var s' := Run(s, [Push(0, addr, timeout), MarkAsleep(0), Stop(0), Finish(0)]);
            s'.lost == s.lost + [|s.owner|] && PcOf(s', 0).Idle? && 0 in s'.timed && s'.awoken == s.awoken && |s'.owner| == |s.owner| + 1
  {
    var ms := [Push(0, addr, timeout), MarkAsleep(0), Stop(0)];
    RunThree(s, ms[0], ms[1], ms[2]);
    RunJoin(s, ms, [Finish(0)]);
    assert ms + [Finish(0)] == [Push(0, addr, timeout), MarkAsleep(0), Stop(0), Finish(0)];
    var s3 := Run(s, ms);
    RunOne(s3, Finish(0));
  }
}
