/** First come, first served: in every run of the futex calls, WAKE prefers those who have been in its queue longer. */
module FutexOrder {
  import opened FutexQueues
  import opened FutexRuns

  /** The first x in q has no y before it, and one behind it. */
  predicate Before(q: Queue, x: nat, y: nat) { q != [] && if q[0] == x then y in q[1..] else q[0] != y && Before(q[1..], x, y) }

  lemma {:induction false} BeforeAppend(q: Queue, m: Queue, x: nat, y: nat)
    requires Before(q, x, y) || (x in q && y !in q && y in m)
    ensures Before(q + m, x, y)
  {
    assert (q + m)[1..] == q[1..] + m;
    if q[0] != x { BeforeAppend(q[1..], m, x, y); }
  }

  lemma {:induction false} BeforeMinus(q: Queue, gone: set<nat>, x: nat, y: nat)
    requires Before(q, x, y) && x !in gone && y !in gone
    ensures Before(Minus(q, gone), x, y)
  {
    MinusIn(q[1..], gone, y);
    if q[0] != x { BeforeMinus(q[1..], gone, x, y); }
  }

  lemma {:induction false} BeforeAsleep(q: Queue, awoken: set<nat>, x: nat, y: nat)
    requires Before(q, x, y) && x !in awoken && y !in awoken
    ensures Before(Asleep(q, awoken), x, y)
  {
    AsleepIn(q[1..], awoken, y);
    if q[0] != x { BeforeAsleep(q[1..], awoken, x, y); }
  }

  /** Taking some from the front takes x before y. */
  lemma {:induction false} BeforeTake(q: Queue, n: nat, x: nat, y: nat)
    requires Before(q, x, y) && y in Take(q, n) && x != y
    ensures x in Take(q, n)
  {
    if n < |q| {
      var j :| 0 <= j < n && q[j] == y;
      var i := PlaceOf(q, x, y, j);
      assert q[..n][i] == x;
    } else {
      var i := PlaceIn(q, x, y);
    }
  }

  lemma {:induction false} PlaceOf(q: Queue, x: nat, y: nat, j: nat) returns (i: nat)
    requires Before(q, x, y) && j < |q| && q[j] == y && x != y
    ensures i < j && q[i] == x
  {
    if q[0] == x {
      i := 0;
    } else {
      var k := PlaceOf(q[1..], x, y, j - 1);
      i := k + 1;
    }
  }

  lemma {:induction false} PlaceIn(q: Queue, x: nat, y: nat) returns (i: nat)
    requires Before(q, x, y)
    ensures i < |q| && q[i] == x
  {
    if q[0] == x {
      i := 0;
    } else {
      var k := PlaceIn(q[1..], x, y);
      i := k + 1;
    }
  }

  /** x is in the queue of a, and y, if there, behind it. */
  predicate Ahead(s: State, a: nat, x: nat, y: nat) {
    var q := QueueAt(s.queues, a);
    x in q && (y in q ==> Before(q, x, y))
  }

  /** One step: while x stays in the queue, y stays behind it, and comes in behind it. */
  lemma AheadStep(s: State, move: Move, a: nat, x: nat, y: nat)
    requires Inv(s) && Ahead(s, a, x, y) && x != y && x in QueueAt(Next(s, move).queues, a)
    ensures Ahead(Next(s, move), a, x, y)
  {
    hide Before, Minus, Woken, Moved, EntryOk, QueueOk, Distinct, ThreadOk, Owners;
    var s', q := Next(s, move), QueueAt(s.queues, a);
    var q' := QueueAt(s'.queues, a);
    match move
    case Push(t, addr, timeout) =>
      if y in q' && q' != q { BeforeAppend(q, [|s.owner|], x, y); }
    case Finish(t) =>
      if y in q' && q' != q {
        MinusIn(q, {PcOf(s, t).entry}, x);
        MinusIn(q, {PcOf(s, t).entry}, y);
        BeforeMinus(q, {PcOf(s, t).entry}, x, y);
      }
    case Requeue(addr, addr2, v, n) =>
      if y in q' && q' != q {
        var m := Moved(s, addr, v, n);
        if a == addr2 {
          BeforeAppend(q, m, x, y);
        } else {
          MinusIn(q, Elems(m), x);
          MinusIn(q, Elems(m), y);
          BeforeMinus(q, Elems(m), x, y);
        }
      }
    case _ =>
  }

  /** x is in the queue of a all along. */
  ghost predicate Stays(s: State, moves: seq<Move>, a: nat, x: nat)
    decreases |moves|
  {
    x in QueueAt(s.queues, a) && (moves != [] ==> Stays(Next(s, moves[0]), moves[1..], a, x))
  }

  lemma {:induction false} AheadRun(s: State, moves: seq<Move>, a: nat, x: nat, y: nat)
    requires Inv(s) && Ahead(s, a, x, y) && x != y && Stays(s, moves, a, x)
    ensures Inv(Run(s, moves)) && Ahead(Run(s, moves), a, x, y)
    decreases |moves|
  {
    hide Next, Inv, Ahead;
    if moves != [] {
      assert Stays(Next(s, moves[0]), moves[1..], a, x);
      StepKeepsInv(s, moves[0]);
      AheadStep(s, moves[0], a, x, y);
      AheadRun(Next(s, moves[0]), moves[1..], a, x, y);
    }
  }

  /**
   * In every run: if y comes to a queue, by WAIT or REQUEUE, while x is in it, then as long as x stays there a WAKE or
   * REQUEUE that finds both asleep awakens y only together with x, and moves y only if it awakens or moves x.
   */
  lemma FirstComeFirstServed(before: seq<Move>, moves: seq<Move>, a: nat, x: nat, y: nat, v: nat, n: nat)
    requires y !in QueueAt(Run(START, before).queues, a) && Stays(Run(START, before), moves, a, x)
    ensures var s := Run(Run(START, before), moves);
            && (x !in s.awoken && y in Woken(s, a, v) ==> x in Woken(s, a, v))
            && (x !in s.awoken && y in Moved(s, a, v, n) ==> x in Woken(s, a, v) || x in Moved(s, a, v, n))
  {
    hide Inv, Before, Asleep, Distinct, Next;
    StartInv();
    RunKeepsInv(START, before);
    var s0 := Run(START, before);
    assert x in QueueAt(s0.queues, a);
    AheadRun(s0, moves, a, x, y);
    var s := Run(s0, moves);
    Picked(s, a, v, n, y);
    var q := QueueAt(s.queues, a);
    if x !in s.awoken && (y in Woken(s, a, v) || y in Moved(s, a, v, n)) {
      BeforeAsleep(q, s.awoken, x, y);
      Preferred(Asleep(q, s.awoken), v, n, x, y);
    }
  }

  /** The first v, then the next n, of a list that has x before y. */
  lemma Preferred(w: Queue, v: nat, n: nat, x: nat, y: nat)
    requires Before(w, x, y) && x != y
    ensures y in Take(w, v) ==> x in Take(w, v)
    ensures y in Take(Drop(w, v), n) ==> x in Take(w, v) || x in Take(Drop(w, v), n)
  {
    hide Before;
    if y in Take(w, v) { BeforeTake(w, v, x, y); }
    if y in Take(Drop(w, v), n) {
      assert v < |w|;
      var k :| 0 <= k < |Take(Drop(w, v), n)| && Take(Drop(w, v), n)[k] == y;
      var i := PlaceOf(w, x, y, v + k);
      if i < v { assert w[..v][i] == x; } else { assert w[v..][i - v] == x && Take(Drop(w, v), n)[i - v] == x; }
    }
  }

  /** A waiter that has been awoken and made ready returns 0 in its next two steps. */
  lemma AwokenReturns(s: State, t: nat)
    requires PcOf(s, t).Sleeping? && t in s.ready && PcOf(s, t).entry in s.awoken
    ensures var s' := Run(s, [Stop(t), Finish(t)]); s'.won == s.won + [PcOf(s, t).entry] && PcOf(s', t) == Idle
  {
    RunOne(s, Stop(t));
    RunJoin(s, [Stop(t)], [Finish(t)]);
    RunOne(Next(s, Stop(t)), Finish(t));
    assert [Stop(t)] + [Finish(t)] == [Stop(t), Finish(t)];
  }
}
