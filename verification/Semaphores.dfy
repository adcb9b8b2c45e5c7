/** Semaphore wait and post: any number of threads, interleaved at every access to flag and cnt. */
module Semaphores {
  /**
   * Where a thread stands. Poll is the head of wait's loop, where a timed wait may give up; Spin swaps the flag; Test,
   * Store and Unlock run with it held. Wait(timed) and Post name the operation under way.
   */
  datatype Op = Wait(timed: bool) | Post

  datatype Pc =
    | Idle
    | Poll(timed: bool)
    | Spin(op: Op)
    | Test(op: Op)
    | Store(op: Op, value: int)
    | Unlock(op: Op, done: bool)

  /** posts and takes count completed increments and successful waits. */
  datatype State = State(flag: bool, cnt: int, posts: nat, takes: nat, pcs: map<nat, Pc>)

  const I32_MAX := 0x7FFF_FFFF

  /** The i32 congruent to x. */
  function Wrap32(x: int): int { (x + 0x8000_0000) % 0x1_0000_0000 - 0x8000_0000 }

  /** What an idle thread starts, and whether the timer lets a polling one give up. */
  datatype Choice = Choice(op: Op, expired: bool)

  function AfterTest(op: Op, cnt: int): Pc {
    match op
    case Wait(timed) => if cnt > 0 then Store(op, cnt - 1) else Unlock(op, false)
    case Post => Store(op, Wrap32(cnt + 1))
  }

  function Next(s: State, t: nat, c: Choice): State
    requires t in s.pcs
  {
    match s.pcs[t]
    case Idle => s.(pcs := s.pcs[t := match c.op case Wait(timed) => Poll(timed) case Post => Spin(Post)])
    case Poll(timed) => s.(pcs := s.pcs[t := if timed && c.expired then Idle else Spin(Wait(timed))])
    case Spin(op) => if s.flag then s else s.(flag := true, pcs := s.pcs[t := Test(op)])
    case Test(op) => s.(pcs := s.pcs[t := AfterTest(op, s.cnt)])
    case Store(op, v) =>
      State(s.flag, v, if op == Post then s.posts + 1 else s.posts, if op == Post then s.takes else s.takes + 1, s.pcs[t := Unlock(op, true)])
    case Unlock(op, done) => s.(flag := false, pcs := s.pcs[t := if op.Wait? && !done then Poll(op.timed) else Idle])
  }

  predicate InLock(pc: Pc) { pc.Test? || pc.Store? || pc.Unlock? }

  function Holders(s: State): set<nat> { set t | t in s.pcs && InLock(s.pcs[t]) }

  ghost predicate PcOk(s: State, t: nat)
    requires t in s.pcs
  {
    s.pcs[t].Store? ==> AfterTest(s.pcs[t].op, s.cnt) == s.pcs[t]
  }

  ghost predicate AtMostOne(S: set<nat>) { forall t, u {:trigger t in S, u in S} :: t in S && u in S ==> t == u }

  ghost predicate Locked(s: State) {
    && (s.flag <==> Holders(s) != {}) && AtMostOne(Holders(s))
    && (forall t {:trigger PcOk(s, t)} :: t in s.pcs ==> PcOk(s, t))
  }

  /** cnt is initial plus posts minus takes, as an i32; without overflow that is never negative. */
  ghost predicate CountOk(initial: int, cnt: int, posts: nat, takes: nat) {
    && cnt == Wrap32(initial + posts - takes)
    && (0 <= initial && initial + posts <= I32_MAX ==> takes <= initial + posts)
  }

  ghost predicate Inv(s: State, initial: int) { Locked(s) && CountOk(initial, s.cnt, s.posts, s.takes) }

  // ---------------------------------------------------------------- arithmetic of cnt

  lemma WrapSame(x: int)
    ensures -0x8000_0000 <= Wrap32(x) <= I32_MAX && (-0x8000_0000 <= x <= I32_MAX ==> Wrap32(x) == x)
  {
  }

  lemma WrapUp(x: int)
    ensures Wrap32(Wrap32(x) + 1) == Wrap32(x + 1)
  {
  }

  lemma WrapDown(x: int)
    requires Wrap32(x) > 0
    ensures Wrap32(x) - 1 == Wrap32(x - 1)
  {
  }

  lemma TakeCounts(initial: int, cnt: int, posts: nat, takes: nat)
    requires CountOk(initial, cnt, posts, takes) && cnt > 0
    ensures CountOk(initial, cnt - 1, posts, takes + 1)
  {
    WrapDown(initial + posts - takes);
    WrapSame(initial + posts - takes);
  }

  lemma PostCounts(initial: int, cnt: int, posts: nat, takes: nat)
    requires CountOk(initial, cnt, posts, takes)
    ensures CountOk(initial, Wrap32(cnt + 1), posts + 1, takes)
  {
    WrapUp(initial + posts - takes);
  }

  // ---------------------------------------------------------------- every step keeps the invariant

  lemma Moves(s: State, s': State, t: nat, pc: Pc)
    requires t in s.pcs && s'.pcs == s.pcs[t := pc]
    ensures Holders(s') == (if InLock(pc) then Holders(s) + {t} else Holders(s) - {t}) && s'.pcs.Keys == s.pcs.Keys
  {
  }

  lemma InHolders(s: State, t: nat)
    requires t in s.pcs
    ensures t in Holders(s) <==> InLock(s.pcs[t])
  {
  }

  lemma StepLocked(s: State, t: nat, c: Choice)
    requires Locked(s) && t in s.pcs
    ensures Locked(Next(s, t, c))
  {
    hide Holders, Wrap32;
    var s' := Next(s, t, c);
    assert PcOk(s, t);
    if s' != s {
      Moves(s, s', t, s'.pcs[t]);
      InHolders(s, t);
      forall u | u in s'.pcs ensures PcOk(s', u) {
        assert PcOk(s, u);
        InHolders(s, u);
      }
    }
  }

  lemma StepKeepsInv(s: State, t: nat, c: Choice, initial: int)
    requires Inv(s, initial) && t in s.pcs
    ensures Inv(Next(s, t, c), initial)
  {
    hide Holders, Wrap32, Locked;
    StepLocked(s, t, c);
    if s.pcs[t].Store? {
      assert PcOk(s, t) by { LockedPc(s, t); }
      if s.pcs[t].op == Post {
        PostCounts(initial, s.cnt, s.posts, s.takes);
      } else {
        TakeCounts(initial, s.cnt, s.posts, s.takes);
      }
    }
  }

  lemma LockedPc(s: State, t: nat)
    requires Locked(s) && t in s.pcs
    ensures PcOk(s, t)
  {
  }

  // ---------------------------------------------------------------- runs

  type Schedule = seq<(nat, Choice)>

  ghost function Run(s: State, moves: Schedule): State
    decreases |moves|
  {
    if moves == [] then s else Run(if moves[0].0 in s.pcs then Next(s, moves[0].0, moves[0].1) else s, moves[1..])
  }

  ghost predicate Start(s: State, initial: int) {
    && !s.flag && s.cnt == initial && s.posts == 0 && s.takes == 0 && -0x8000_0000 <= initial <= I32_MAX
    && forall t {:trigger s.pcs[t]} :: t in s.pcs ==> s.pcs[t] == Idle
  }

  lemma {:induction false} RunKeepsInv(s: State, moves: Schedule, initial: int)
    requires Inv(s, initial)
    ensures Inv(Run(s, moves), initial)
    decreases |moves|
  {
    if moves != [] {
      var t := moves[0].0;
      if t in s.pcs { StepKeepsInv(s, t, moves[0].1, initial); }
      RunKeepsInv(if t in s.pcs then Next(s, t, moves[0].1) else s, moves[1..], initial);
    }
  }

  lemma StartInv(s: State, initial: int)
    requires Start(s, initial)
    ensures Inv(s, initial)
  {
    WrapSame(initial);
    assert Holders(s) == {};
    forall t | t in s.pcs ensures PcOk(s, t) { assert s.pcs[t] == Idle; }
  }

  /**
   * In every interleaving cnt is initial plus posts minus successful waits modulo 2^32, so exactly that number just when
   * it fits an i32, and never negative while a non-negative initial plus the posts stay below 2^31.
   */
  lemma SemaphoreCounts(s: State, moves: Schedule, initial: int)
    requires Start(s, initial)
    ensures var e := Run(s, moves);
            && e.cnt == Wrap32(initial + e.posts - e.takes)
            && (e.cnt == initial + e.posts - e.takes <==> -0x8000_0000 <= initial + e.posts - e.takes <= I32_MAX)
            && (0 <= initial && initial + e.posts <= I32_MAX ==> e.takes <= initial + e.posts && e.cnt >= 0)
  {
    StartInv(s, initial);
    RunKeepsInv(s, moves, initial);
    var e := Run(s, moves);
    WrapSame(initial + e.posts - e.takes);
  }

  // ---------------------------------------------------------------- a wait without a timeout returns only with success

  /** Inside a wait without a timeout that has not taken anything yet. */
  predicate Waiting(pc: Pc) {
    pc == Poll(false) || pc == Spin(Wait(false)) || pc == Test(Wait(false)) || (pc.Store? && pc.op == Wait(false)) || pc == Unlock(Wait(false), false)
  }

  lemma {:induction false} WaitGoesOn(s: State, moves: Schedule, t: nat, k: nat)
    requires t in s.pcs && (s.takes > k || (s.takes == k && Waiting(s.pcs[t])) )
    ensures t in Run(s, moves).pcs && (Run(s, moves).takes > k || (Run(s, moves).takes == k && Waiting(Run(s, moves).pcs[t])))
    decreases |moves|
  {
    if moves != [] { WaitGoesOn(if moves[0].0 in s.pcs then Next(s, moves[0].0, moves[0].1) else s, moves[1..], t, k); }
  }

  /** In every run from a state where t waits without a timeout, t is idle again only after a successful wait. */
  lemma UntimedWaitTakes(s: State, moves: Schedule, t: nat)
    requires t in s.pcs && Waiting(s.pcs[t])
    ensures t in Run(s, moves).pcs && (Run(s, moves).pcs[t] == Idle ==> Run(s, moves).takes > s.takes)
  {
    WaitGoesOn(s, moves, t, s.takes);
  }

  // ---------------------------------------------------------------- exactly when the count stays non-negative

  lemma {:induction false} RunOn(s: State, a: Schedule, b: Schedule)
    ensures Run(s, a + b) == Run(Run(s, a), b)
    decreases |a|
  {
    if a == [] {
      assert a + b == b;
    } else {
      assert (a + b)[0] == a[0] && (a + b)[1..] == a[1..] + b;
      RunOn(if a[0].0 in s.pcs then Next(s, a[0].0, a[0].1) else s, a[1..], b);
    }
  }

  lemma RunOne(s: State, t: nat, c: Choice)
    requires t in s.pcs
    ensures Run(s, [(t, c)]) == Next(s, t, c)
  {
    assert [(t, c)][1..] == [];
  }

  /** One post by a thread that has the semaphore to itself. */
  lemma PostAlone(s: State, t: nat) returns (moves: Schedule)
    requires t in s.pcs && s.pcs[t] == Idle && !s.flag
    ensures Run(s, moves) == s.(cnt := Wrap32(s.cnt + 1), posts := s.posts + 1)
  {
    hide Run, Wrap32;
    var c := Choice(Post, false);
    var m: Schedule := [(t, c)];
    var s1 := Next(s, t, c);
    var s2 := Next(s1, t, c);
    var s3 := Next(s2, t, c);
    var s4 := Next(s3, t, c);
    RunOne(s, t, c);
    RunOne(s1, t, c);
    RunOne(s2, t, c);
    RunOne(s3, t, c);
    RunOne(s4, t, c);
    RunOn(s, m, m);
    RunOn(s, m + m, m);
    RunOn(s, m + m + m, m);
    RunOn(s, m + m + m + m, m);
    moves := m + m + m + m + m;
    assert Next(s4, t, c).pcs == s.pcs;
  }

  /** One pass of a wait by a thread that has the semaphore to itself: it succeeds and takes one if the count is positive, and polls again if not. */
  lemma WaitAlone(s: State, t: nat, timed: bool) returns (moves: Schedule)
    requires t in s.pcs && s.pcs[t] == Idle && !s.flag
    ensures Run(s, moves) == if s.cnt > 0 then s.(cnt := s.cnt - 1, takes := s.takes + 1) else s.(pcs := s.pcs[t := Poll(timed)])
  {
    hide Run, Wrap32;
    var c := Choice(Wait(timed), false);
    var m: Schedule := [(t, c)];
    var s1 := Next(s, t, c);
    var s2 := Next(s1, t, c);
    var s3 := Next(s2, t, c);
    var s4 := Next(s3, t, c);
    var s5 := Next(s4, t, c);
    RunOne(s, t, c);
    RunOne(s1, t, c);
    RunOne(s2, t, c);
    RunOne(s3, t, c);
    RunOne(s4, t, c);
    RunOne(s5, t, c);
    RunOn(s, m, m);
    RunOn(s, m + m, m);
    RunOn(s, m + m + m, m);
    RunOn(s, m + m + m + m, m);
    RunOn(s, m + m + m + m + m, m);
    if s.cnt > 0 {
      moves := m + m + m + m + m + m;
      assert Next(s5, t, c).pcs == s.pcs;
    } else {
      moves := m + m + m + m + m;
      assert s5.pcs == s.pcs[t := Poll(timed)];
    }
  }

  lemma {:induction false} PostsAlone(s: State, t: nat, n: nat) returns (moves: Schedule)
    requires t in s.pcs && s.pcs[t] == Idle && !s.flag
    ensures var e := Run(s, moves);
            && e.posts == s.posts + n && !e.flag && e.pcs == s.pcs && (n > 0 ==> e.cnt == Wrap32(s.cnt + n)) && (n == 0 ==> e.cnt == s.cnt)
  {
    hide Wrap32;
    if n == 0 {
      moves := [];
    } else {
      var a := PostsAlone(s, t, n - 1);
      var b := PostAlone(Run(s, a), t);
      RunOn(s, a, b);
      WrapUp(s.cnt + n - 1);
      moves := a + b;
    }
  }

  /** Every run with at most n posts ends with a count that is not negative. */
  ghost predicate NeverNegative(s: State, n: nat) {
    forall moves {:trigger Run(s, moves)} :: Run(s, moves).posts <= n ==> Run(s, moves).cnt >= 0
  }

  /** That is so exactly when initial is not negative and the posts, if there is a thread to make them, cannot carry it past 2^31 - 1. */
  lemma NeverNegativeExactly(s: State, initial: int, n: nat)
    requires Start(s, initial)
    ensures NeverNegative(s, n) <==> 0 <= initial && (s.pcs == map[] || initial + n <= I32_MAX)
  {
    hide Wrap32;
    if 0 <= initial && initial + n <= I32_MAX {
      forall moves | Run(s, moves).posts <= n ensures Run(s, moves).cnt >= 0 { SemaphoreCounts(s, moves, initial); }
    } else if s.pcs == map[] {
      forall moves ensures Run(s, moves) == s { NobodyRuns(s, moves); }
      assert Run(s, []) == s;
    } else if initial < 0 {
      assert Run(s, []).cnt == initial;
    } else {
      var t :| t in s.pcs;
      var moves := PostsAlone(s, t, I32_MAX + 1 - initial);
      assert Run(s, moves).cnt == -0x8000_0000 by { assert Wrap32(I32_MAX + 1) == -0x8000_0000 by { WrapTop(); } }
    }
  }

  lemma WrapTop()
    ensures Wrap32(I32_MAX + 1) == -0x8000_0000
  {
  }

  lemma {:induction false} NobodyRuns(s: State, moves: Schedule)
    requires s.pcs == map[]
    ensures Run(s, moves) == s
    decreases |moves|
  {
    if moves != [] { NobodyRuns(s, moves[1..]); }
  }

  /** So one post makes a semaphore that starts at the largest i32 go negative. */
  lemma OverflowGoesNegative(s: State)
    requires Start(s, I32_MAX) && s.pcs != map[]
    ensures exists moves :: Run(s, moves).posts <= 1 && Run(s, moves).cnt < 0
  {
    NeverNegativeExactly(s, I32_MAX, 1);
  }
}
