/** SpinlockCnt, the reader/writer lock: any number of threads, interleaved at every access to flag and cnt. */
module CountedLock {
  datatype Op = ReadAcquire | ReadRelease | WriteAcquire | WriteRelease

  /**
   * Where a thread stands. Spin swaps the flag until it gets it; Test, Store and Unlock run with the flag held: they
   * read cnt, write the new value, and clear the flag. done tells whether the operation succeeded or must be retried.
   */
  datatype Pc =
    | Idle
    | Reading
    | Writing
    | Spin(op: Op)
    | Test(op: Op)
    | Store(op: Op, value: int)
    | Unlock(op: Op, done: bool)
    | Panicked

  datatype State = State(flag: bool, cnt: int, pcs: map<nat, Pc>)

  const I32_MAX := 0x7FFF_FFFF

  /** cnt + 1 on an i32. */
  function Inc32(x: int): int { if x == I32_MAX then -0x8000_0000 else x + 1 }

  /** Where a thread goes from the test under the lock, given cnt. */
  function AfterTest(op: Op, cnt: int): Pc {
    match op
    case ReadAcquire => if cnt > -1 then Store(op, Inc32(cnt)) else Unlock(op, false)
    case ReadRelease => if cnt < 0 then Panicked else Store(op, cnt - 1)
    case WriteAcquire => if cnt == 0 then Store(op, -1) else Unlock(op, false)
    case WriteRelease => if cnt != -1 then Panicked else Store(op, 0)
  }

  function AfterUnlock(op: Op, done: bool): Pc {
    if !done then Spin(op)
    else match op
      case ReadAcquire => Reading
      case WriteAcquire => Writing
      case ReadRelease => Idle
      case WriteRelease => Idle
  }

  /** One step of thread t. An idle thread starts the acquisition it chooses; holders release what they hold. */
  function Next(s: State, t: nat, choice: Op): State
    requires t in s.pcs
  {
    match s.pcs[t]
    case Idle => if choice == ReadAcquire || choice == WriteAcquire then s.(pcs := s.pcs[t := Spin(choice)]) else s
    case Reading => s.(pcs := s.pcs[t := Spin(ReadRelease)])
    case Writing => s.(pcs := s.pcs[t := Spin(WriteRelease)])
    case Spin(op) => if s.flag then s else State(true, s.cnt, s.pcs[t := Test(op)])
    case Test(op) => s.(pcs := s.pcs[t := AfterTest(op, s.cnt)])
    case Store(op, v) => State(s.flag, v, s.pcs[t := Unlock(op, true)])
    case Unlock(op, done) => State(false, s.cnt, s.pcs[t := AfterUnlock(op, done)])
    case Panicked => s
  }

  predicate InLock(pc: Pc) { pc.Test? || pc.Store? || pc.Unlock? }

  /** Counted in cnt as a reader: from storing the increment to storing the decrement. */
  predicate ReaderNow(pc: Pc) {
    pc == Reading || pc == Unlock(ReadAcquire, true) || pc == Spin(ReadRelease) || pc == Test(ReadRelease)
    || (pc.Store? && pc.op == ReadRelease) || pc == Unlock(ReadRelease, false)
  }

  predicate WriterNow(pc: Pc) {
    pc == Writing || pc == Unlock(WriteAcquire, true) || pc == Spin(WriteRelease) || pc == Test(WriteRelease)
    || (pc.Store? && pc.op == WriteRelease) || pc == Unlock(WriteRelease, false)
  }

  function Readers(s: State): set<nat> { set t | t in s.pcs && ReaderNow(s.pcs[t]) }

  function Writers(s: State): set<nat> { set t | t in s.pcs && WriterNow(s.pcs[t]) }

  function Holders(s: State): set<nat> { set t | t in s.pcs && InLock(s.pcs[t]) }

  /** A value about to be stored is the one the current cnt calls for. */
  ghost predicate PcOk(s: State, t: nat)
    requires t in s.pcs
  {
    var pc := s.pcs[t];
    && pc != Panicked
    && (pc.Store? ==> AfterTest(pc.op, s.cnt) == pc)
    && (pc.Unlock? && !pc.done ==> pc.op == ReadAcquire || pc.op == WriteAcquire)
  }

  ghost predicate AtMostOne(S: set<nat>) { forall t, u {:trigger t in S, u in S} :: t in S && u in S ==> t == u }

  /** cnt is -1 for one writer and no readers, and the number of readers otherwise. */
  ghost predicate CountOk(cnt: int, readers: set<nat>, writers: set<nat>, threads: nat) {
    && threads <= I32_MAX && AtMostOne(writers) && (writers != {} ==> readers == {})
    && cnt == if writers != {} then -1 else |readers|
  }

  ghost predicate Inv(s: State) {
    && (s.flag <==> Holders(s) != {}) && AtMostOne(Holders(s))
    && (forall t {:trigger PcOk(s, t)} :: t in s.pcs ==> PcOk(s, t))
    && CountOk(s.cnt, Readers(s), Writers(s), |s.pcs|)
  }

  // ---------------------------------------------------------------- every step keeps the invariant

  lemma {:induction false} SubsetSize(a: set<nat>, b: set<nat>)
    requires a <= b
    ensures |a| <= |b|
  {
    assert b == a + (b - a);
  }

  /** S after t's membership becomes b. */
  function Marked(S: set<nat>, t: nat, b: bool): set<nat> { if b then S + {t} else S - {t} }

  /** Only t's own membership can change when t moves. */
  lemma Moves(s: State, t: nat, pc: Pc, flag: bool, cnt: int)
    requires t in s.pcs
    ensures var s' := State(flag, cnt, s.pcs[t := pc]);
            && Readers(s') == Marked(Readers(s), t, ReaderNow(pc)) && Writers(s') == Marked(Writers(s), t, WriterNow(pc))
            && Holders(s') == Marked(Holders(s), t, InLock(pc)) && s'.pcs.Keys == s.pcs.Keys && |s'.pcs| == |s.pcs|
  {
    var s' := State(flag, cnt, s.pcs[t := pc]);
    assert s'.pcs.Keys == s.pcs.Keys;
    assert |s'.pcs.Keys| == |s'.pcs| && |s.pcs.Keys| == |s.pcs|;
  }

  lemma Roles(s: State, t: nat)
    requires t in s.pcs
    ensures (t in Readers(s) <==> ReaderNow(s.pcs[t])) && (t in Writers(s) <==> WriterNow(s.pcs[t])) && (t in Holders(s) <==> InLock(s.pcs[t]))
  {
  }

  /** A step that leaves cnt and t's role alone. */
  lemma RoleKept(s: State, t: nat, pc: Pc, flag: bool)
    requires Inv(s) && t in s.pcs && ReaderNow(pc) == ReaderNow(s.pcs[t]) && WriterNow(pc) == WriterNow(s.pcs[t])
    requires var s' := State(flag, s.cnt, s.pcs[t := pc]);
             PcOk(s', t) && (flag <==> Holders(s') != {}) && AtMostOne(Holders(s'))
    ensures Inv(State(flag, s.cnt, s.pcs[t := pc]))
  {
    hide ReaderNow, WriterNow, InLock, AfterTest, Readers, Writers, Holders, CountOk, AtMostOne;
    var s' := State(flag, s.cnt, s.pcs[t := pc]);
    Moves(s, t, pc, flag, s.cnt);
    Roles(s, t);
    assert Marked(Readers(s), t, ReaderNow(pc)) == Readers(s);
    assert Marked(Writers(s), t, WriterNow(pc)) == Writers(s);
    forall u | u in s'.pcs ensures PcOk(s', u) { if u != t { assert PcOk(s, u); } }
  }

  lemma StepOutside(s: State, t: nat, choice: Op)
    requires Inv(s) && t in s.pcs && !InLock(s.pcs[t])
    ensures Inv(Next(s, t, choice))
  {
    hide Readers, Writers, Holders, AfterTest, CountOk;
    assert PcOk(s, t);
    var s' := Next(s, t, choice);
    if s' != s {
      var pc := s'.pcs[t];
      Moves(s, t, pc, s'.flag, s.cnt);
      Roles(s, t);
      assert if pc.Test? then Holders(s) == {} && Holders(s') == {t} else Holders(s') == Holders(s);
      RoleKept(s, t, pc, s'.flag);
    }
  }

  /** The holder's test never finds a count it would panic on. */
  lemma StepTest(s: State, t: nat, choice: Op)
    requires Inv(s) && t in s.pcs && s.pcs[t].Test?
    ensures Inv(Next(s, t, choice))
  {
    hide Readers, Writers, Holders;
    var op := s.pcs[t].op;
    var pc := AfterTest(op, s.cnt);
    Moves(s, t, pc, s.flag, s.cnt);
    Roles(s, t);
    assert Holders(Next(s, t, choice)) == Holders(s);
    RoleKept(s, t, pc, s.flag);
  }

  lemma StepUnlock(s: State, t: nat, choice: Op)
    requires Inv(s) && t in s.pcs && s.pcs[t].Unlock?
    ensures Inv(Next(s, t, choice))
  {
    hide Readers, Writers, Holders, CountOk;
    assert PcOk(s, t);
    var pc := AfterUnlock(s.pcs[t].op, s.pcs[t].done);
    var s' := Next(s, t, choice);
    Moves(s, t, pc, false, s.cnt);
    Roles(s, t);
    assert Holders(s') == {};
    RoleKept(s, t, pc, false);
  }

  /** Storing what the test decided on moves t between the roles the count stands for. */
  lemma StoreCounts(op: Op, cnt: int, R: set<nat>, W: set<nat>, t: nat, threads: set<nat>)
    requires CountOk(cnt, R, W, |threads|) && R <= threads && t in threads
    requires t in R <==> op == ReadRelease
    requires t in W <==> op == WriteRelease
    requires AfterTest(op, cnt).Store?
    ensures CountOk(AfterTest(op, cnt).value, Marked(R, t, op == ReadAcquire), Marked(W, t, op == WriteAcquire), |threads|)
  {
    SubsetSize(R + {t}, threads);
    match op
    case ReadAcquire =>
      assert W - {t} == {};
    case ReadRelease =>
      assert W - {t} == {};
    case WriteAcquire =>
      assert R == {} && R - {t} == {};
      assert W + {t} == {t};
    case WriteRelease =>
      assert W - {t} == {} && R - {t} == {};
  }

  /** The one step that changes cnt. */
  lemma StepStore(s: State, t: nat, choice: Op)
    requires Inv(s) && t in s.pcs && s.pcs[t].Store?
    ensures Inv(Next(s, t, choice))
  {
    hide Readers, Writers, Holders, CountOk;
    assert PcOk(s, t);
    var op, v := s.pcs[t].op, s.pcs[t].value;
    var s' := Next(s, t, choice);
    Moves(s, t, Unlock(op, true), s.flag, v);
    Roles(s, t);
    assert Holders(s') == Holders(s);
    forall u | u in s'.pcs ensures PcOk(s', u) {
      if u != t {
        assert PcOk(s, u);
        Roles(s, u);
      }
    }
    ReadersAreThreads(s);
    assert |s.pcs.Keys| == |s.pcs|;
    StoreCounts(op, s.cnt, Readers(s), Writers(s), t, s.pcs.Keys);
  }

  lemma ReadersAreThreads(s: State)
    ensures Readers(s) <= s.pcs.Keys
  {
  }

  lemma StepKeepsInv(s: State, t: nat, choice: Op)
    requires Inv(s) && t in s.pcs
    ensures Inv(Next(s, t, choice))
  {
    match s.pcs[t]
    case Test(_) => StepTest(s, t, choice);
    case Store(_, _) => StepStore(s, t, choice);
    case Unlock(_, _) => StepUnlock(s, t, choice);
    case _ => StepOutside(s, t, choice);
  }

  // ---------------------------------------------------------------- runs

  /** A schedule: which thread moves, and what it would start if idle. */
  type Schedule = seq<(nat, Op)>

  ghost function Run(s: State, moves: Schedule): State
    decreases |moves|
  {
    if moves == [] then s
    else
      var (t, op) := moves[0];
      Run(if t in s.pcs then Next(s, t, op) else s, moves[1..])
  }

  ghost predicate Start(s: State) {
    !s.flag && s.cnt == 0 && |s.pcs| <= I32_MAX && forall t {:trigger s.pcs[t]} :: t in s.pcs ==> s.pcs[t] == Idle
  }

  lemma StartInv(s: State)
    requires Start(s)
    ensures Inv(s)
  {
    assert Holders(s) == {} && Readers(s) == {} && Writers(s) == {};
    assert |Readers(s)| == 0;
    forall t | t in s.pcs ensures PcOk(s, t) { assert s.pcs[t] == Idle; }
  }

  lemma {:induction false} RunKeepsInv(s: State, moves: Schedule)
    requires Inv(s)
    ensures Inv(Run(s, moves))
    decreases |moves|
  {
    if moves != [] {
      var (t, op) := moves[0];
      if t in s.pcs { StepKeepsInv(s, t, op); }
      RunKeepsInv(if t in s.pcs then Next(s, t, op) else s, moves[1..]);
    }
  }

  /**
   * However fewer than 2^31 threads interleave: cnt is the number of readers, or -1 with one writer and no reader; a
   * writer excludes everyone else; and no thread ever reaches either panic.
   */
  lemma ReadersWriterExclusion(s: State, moves: Schedule, t: nat, u: nat)
    requires Start(s)
    ensures var e := Run(s, moves);
            && (e.cnt == -1 <==> Writers(e) != {}) && (Writers(e) == {} ==> e.cnt == |Readers(e)|)
            && AtMostOne(Writers(e)) && (Writers(e) != {} ==> Readers(e) == {})
            && (t in e.pcs ==> e.pcs[t] != Panicked)
            && (t in e.pcs && u in e.pcs && t != u && e.pcs[t] == Writing ==> e.pcs[u] != Writing && e.pcs[u] != Reading)
  {
    StartInv(s);
    RunKeepsInv(s, moves);
    var e := Run(s, moves);
    assert t in e.pcs ==> PcOk(e, t);
    if t in e.pcs && u in e.pcs {
      Roles(e, t);
      Roles(e, u);
    }
  }

  // ---------------------------------------------------------------- who is admitted

  lemma {:induction false} RunOn(s: State, a: Schedule, b: Schedule)
    ensures Run(s, a + b) == Run(Run(s, a), b)
    decreases |a|
  {
    if a == [] {
      assert a + b == b;
    } else {
      assert (a + b)[0] == a[0] && (a + b)[1..] == a[1..] + b;
      RunOn(if a[0].0 in s.pcs then Next(s, a[0].0, a[0].1) else s, a[1..], b);
    }
  }

  lemma RunOne(s: State, t: nat, op: Op)
    requires t in s.pcs
    ensures Run(s, [(t, op)]) == Next(s, t, op)
  {
    assert [(t, op)][1..] == [];
  }

  /** One attempt by an idle thread that gets the flag at once, up to where it holds the lock or tries again. */
  lemma Attempt(s: State, t: nat, op: Op) returns (moves: Schedule)
    requires t in s.pcs && s.pcs[t] == Idle && !s.flag && (op == ReadAcquire || op == WriteAcquire)
    ensures var pc := AfterTest(op, s.cnt);
            Run(s, moves) == if pc.Store? then State(false, pc.value, s.pcs[t := if op == ReadAcquire then Reading else Writing])
                             else s.(pcs := s.pcs[t := Spin(op)])
  {
    hide Run;
    var m: Schedule := [(t, op)];
    var s1 := Next(s, t, op);
    var s2 := Next(s1, t, op);
    var s3 := Next(s2, t, op);
    var s4 := Next(s3, t, op);
    RunOne(s, t, op);
    RunOne(s1, t, op);
    RunOne(s2, t, op);
    RunOne(s3, t, op);
    RunOne(s4, t, op);
    RunOn(s, m, m);
    RunOn(s, m + m, m);
    RunOn(s, m + m + m, m);
    RunOn(s, m + m + m + m, m);
    if AfterTest(op, s.cnt).Store? {
      moves := m + m + m + m + m;
      assert Next(s4, t, op).pcs == s.pcs[t := if op == ReadAcquire then Reading else Writing];
    } else {
      moves := m + m + m + m;
      assert s4.pcs == s.pcs[t := Spin(op)];
    }
  }

  /** In every reachable state with the flag free, a thread that attempts to read is admitted beside all readers, unless there is a writer. */
  lemma ReaderAdmitted(start: State, before: Schedule, t: nat) returns (moves: Schedule)
    requires Start(start) && t in Run(start, before).pcs && Run(start, before).pcs[t] == Idle && !Run(start, before).flag
    ensures var s := Run(start, before);
            Run(s, moves) == if Writers(s) == {} then State(false, |Readers(s)| + 1, s.pcs[t := Reading]) else s.(pcs := s.pcs[t := Spin(ReadAcquire)])
  {
    hide Run, Readers, Writers, Holders;
    StartInv(start);
    RunKeepsInv(start, before);
    var s := Run(start, before);
    moves := Attempt(s, t, ReadAcquire);
    Roles(s, t);
    ReadersAreThreads(s);
    assert |s.pcs.Keys| == |s.pcs|;
    SubsetSize(Readers(s) + {t}, s.pcs.Keys);
  }

  /** One that attempts to write is admitted exactly when there is neither reader nor writer. */
  lemma WriterAdmitted(start: State, before: Schedule, t: nat) returns (moves: Schedule)
    requires Start(start) && t in Run(start, before).pcs && Run(start, before).pcs[t] == Idle && !Run(start, before).flag
    ensures var s := Run(start, before);
            Run(s, moves) == if Writers(s) == {} && Readers(s) == {} then State(false, -1, s.pcs[t := Writing]) else s.(pcs := s.pcs[t := Spin(WriteAcquire)])
  {
    hide Run, Readers, Writers, Holders;
    StartInv(start);
    RunKeepsInv(start, before);
    var s := Run(start, before);
    moves := Attempt(s, t, WriteAcquire);
  }
}
