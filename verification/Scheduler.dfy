/** The round-robin scheduler: the walk over the task list, forced wakeups, the interval timer and the retry after a kill. */
module Scheduler {
  import opened Octets

  datatype TaskState =
    | Dead | Ready | Idle | WaitingInput | Created | WaitingChild | WaitingChildSpecific | WaitingVfork | Blocked | SigKilled | Futex | Dummy

  const SIGALRM := 14

  /** A time of 0 means none is set; involuntary is the extras flag, userMode the test on the saved code segment. */
  datatype Task = Task(state: TaskState, involuntary: bool, wakeAt: nat, kernel: bool, userMode: bool, queueEntry: Option<nat>,
                       timerAt: nat, timerReset: nat, pending: set<nat>, mask: set<nat>)

  /** The signal code the scheduler calls, and the tick count: any functions keeping the promises of EnvOk. */
  datatype Env = Env(ticks: nat, revivable: TaskState -> bool, pendingQuick: (set<nat>, set<nat>) -> bool, handle: Task -> Task)

  /** A killed task cannot be revived by a signal; handling signals may kill the task but leaves its wakeup time and lock. */
  ghost predicate EnvOk(env: Env) {
    && !env.revivable(SigKilled)
    && forall t {:trigger env.handle(t)} ::
         var h := env.handle(t);
         && (h.state == t.state || h.state == SigKilled)
         && h.wakeAt == t.wakeAt && h.queueEntry == t.queueEntry && h.kernel == t.kernel
  }

  predicate Due(env: Env, t: Task) { t.wakeAt != 0 && t.wakeAt <= env.ticks }

  predicate Signalled(env: Env, t: Task) { env.revivable(t.state) && env.pendingQuick(t.pending, t.mask) }

  /** Ready, or to be made ready by the walk. */
  predicate Qualifies(env: Env, t: Task) { t.state == Ready || Signalled(env, t) || Due(env, t) }

  function Awakened(t: Task): Task { if t.state == Ready then t else t.(state := Ready, involuntary := true, wakeAt := 0) }

  /** Raise SIGALRM and rearm when the interval timer has run out. */
  function Alarmed(ticks: nat, t: Task): Task {
    if t.kernel || t.timerAt == 0 || t.timerAt > ticks then t
    else t.(pending := t.pending + {SIGALRM}, timerAt := if t.timerReset == 0 then 0 else ticks + t.timerReset)
  }

  /** The task after its timer was looked at once at each of these tick counts. */
  function AlarmRun(ticks: seq<nat>, t: Task): Task {
    if ticks == [] then t else Alarmed(ticks[|ticks| - 1], AlarmRun(ticks[..|ticks| - 1], t))
  }

  /** A user task with a timer set whose time has come. */
  predicate TimerDue(ticks: nat, t: Task) { !t.kernel && t.timerAt != 0 && t.timerAt <= ticks }

  /** The timer was due at the i-th look. */
  predicate Fires(ticks: seq<nat>, t: Task, i: nat)
    requires i < |ticks|
  {
    TimerDue(ticks[i], AlarmRun(ticks[..i], t))
  }

  /** Each look at which the timer was due makes signal 14 pending, and no other look changes what is pending. */
  lemma PendingAfter(ticks: seq<nat>, t: Task, i: nat)
    requires i < |ticks|
    ensures AlarmRun(ticks[..i + 1], t).pending == AlarmRun(ticks[..i], t).pending + (if Fires(ticks, t, i) then {14} else {})
  {
    assert ticks[..i + 1][..i] == ticks[..i];
  }

  /** So after a run signal 14 is pending if it was or if the timer was ever due, and only timer and pending signals changed. */
  lemma {:induction false} PendingRun(ticks: seq<nat>, t: Task)
    ensures 14 in AlarmRun(ticks, t).pending <==> 14 in t.pending || exists i {:trigger Fires(ticks, t, i)} :: 0 <= i < |ticks| && Fires(ticks, t, i)
    ensures AlarmRun(ticks, t).pending - {14} == t.pending - {14}
    ensures var u := AlarmRun(ticks, t); u == t.(pending := u.pending, timerAt := u.timerAt)
  {
    if ticks != [] {
      var n := |ticks| - 1;
      var front := ticks[..n];
      PendingRun(front, t);
      PendingAfter(ticks, t, n);
      assert ticks[..n + 1] == ticks;
      forall i | 0 <= i < n ensures Fires(ticks, t, i) <==> Fires(front, t, i) { assert front[..i] == ticks[..i]; }
    }
  }

  /** The first look at which the timer is due is the first one at or after the time it was set for. */
  lemma {:induction false} AlarmFirst(ticks: seq<nat>, t: Task, j: nat)
    requires j < |ticks| && forall k {:trigger Fires(ticks, t, k)} :: 0 <= k < j ==> !Fires(ticks, t, k)
    ensures AlarmRun(ticks[..j], t) == t && (Fires(ticks, t, j) <==> !t.kernel && t.timerAt != 0 && t.timerAt <= ticks[j])
  {
    if j > 0 {
      AlarmFirst(ticks, t, j - 1);
      assert ticks[..j][..j - 1] == ticks[..j - 1];
      assert !Fires(ticks, t, j - 1);
    }
  }

  /**
   * The interval timer fires once per expiry: after a look that fired, the next to fire is the first one at least
   * reset ticks later, and there is none if no reset is set.
   */
  lemma AlarmsApart(ticks: seq<nat>, t: Task, i: nat, j: nat)
    requires i < j < |ticks| && Fires(ticks, t, i) && forall k {:trigger Fires(ticks, t, k)} :: i < k < j ==> !Fires(ticks, t, k)
    ensures Fires(ticks, t, j) <==> t.timerReset != 0 && ticks[j] >= ticks[i] + t.timerReset
  {
    Rearmed(ticks, t, i, j);
  }

  lemma {:induction false} Rearmed(ticks: seq<nat>, t: Task, i: nat, j: nat)
    requires i < j < |ticks| && Fires(ticks, t, i) && forall k {:trigger Fires(ticks, t, k)} :: i < k < j ==> !Fires(ticks, t, k)
    ensures var u := AlarmRun(ticks[..j], t); !u.kernel && u.timerAt == (if t.timerReset == 0 then 0 else ticks[i] + t.timerReset)
  {
    assert ticks[..j][..j - 1] == ticks[..j - 1] && ticks[..j][j - 1] == ticks[j - 1];
    TimerKept(ticks[..j - 1], t);
    if i + 1 < j {
      Rearmed(ticks, t, i, j - 1);
      assert !Fires(ticks, t, j - 1);
    }
  }

  lemma {:induction false} TimerKept(ticks: seq<nat>, t: Task)
    ensures AlarmRun(ticks, t).timerReset == t.timerReset && AlarmRun(ticks, t).kernel == t.kernel
  {
    if ticks != [] { TimerKept(ticks[..|ticks| - 1], t); }
  }

  /** What the walk hands on of task t: as it was if ready, otherwise made ready, marked as forced and with no wakeup time left. */
  predicate Woken(t: Task, w: Task) {
    && w.state == Ready && w == t.(state := Ready, involuntary := w.involuntary, wakeAt := w.wakeAt)
    && if t.state == Ready then w.involuntary == t.involuntary && w.wakeAt == t.wakeAt else w.involuntary && w.wakeAt == 0
  }

  /** What the timer leaves of task t: signal 14 pending and the timer set anew, or cleared, exactly if it was due. */
  predicate Handed(ticks: nat, t: Task, h: Task) {
    && h == t.(pending := h.pending, timerAt := h.timerAt)
    && h.pending == t.pending + (if TimerDue(ticks, t) then {14} else {})
    && h.timerAt == if !TimerDue(ticks, t) then t.timerAt else if t.timerReset == 0 then 0 else ticks + t.timerReset
  }

  /** The timer, then the signals, of a task about to run. */
  function Acted(env: Env, t: Task): Task {
    var a := Alarmed(env.ticks, t);
    if !a.kernel && a.userMode then env.handle(a) else a
  }

  /** How far round the list j lies behind i: the next task is 1 away, i itself n. */
  function Ahead(n: nat, i: nat, j: nat): int { if j > i then j - i else j - i + n }

  // ---------------------------------------------------------------- what one call may do

  /** Tasks that qualified and come before the chosen one were killed on the way. */
  ghost predicate Passed(env: Env, before: seq<Task>, after: seq<Task>, cur: nat, next: nat, j: nat)
    requires j < |before| == |after|
  {
    Qualifies(env, before[j]) && Ahead(|before|, cur, j) < Ahead(|before|, cur, next) ==> after[j].state == SigKilled
  }

  /** The chosen task was awakened and acted on, and apart from its lock entry nothing else happened to it. */
  ghost predicate Readied(env: Env, before: Task, after: Task) {
    after == Acted(env, Awakened(before).(queueEntry := after.queueEntry))
  }

  /** What that means for a task that qualified: woken, then past its timer, then through its signals if it was in user mode. */
  lemma ReadiedMeans(env: Env, before: Task, after: Task) returns (woken: Task, handed: Task)
    requires Readied(env, before, after) && Qualifies(env, before)
    ensures Woken(before, woken) && Handed(env.ticks, woken.(queueEntry := after.queueEntry), handed)
    ensures after == if !handed.kernel && handed.userMode then env.handle(handed) else handed
  {
    woken := Awakened(before);
    handed := Alarmed(env.ticks, woken.(queueEntry := after.queueEntry));
  }

  /** Ready and due, with lock entry q when its turn came: acted on and killed, then woken by its time and acted on again. */
  ghost predicate KilledThenReadied(env: Env, before: Task, after: Task, q: Option<nat>) {
    var killed := Acted(env, before.(queueEntry := q));
    before.state == Ready && Due(env, before) && killed.state == SigKilled && Readied(env, killed, after)
  }

  /**
   * The chosen task was readied once, or was readied, killed, woken by its time and readied again;
   * every other task is as it was, or was chosen and killed; only the previous task may lose its lock entry.
   */
  ghost predicate Spared(env: Env, before: seq<Task>, after: seq<Task>, cur: nat, next: nat, j: nat)
    requires j < |before| == |after|
  {
    || (j == next && Readied(env, before[j], after[j]))
    || (j == next && exists q {:trigger KilledThenReadied(env, before[j], after[j], q)} :: KilledThenReadied(env, before[j], after[j], q))
    || (after[j].state == SigKilled && Qualifies(env, before[j]))
    || after[j] == before[j].(queueEntry := if j == cur then after[j].queueEntry else before[j].queueEntry)
  }

  /** The choice: the first qualifying task round the list that survives, or the dummy task if there is none. */
  ghost predicate Chosen(env: Env, before: seq<Task>, after: seq<Task>, cur: nat, dummy: nat, next: nat) {
    && |before| == |after| && cur < |before| && next < |before|
    && (forall j {:trigger Spared(env, before, after, cur, next, j)} :: 0 <= j < |before| ==> Spared(env, before, after, cur, next, j))
    && (if Qualifies(env, before[next]) && after[next].state == Ready
        then forall j {:trigger Passed(env, before, after, cur, next, j)} :: 0 <= j < |before| ==> Passed(env, before, after, cur, next, j)
        else next == dummy && forall j {:trigger before[j]} :: 0 <= j < |before| && Qualifies(env, before[j]) ==> after[j].state == SigKilled)
  }

  // ---------------------------------------------------------------- the retries end

  function Weight(env: Env, t: Task): nat {
    (if t.state == Ready || Signalled(env, t) then 1 else 0) + if Due(env, t) then 2 else 0
  }

  function Total(env: Env, ts: seq<Task>): nat { if ts == [] then 0 else Weight(env, ts[0]) + Total(env, ts[1..]) }

  lemma {:induction false} TotalUpdate(env: Env, ts: seq<Task>, i: nat, t: Task)
    requires i < |ts|
    ensures Total(env, ts[i := t]) == Total(env, ts) - Weight(env, ts[i]) + Weight(env, t)
  {
    if i == 0 {
      assert ts[0 := t][1..] == ts[1..];
    } else {
      assert ts[i := t][1..] == ts[1..][i - 1 := t];
      TotalUpdate(env, ts[1..], i - 1, t);
    }
  }

  lemma KillLightens(env: Env, t: Task, killed: Task)
    requires EnvOk(env) && Qualifies(env, t) && killed.state == SigKilled && killed.wakeAt == Awakened(t).wakeAt
    ensures Weight(env, killed) < Weight(env, t)
  {
  }

  /** The walk alone: the first qualifying task round the list, awake, or the dummy task if none qualifies. */
  ghost predicate Walked(env: Env, before: seq<Task>, after: seq<Task>, cur: nat, dummy: nat, next: nat) {
    && |after| == |before| && next < |before|
    && if Qualifies(env, before[next]) then
         && after == before[next := Awakened(before[next])]
         && forall j {:trigger before[j]} :: 0 <= j < |before| && Qualifies(env, before[j]) ==> Ahead(|before|, cur, next) <= Ahead(|before|, cur, j)
       else
         && next == dummy && after == before
         && forall j {:trigger before[j]} :: 0 <= j < |before| ==> !Qualifies(env, before[j])
  }

  /** After the walk only the chosen task and the previous task's lock entry change. */
  ghost predicate Settled(env: Env, walked: seq<Task>, fin: seq<Task>, cur: nat, next: nat) {
    && |fin| == |walked| && cur < |fin| && next < |fin| && fin[next] == Acted(env, walked[next].(queueEntry := fin[next].queueEntry))
    && fin[next].wakeAt == walked[next].wakeAt && (next != cur ==> fin[next].queueEntry == walked[next].queueEntry)
    && (fin[next].state == walked[next].state || (fin[next].state == SigKilled && !walked[next].kernel))
    && forall j {:trigger fin[j]} :: 0 <= j < |fin| && j != next ==>
         fin[j] == walked[j].(queueEntry := if j == cur then fin[j].queueEntry else walked[j].queueEntry)
  }

  lemma WalkThenSettle(env: Env, before: seq<Task>, walked: seq<Task>, fin: seq<Task>, cur: nat, dummy: nat, next: nat)
    requires Walked(env, before, walked, cur, dummy, next) && Settled(env, walked, fin, cur, next) && dummy < |before| && before[dummy].kernel
    ensures if fin[next].state == SigKilled && Qualifies(env, before[next]) then Struck(env, before, fin, cur, next)
            else Chosen(env, before, fin, cur, dummy, next)
  {
    forall j: nat | j < |before| ensures Spared(env, before, fin, cur, next, j) && (Qualifies(env, before[next]) ==> Passed(env, before, fin, cur, next, j)) {
      assert fin[j] == fin[j] && before[j] == before[j];
    }
  }

  /** The list after the task at p was picked and killed by its signals. */
  ghost predicate Struck(env: Env, before: seq<Task>, mid: seq<Task>, cur: nat, p: nat) {
    && |mid| == |before| && cur < |before| && p < |before|
    && Qualifies(env, before[p]) && mid[p].state == SigKilled && mid[p].wakeAt == Awakened(before[p]).wakeAt
    && Readied(env, before[p], mid[p])
    && forall j {:trigger mid[j]} :: 0 <= j < |mid| && j != p ==>
         mid[j] == before[j].(queueEntry := if j == cur then mid[j].queueEntry else before[j].queueEntry)
  }

  lemma {:induction false} TotalSame(env: Env, a: seq<Task>, b: seq<Task>)
    requires |a| == |b| && forall j {:trigger b[j]} :: 0 <= j < |a| ==> b[j] == a[j].(queueEntry := b[j].queueEntry)
    ensures Total(env, a) == Total(env, b)
  {
    if a != [] {
      forall j | 0 <= j < |a[1..]| ensures b[1..][j] == a[1..][j].(queueEntry := b[1..][j].queueEntry) {
        assert b[1..][j] == b[j + 1] && a[1..][j] == a[j + 1];
      }
      TotalSame(env, a[1..], b[1..]);
      assert b[0] == a[0].(queueEntry := b[0].queueEntry);
    }
  }

  lemma StruckLightens(env: Env, before: seq<Task>, mid: seq<Task>, cur: nat, p: nat)
    requires EnvOk(env) && Struck(env, before, mid, cur, p)
    ensures Total(env, mid) < Total(env, before)
  {
    var b := before[p := mid[p]];
    TotalUpdate(env, before, p, mid[p]);
    KillLightens(env, before[p], mid[p]);
    TotalSame(env, b, mid);
  }

  lemma SparedAcross(env: Env, before: seq<Task>, mid: seq<Task>, after: seq<Task>, cur: nat, dummy: nat, p: nat, next: nat, j: nat)
    requires EnvOk(env) && Struck(env, before, mid, cur, p) && Chosen(env, mid, after, cur, dummy, next) && p != dummy && j < |before|
    ensures Spared(env, before, after, cur, next, j) && (Qualifies(env, before[j]) ==> j == p || Qualifies(env, mid[j]))
    ensures j == p && j != next ==> after[j].state == SigKilled
  {
    assert Spared(env, mid, after, cur, next, j);
    assert mid[j] == mid[j];
    if j == p == next {
      assert KilledThenReadied(env, before[j], after[j], mid[j].queueEntry);
    } else if j == next && !Readied(env, mid[j], after[j]) && exists q :: KilledThenReadied(env, mid[j], after[j], q) {
      var q :| KilledThenReadied(env, mid[j], after[j], q);
      assert KilledThenReadied(env, before[j], after[j], q);
    }
  }

  /** A call that retries after a kill still makes the right choice for the list it started from. */
  lemma ChosenAcross(env: Env, before: seq<Task>, mid: seq<Task>, after: seq<Task>, cur: nat, dummy: nat, p: nat, next: nat)
    requires EnvOk(env) && Struck(env, before, mid, cur, p) && Chosen(env, mid, after, cur, dummy, next) && p != dummy
    ensures Chosen(env, before, after, cur, dummy, next)
  {
    hide Spared, Qualifies, Ahead;
    forall j: nat | j < |before|
      ensures Spared(env, before, after, cur, next, j) && (Qualifies(env, before[j]) ==> j == p || Qualifies(env, mid[j]))
    {
      SparedAcross(env, before, mid, after, cur, dummy, p, next, j);
    }
    NextAcross(env, before, mid, cur, p, next);
    if p != next { SparedAcross(env, before, mid, after, cur, dummy, p, next, p); }
    if Qualifies(env, mid[next]) && after[next].state == Ready {
      forall j: nat | j < |before| ensures Passed(env, before, after, cur, next, j) { assert Passed(env, mid, after, cur, next, j); }
    } else {
      forall j: nat | j < |before| && Qualifies(env, before[j]) ensures after[j].state == SigKilled { assert mid[j] == mid[j]; }
    }
  }

  lemma NextAcross(env: Env, before: seq<Task>, mid: seq<Task>, cur: nat, p: nat, next: nat)
    requires Struck(env, before, mid, cur, p) && next < |before|
    ensures Qualifies(env, mid[next]) ==> Qualifies(env, before[next])
    ensures p != next ==> (Qualifies(env, mid[next]) <==> Qualifies(env, before[next]))
  {
  }

  lemma WalkShape(env: Env, before: seq<Task>, walked: seq<Task>, cur: nat, dummy: nat, next: nat)
    requires Walked(env, before, walked, cur, dummy, next) && dummy < |before| && before[dummy].kernel
    ensures |walked| == |before| && next < |before| && walked[dummy].kernel
    ensures !walked[next].kernel ==> Qualifies(env, before[next]) && walked[next].state == Ready
    ensures forall j {:trigger walked[j]} :: 0 <= j < |before| ==> walked[j].queueEntry == before[j].queueEntry
    ensures walked[next].state == SigKilled ==> !Qualifies(env, before[next])
  {
  }

  /** The lock entry of the task being switched away from: released and cleared unless the task is ready. */
  ghost predicate LockOk(before: Task, after: Task, held: set<nat>, held': set<nat>) {
    || (after.queueEntry == before.queueEntry && held' == held && (after.state == Ready || before.queueEntry == None))
    || (before.queueEntry.Some? && after.queueEntry == None && held' == held - {before.queueEntry.value})
  }

  lemma SettledShape(env: Env, walked: seq<Task>, fin: seq<Task>, cur: nat, dummy: nat, next: nat)
    requires Settled(env, walked, fin, cur, next) && dummy < |walked| && walked[dummy].kernel && fin[next].kernel == walked[next].kernel
    ensures |fin| == |walked| && next < |fin| && fin[dummy].kernel
    ensures fin[next].kernel && fin[next].state == SigKilled ==> walked[next].state == SigKilled
  {
    assert fin[dummy] == fin[dummy];
  }

  lemma ChosenShape(env: Env, before: seq<Task>, after: seq<Task>, cur: nat, dummy: nat, next: nat)
    requires Chosen(env, before, after, cur, dummy, next)
    ensures |after| == |before| && next < |after|
  {
  }

  lemma SameLock(t: Task, u: Task, after: Task, held: set<nat>, held': set<nat>)
    requires t.queueEntry == u.queueEntry && LockOk(u, after, held, held')
    ensures LockOk(t, after, held, held')
  {
  }

  lemma LockAgain(t: Task, u: Task, w: Task, held: set<nat>, held1: set<nat>, held2: set<nat>)
    requires LockOk(t, u, held, held1) && LockOk(u, w, held1, held2)
    ensures LockOk(t, w, held, held2)
  {
  }

  // ---------------------------------------------------------------- fairness

  /** One completed call: the list before and after, the task that ran and the one chosen. */
  datatype Call = Call(env: Env, before: seq<Task>, after: seq<Task>, cur: nat, next: nat)

  /** Calls in a row; in between anything may happen to the tasks, but the list and the running task stay. */
  ghost predicate Calls(calls: seq<Call>, n: nat, dummy: nat) {
    && (forall i {:trigger calls[i]} :: 0 <= i < |calls| ==>
          |calls[i].before| == n && Chosen(calls[i].env, calls[i].before, calls[i].after, calls[i].cur, dummy, calls[i].next))
    && forall i {:trigger calls[i].next} :: 0 <= i < |calls| - 1 ==> calls[i + 1].cur == calls[i].next
  }

  /** Task j is ready at every call and no signal kills it. */
  ghost predicate StaysReady(calls: seq<Call>, n: nat, j: nat) {
    forall i {:trigger calls[i]} :: 0 <= i < |calls| && |calls[i].before| == n == |calls[i].after| && j < n ==>
      calls[i].before[j].state == Ready && calls[i].after[j].state != SigKilled
  }

  /** Each call that does not choose a ready task brings the walk strictly closer to it. */
  lemma GetsCloser(env: Env, before: seq<Task>, after: seq<Task>, cur: nat, dummy: nat, next: nat, j: nat)
    requires Chosen(env, before, after, cur, dummy, next) && j < |before| && before[j].state == Ready && after[j].state != SigKilled
    ensures next == j || Ahead(|before|, next, j) < Ahead(|before|, cur, j)
  {
    assert before[j] == before[j];
    assert Qualifies(env, before[next]) && after[next].state == Ready ==> Passed(env, before, after, cur, next, j);
  }

  lemma {:induction false} NearerEachTime(calls: seq<Call>, n: nat, dummy: nat, j: nat, k: nat)
    requires Calls(calls, n, dummy) && StaysReady(calls, n, j) && j < n && k < |calls|
    requires forall i {:trigger calls[i]} :: 0 <= i < k ==> calls[i].next != j
    ensures Ahead(n, calls[k].cur, j) <= Ahead(n, calls[0].cur, j) - k
  {
    if k > 0 {
      NearerEachTime(calls, n, dummy, j, k - 1);
      var c := calls[k - 1];
      GetsCloser(c.env, c.before, c.after, c.cur, dummy, c.next, j);
      assert calls[k].cur == c.next;
    }
  }

  /** A task that stays ready is chosen within as many calls as it lies ahead in the list, so at most n. */
  lemma Fairness(calls: seq<Call>, n: nat, dummy: nat, j: nat)
    requires Calls(calls, n, dummy) && StaysReady(calls, n, j) && j < n && |calls| > 0 && |calls| >= Ahead(n, calls[0].cur, j)
    ensures 1 <= Ahead(n, calls[0].cur, j) <= n
    ensures exists i {:trigger calls[i]} :: 0 <= i < Ahead(n, calls[0].cur, j) && calls[i].next == j
  {
    var m := Ahead(n, calls[0].cur, j);
    assert calls[0] == calls[0];
    if forall i {:trigger calls[i]} :: 0 <= i < m ==> calls[i].next != j {
      NearerEachTime(calls, n, dummy, j, m - 1);
      var c := calls[m - 1];
      GetsCloser(c.env, c.before, c.after, c.cur, dummy, c.next, j);
    }
  }

  // ---------------------------------------------------------------- a kill that does not last

  /** A killed task can be picked again exactly when its forced wakeup is due: the walk does not look at the state it wakes. */
  lemma KilledComesBack(env: Env, t: Task)
    requires EnvOk(env) && t.state == SigKilled
    ensures Qualifies(env, t) <==> t.wakeAt != 0 && t.wakeAt <= env.ticks
    ensures Qualifies(env, t) ==> Awakened(t).state == Ready
  {
  }

  /** So one call can kill a task and then run it: walk, kill, walk again, and the same task comes out ready. */
  lemma KilledRunsAgain() returns (env: Env, before: seq<Task>, walk1: seq<Task>, mid: seq<Task>, walk2: seq<Task>, after: seq<Task>)
    ensures EnvOk(env) && |before| == 3 && before[1].kernel && before[1].state == Dummy
    ensures Walked(env, before, walk1, 0, 1, 2) && Settled(env, walk1, mid, 0, 2) && mid[2].state == SigKilled
    ensures Walked(env, mid, walk2, 0, 1, 2) && Settled(env, walk2, after, 0, 2) && after[2].state == Ready
  {
    env := Env(5, s => false, (p, m) => false, (t: Task) => if t.pending == {} then t else t.(state := SigKilled, pending := {}));
    var first := Task(Blocked, false, 0, true, false, None, 0, 0, {}, {});
    var victim := Task(Ready, false, 3, false, true, None, 0, 0, {9}, {});
    before := [first, first.(state := Dummy), victim];
    walk1 := before;
    mid := [first, first.(state := Dummy), victim.(state := SigKilled, pending := {})];
    walk2 := [first, first.(state := Dummy), Awakened(mid[2])];
    after := walk2;
    assert before == before[2 := victim] && walk2 == mid[2 := Awakened(mid[2])];
    assert 9 in victim.pending;
  }

  class System {
    /** The linked list from firstTask on: next is the following position, null past the end. */
    var tasks: seq<Task>
    var current: nat
    var initiated: bool
    /** Locks held on behalf of queued tasks. */
    var held: set<nat>
    const dummy: nat

    constructor (tasks: seq<Task>, dummy: nat)
      requires dummy < |tasks|
      ensures this.tasks == tasks && this.dummy == dummy && current == 0 && initiated && held == {}
    {
      this.tasks, this.dummy, current, initiated, held := tasks, dummy, 0, true, {};
    }

    /** The dummy task is in the list, a kernel task. */
    predicate Valid() reads this { current < |tasks| && dummy < |tasks| && tasks[dummy].kernel }

    /** The walk: stops at the first qualifying task round the list, wakes it, and touches no other. */
    method Pick(env: Env) returns (next: nat)
      requires Valid()
      modifies this`tasks
      ensures Walked(env, old(tasks), tasks, current, dummy, next)
      ensures Qualifies(env, old(tasks)[next]) ==> Woken(old(tasks)[next], tasks[next])
    {
      var n := |tasks|;
      next := current + 1;
      if next == n { next := 0; }
      var fullRun := 0;
      ghost var rounds := if current + 1 == n then 1 else 0;
      while next < n && tasks[next].state != Ready
        invariant tasks == old(tasks) && next <= n && 0 <= fullRun <= 3 && (fullRun == 3 <==> next == n)
        invariant rounds == fullRun + if current + 1 == n then 1 else 0
        invariant rounds == 0 ==> current < next && forall j {:trigger old(tasks)[j]} :: current < j < next ==> !Qualifies(env, old(tasks)[j])
        invariant rounds == 1 ==> forall j {:trigger old(tasks)[j]} :: 0 <= j < next || current < j < n ==> !Qualifies(env, old(tasks)[j])
        invariant rounds >= 2 ==> forall j {:trigger old(tasks)[j]} :: 0 <= j < n ==> !Qualifies(env, old(tasks)[j])
        decreases 3 - fullRun, n - next
      {
        if env.revivable(tasks[next].state) && env.pendingQuick(tasks[next].pending, tasks[next].mask) {
          tasks := tasks[next := tasks[next].(involuntary := true, wakeAt := 0, state := Ready)];
          return;
        }
        if tasks[next].wakeAt != 0 && tasks[next].wakeAt <= env.ticks {
          tasks := tasks[next := tasks[next].(state := Ready, involuntary := true, wakeAt := 0)];
          return;
        }
        next := next + 1;
        if next == n {
          fullRun := fullRun + 1;
          rounds := rounds + 1;
          if fullRun > 2 { break; }
          next := 0;
        }
      }
      if next == n { next := dummy; }
      assert tasks == old(tasks)[next := old(tasks)[next]];
    }

    method ReleaseQueue(prev: nat)
      requires prev < |tasks|
      modifies this`tasks, this`held
      ensures |tasks| == |old(tasks)|
      ensures tasks == old(tasks)[prev := old(tasks)[prev].(queueEntry := tasks[prev].queueEntry)] && LockOk(old(tasks)[prev], tasks[prev], old(held), held)
      ensures tasks[prev].queueEntry == None || tasks[prev].state == Ready
    {
      if tasks[prev].state != Ready && tasks[prev].queueEntry.Some? {
        held := held - {tasks[prev].queueEntry.value};
        tasks := tasks[prev := tasks[prev].(queueEntry := None)];
      } else {
        assert tasks == tasks[prev := tasks[prev]];
      }
    }

    /** Switching to next: release the previous task's queue lock, fire the timer, then act on signals. */
    method SwitchTo(env: Env, prev: nat, next: nat) returns (ghost handed: Task)
      requires EnvOk(env) && prev < |tasks| && next < |tasks| && (tasks[next].kernel || tasks[next].state == Ready)
      modifies this`tasks, this`held
      ensures Settled(env, old(tasks), tasks, prev, next) && tasks[next].kernel == old(tasks)[next].kernel
      ensures LockOk(old(tasks)[prev], tasks[prev], old(held), held) ||
              (!tasks[next].kernel && tasks[next].state == SigKilled && held == old(held) && tasks[prev].queueEntry == old(tasks)[prev].queueEntry)
      ensures Handed(env.ticks, old(tasks)[next].(queueEntry := handed.queueEntry), handed)
      ensures tasks[next] == if !handed.kernel && handed.userMode then env.handle(handed) else handed
    {
      ReleaseQueue(prev);
      tasks := tasks[next := Alarmed(env.ticks, tasks[next])];
      handed := tasks[next];
      if !tasks[next].kernel && tasks[next].userMode { tasks := tasks[next := env.handle(tasks[next])]; }
    }

    /** schedule, up to the choice of the next task; it calls itself again whenever the chosen task turns out killed. */
    method Schedule(env: Env)
      requires Valid() && EnvOk(env)
      modifies this
      ensures Valid() && initiated == old(initiated)
      ensures !initiated ==> tasks == old(tasks) && current == old(current) && held == old(held)
      ensures initiated ==> Chosen(env, old(tasks), tasks, old(current), dummy, current)
      ensures initiated ==> LockOk(old(tasks)[old(current)], tasks[old(current)], old(held), held)
      decreases Total(env, tasks)
    {
      hide Walked, Settled, Chosen, Struck, Qualifies, Total, LockOk, EnvOk;
      if !initiated { return; }
      var next := Pick(env);
      ghost var walked := tasks;
      WalkShape(env, old(tasks), walked, current, dummy, next);
      var prev := current;
      current := next;
      ghost var handed := SwitchTo(env, prev, next);
      SettledShape(env, walked, tasks, prev, dummy, next);
      WalkThenSettle(env, old(tasks), walked, tasks, prev, dummy, next);
      ghost var t0, t1, held1 := old(tasks)[prev], tasks[prev], held;
      if !tasks[next].kernel && tasks[next].state == SigKilled {
        ghost var mid := tasks;
        StruckLightens(env, old(tasks), mid, prev, next);
        current := prev;
        Schedule(env);
        ChosenAcross(env, old(tasks), mid, tasks, prev, dummy, next, current);
        ChosenShape(env, old(tasks), tasks, prev, dummy, current);
        if held1 == old(held) && t1.queueEntry == t0.queueEntry {
          SameLock(t0, t1, tasks[prev], old(held), held);
        } else {
          SameLock(t0, walked[prev], t1, old(held), held1);
          LockAgain(t0, t1, tasks[prev], old(held), held1, held);
        }
      } else {
        SameLock(t0, walked[prev], t1, old(held), held1);
        ChosenShape(env, old(tasks), tasks, prev, dummy, next);
      }
    }
  }
}
