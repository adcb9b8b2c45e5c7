/** The pipe: readers, writers and closers interleaved around one mutex and two condition variables. */
module Pipes {
  import opened Octets

  const PIPE_BUFF := 65536

  datatype Job = Read(n: nat) | Write(data: seq<Byte>, written: nat) | Close(write: bool)

  /**
   * Where a thread stands. Blocked waits for the mutex, to begin a call or to return from a condition variable; Parked
   * waits on cond_read or cond_write; the rest run with the mutex held, changing the buffer in one step and notifying
   * in the next.
   */
  datatype Pc =
    | Idle
    | Blocked(job: Job)
    | ParkedRead(n: nat)
    | ParkedWrite(data: seq<Byte>, written: nat)
    | ReadTest(n: nat)
    | ReadNotify(got: seq<Byte>)
    | WriteTest(data: seq<Byte>, written: nat)
    | WriteNotify(data: seq<Byte>, written: nat)
    | CloseDec(write: bool)
    | CloseNotify(write: bool)

  datatype Result = GotBytes(bytes: seq<Byte>) | Wrote(n: nat) | BrokenPipe | Closed

  /** What happens, in order: a call begins, puts bytes into the buffer or takes them out, shuts an end, and ends. */
  datatype Event = Began(t: nat, job: Job) | Put(t: nat, bytes: seq<Byte>) | Took(t: nat, bytes: seq<Byte>) | Shut(t: nat, write: bool) | Ended(t: nat, result: Result)

  type Log = seq<Event>

  /** log is history: all events so far. */
  datatype State = State(buf: seq<Byte>, readFds: nat, writeFds: nat, owner: Option<nat>, pcs: map<nat, Pc>, log: Log)

  function Min(a: nat, b: nat): nat { if a < b then a else b }

  /** notify_all on cond_read. */
  function WakeReaders(pcs: map<nat, Pc>): map<nat, Pc> {
    map t | t in pcs :: if pcs[t].ParkedRead? then Blocked(Read(pcs[t].n)) else pcs[t]
  }

  /** notify_all on cond_write. */
  function WakeWriters(pcs: map<nat, Pc>): map<nat, Pc> {
    map t | t in pcs :: if pcs[t].ParkedWrite? then Blocked(Write(pcs[t].data, pcs[t].written)) else pcs[t]
  }

  function Enter(job: Job): Pc {
    match job
    case Read(n) => ReadTest(n)
    case Write(data, written) => WriteTest(data, written)
    case Close(write) => CloseDec(write)
  }

  /** Release the mutex and return r. */
  function Return(s: State, t: nat, r: Result): State {
    s.(owner := None, pcs := s.pcs[t := Idle], log := s.log + [Ended(t, r)])
  }

  function Park(s: State, t: nat, pc: Pc): State { s.(owner := None, pcs := s.pcs[t := pc]) }

  function StepRead(s: State, t: nat, n: nat): State {
    if s.buf == [] then
      if s.writeFds == 0 then Return(s, t, GotBytes([])) else Park(s, t, ParkedRead(n))
    else
      var k := Min(n, |s.buf|);
      s.(buf := s.buf[k..], pcs := s.pcs[t := ReadNotify(s.buf[..k])], log := s.log + [Took(t, s.buf[..k])])
  }

  function StepWrite(s: State, t: nat, data: seq<Byte>, written: nat): State {
    if written >= |data| then Return(s, t, Wrote(written))
    else if |s.buf| >= PIPE_BUFF then
      if s.readFds == 0 then Return(s, t, BrokenPipe) else Park(s, t, ParkedWrite(data, written))
    else
      var k := Min(|data| - written, PIPE_BUFF - |s.buf|);
      var chunk := data[written..written + k];
      s.(buf := s.buf + chunk, pcs := s.pcs[t := WriteNotify(data, written + k)], log := s.log + [Put(t, chunk)])
  }

  function StepClose(s: State, t: nat, write: bool): State {
    var s' := s.(pcs := s.pcs[t := CloseNotify(write)], log := s.log + [Shut(t, write)]);
    if write then s'.(writeFds := if s.writeFds == 0 then 0 else s.writeFds - 1)
    else s'.(readFds := if s.readFds == 0 then 0 else s.readFds - 1)
  }

  /** A call at its beginning: a write has written nothing. */
  function Fresh(call: Job): Job { match call case Write(data, _) => Write(data, 0) case _ => call }

  /** One step of thread t; call is what it does next if idle. A parked thread may wake without being notified. */
  function Next(s: State, t: nat, call: Job): State
    requires t in s.pcs
  {
    match s.pcs[t]
    case Idle => s.(pcs := s.pcs[t := Blocked(Fresh(call))], log := s.log + [Began(t, Fresh(call))])
    case Blocked(job) => if s.owner == None then s.(owner := Some(t), pcs := s.pcs[t := Enter(job)]) else s
    case ParkedRead(n) => s.(pcs := s.pcs[t := Blocked(Read(n))])
    case ParkedWrite(data, written) => s.(pcs := s.pcs[t := Blocked(Write(data, written))])
    case ReadTest(n) => StepRead(s, t, n)
    case ReadNotify(got) => Return(s.(pcs := WakeWriters(s.pcs)), t, GotBytes(got))
    case WriteTest(data, written) => StepWrite(s, t, data, written)
    case WriteNotify(data, written) => s.(pcs := WakeReaders(s.pcs)[t := WriteTest(data, written)])
    case CloseDec(write) => StepClose(s, t, write)
    case CloseNotify(write) => Return(s.(pcs := if write then WakeReaders(s.pcs) else WakeWriters(s.pcs)), t, Closed)
  }

  // ---------------------------------------------------------------- the invariant

  predicate Inside(pc: Pc) { pc.ReadTest? || pc.ReadNotify? || pc.WriteTest? || pc.WriteNotify? || pc.CloseDec? || pc.CloseNotify? }

  /** The mutex holder is about to notify cond_read. */
  predicate ReadersDue(s: State) {
    s.owner.Some? && s.owner.value in s.pcs && (s.pcs[s.owner.value].WriteNotify? || s.pcs[s.owner.value] == CloseNotify(true))
  }

  predicate WritersDue(s: State) {
    s.owner.Some? && s.owner.value in s.pcs && (s.pcs[s.owner.value].ReadNotify? || s.pcs[s.owner.value] == CloseNotify(false))
  }

  /** Only the owner runs inside; a parked thread has reason to be, or is about to be notified. */
  ghost predicate PcOk(s: State, t: nat)
    requires t in s.pcs
  {
    && (Inside(s.pcs[t]) <==> s.owner == Some(t))
    && (s.pcs[t].ParkedRead? ==> (s.buf == [] && s.writeFds > 0) || ReadersDue(s))
    && (s.pcs[t].ParkedWrite? ==> (|s.buf| == PIPE_BUFF && s.readFds > 0) || WritersDue(s))
  }

  // ---------------------------------------------------------------- reading the log

  /** All bytes ever put into the buffer, in order. */
  function Pushed(log: Log): seq<Byte> {
    if log == [] then [] else var e := log[|log| - 1]; Pushed(log[..|log| - 1]) + if e.Put? then e.bytes else []
  }

  /** All bytes ever taken out of it. */
  function Popped(log: Log): seq<Byte> {
    if log == [] then [] else var e := log[|log| - 1]; Popped(log[..|log| - 1]) + if e.Took? then e.bytes else []
  }

  /** All bytes that reads have returned. */
  function Returned(log: Log): seq<Byte> {
    if log == [] then [] else
      var e := log[|log| - 1];
      Returned(log[..|log| - 1]) + if e.Ended? && e.result.GotBytes? then e.result.bytes else []
  }

  predicate HasShut(log: Log, write: bool) {
    log != [] && (HasShut(log[..|log| - 1], write) || (log[|log| - 1].Shut? && log[|log| - 1].write == write))
  }

  /** What thread t called last. */
  function CallJob(log: Log, t: nat): Option<Job> {
    if log == [] then None else
      var e := log[|log| - 1];
      if e.Began? && e.t == t then Some(e.job) else CallJob(log[..|log| - 1], t)
  }

  /** The bytes thread t has put in during its last call, in order. */
  function CallPut(log: Log, t: nat): seq<Byte> {
    if log == [] then [] else
      var e := log[|log| - 1];
      if e.t == t && e.Began? then [] else CallPut(log[..|log| - 1], t) + if e.t == t && e.Put? then e.bytes else []
  }

  function CallTook(log: Log, t: nat): seq<Byte> {
    if log == [] then [] else
      var e := log[|log| - 1];
      if e.t == t && e.Began? then [] else CallTook(log[..|log| - 1], t) + if e.t == t && e.Took? then e.bytes else []
  }

  /** What one more event makes of each of these. */
  ghost predicate Logged(log: Log, e: Event, u: nat) {
    && Pushed(log + [e]) == Pushed(log) + (if e.Put? then e.bytes else [])
    && Popped(log + [e]) == Popped(log) + (if e.Took? then e.bytes else [])
    && Returned(log + [e]) == Returned(log) + (if e.Ended? && e.result.GotBytes? then e.result.bytes else [])
    && (forall w {:trigger HasShut(log, w)} {:trigger HasShut(log + [e], w)} :: HasShut(log + [e], w) <==> HasShut(log, w) || (e.Shut? && e.write == w))
    && CallJob(log + [e], u) == (if e.Began? && e.t == u then Some(e.job) else CallJob(log, u))
    && CallPut(log + [e], u) == (if e.t == u && e.Began? then [] else CallPut(log, u) + if e.t == u && e.Put? then e.bytes else [])
    && CallTook(log + [e], u) == (if e.t == u && e.Began? then [] else CallTook(log, u) + if e.t == u && e.Took? then e.bytes else [])
  }

  lemma LogsOne(log: Log, e: Event, u: nat)
    ensures Logged(log, e, u)
  {
    assert (log + [e])[..|log|] == log;
  }

  /** What the result of a call means, given the log up to its end. */
  ghost predicate ResultOk(log: Log, t: nat, r: Result) {
    match r
    case GotBytes(b) =>
      && CallJob(log, t).Some? && CallJob(log, t).value.Read? && CallTook(log, t) == b && |b| <= CallJob(log, t).value.n
      && (b == [] && CallJob(log, t).value.n > 0 ==> Pushed(log) == Popped(log) && HasShut(log, true))
    case Wrote(n) =>
      CallJob(log, t).Some? && CallJob(log, t).value.Write? && CallPut(log, t) == CallJob(log, t).value.data && n == |CallPut(log, t)|
    case BrokenPipe =>
      && CallJob(log, t).Some? && CallJob(log, t).value.Write? && CallPut(log, t) < CallJob(log, t).value.data
      && |Pushed(log)| == |Popped(log)| + PIPE_BUFF && HasShut(log, false)
    case Closed => CallJob(log, t).Some? && CallJob(log, t).value.Close? && HasShut(log, CallJob(log, t).value.write)
  }

  /** How many bytes are in the pipe. */
  function Waiting(log: Log): int { |Pushed(log)| - |Popped(log)| }

  /**
   * How much is moved at a time, given the log up to then: a read takes all it has room for or all there is, whichever
   * is less; a write puts all it has left or all there is room for.
   */
  ghost predicate TransferOk(log: Log, e: Event) {
    match e
    case Took(t, b) =>
      && CallJob(log, t).Some? && CallJob(log, t).value.Read? && Waiting(log) > 0
      && |b| <= CallJob(log, t).value.n && |b| <= Waiting(log) && (|b| == CallJob(log, t).value.n || |b| == Waiting(log))
    case Put(t, b) =>
      && CallJob(log, t).Some? && CallJob(log, t).value.Write? && Waiting(log) < PIPE_BUFF
      && var left := |CallJob(log, t).value.data| - |CallPut(log, t)|;
         0 < |b| <= left && |b| <= PIPE_BUFF - Waiting(log) && (|b| == left || |b| == PIPE_BUFF - Waiting(log))
    case _ => true
  }

  ghost predicate EventOk(log: Log, j: nat)
    requires j < |log|
  {
    TransferOk(log[..j], log[j]) && (log[j].Ended? ==> ResultOk(log[..j], log[j].t, log[j].result))
  }

  // ---------------------------------------------------------------- the invariant over the history

  ghost predicate Reading(log: Log, t: nat, n: nat, got: seq<Byte>) {
    CallJob(log, t) == Some(Read(n)) && CallTook(log, t) == got && |got| <= n
  }

  ghost predicate Writing(log: Log, t: nat, data: seq<Byte>, written: nat) {
    CallJob(log, t) == Some(Write(data, 0)) && written <= |data| && CallPut(log, t) == data[..written]
  }

  ghost predicate JobOk(log: Log, t: nat, job: Job) {
    match job
    case Read(n) => Reading(log, t, n, [])
    case Write(data, written) => Writing(log, t, data, written)
    case Close(write) => CallJob(log, t) == Some(Close(write))
  }

  /** Where a thread stands is what its last call has done so far. */
  ghost predicate ThreadOk(log: Log, t: nat, pc: Pc) {
    match pc
    case Idle => true
    case Blocked(job) => JobOk(log, t, job)
    case ParkedRead(n) => Reading(log, t, n, [])
    case ReadTest(n) => Reading(log, t, n, [])
    case ReadNotify(got) => CallJob(log, t).Some? && CallJob(log, t).value.Read? && Reading(log, t, CallJob(log, t).value.n, got)
                            && (got == [] ==> CallJob(log, t).value.n == 0)
    case ParkedWrite(data, written) => Writing(log, t, data, written)
    case WriteTest(data, written) => Writing(log, t, data, written)
    case WriteNotify(data, written) => Writing(log, t, data, written)
    case CloseDec(write) => CallJob(log, t) == Some(Close(write))
    case CloseNotify(write) => CallJob(log, t) == Some(Close(write)) && HasShut(log, write)
  }

  /** The bytes a read has taken out and is about to return. */
  function InFlight(s: State): seq<Byte> {
    if s.owner.Some? && s.owner.value in s.pcs && s.pcs[s.owner.value].ReadNotify? then s.pcs[s.owner.value].got else []
  }

  /** Bytes are returned in the order they were put in, none lost, none repeated; an end is open until it is shut. */
  ghost predicate Flow(log: Log, buf: seq<Byte>, flight: seq<Byte>, readFds: nat, writeFds: nat) {
    && Pushed(log) == Popped(log) + buf && |buf| <= PIPE_BUFF && Popped(log) == Returned(log) + flight
    && writeFds == (if HasShut(log, true) then 0 else 1) && readFds == (if HasShut(log, false) then 0 else 1)
  }

  ghost predicate Flows(s: State) { Flow(s.log, s.buf, InFlight(s), s.readFds, s.writeFds) }

  ghost predicate Inv(s: State) {
    && Flows(s) && (s.owner.Some? ==> s.owner.value in s.pcs)
    && (forall t {:trigger PcOk(s, t)} :: t in s.pcs ==> PcOk(s, t))
    && (forall t {:trigger ThreadOk(s.log, t, s.pcs[t])} :: t in s.pcs ==> ThreadOk(s.log, t, s.pcs[t]))
    && forall j {:trigger EventOk(s.log, j)} :: 0 <= j < |s.log| ==> EventOk(s.log, j)
  }

  lemma BufferBound(s: State)
    requires Flows(s)
    ensures |s.buf| <= PIPE_BUFF
  {
  }

  /** Between two steps of others a thread stays where it is, or is notified. */
  lemma OthersStay(s: State, t: nat, call: Job, u: nat)
    requires t in s.pcs && u in s.pcs && u != t
    ensures u in Next(s, t, call).pcs
    ensures var p, p' := s.pcs[u], Next(s, t, call).pcs[u];
            && (p.ParkedRead? ==> p' == p || p' == Blocked(Read(p.n))) && (p.ParkedWrite? ==> p' == p || p' == Blocked(Write(p.data, p.written)))
            && (!p.ParkedRead? && !p.ParkedWrite? ==> p' == p)
            && (p'.ParkedRead? ==> !s.pcs[t].WriteNotify? && s.pcs[t] != CloseNotify(true))
            && (p'.ParkedWrite? ==> !s.pcs[t].ReadNotify? && s.pcs[t] != CloseNotify(false))
  {
  }

  lemma OwnStepOk(s: State, t: nat, call: Job)
    requires Inv(s) && t in s.pcs
    ensures t in Next(s, t, call).pcs && PcOk(Next(s, t, call), t)
  {
    hide ThreadOk, EventOk, Flow, InFlight;
    assert PcOk(s, t);
    assert |s.buf| <= PIPE_BUFF by { BufferBound(s); }
  }

  lemma OthersStepOk(s: State, t: nat, call: Job, u: nat)
    requires Inv(s) && t in s.pcs && u in s.pcs && u != t
    ensures u in Next(s, t, call).pcs && PcOk(Next(s, t, call), u)
  {
    hide ThreadOk, EventOk, Flow, InFlight, WakeReaders, WakeWriters;
    assert PcOk(s, t) && PcOk(s, u);
    OthersStay(s, t, call, u);
  }

  lemma StepOk(s: State, t: nat, call: Job, u: nat)
    requires Inv(s) && t in s.pcs && u in s.pcs
    ensures u in Next(s, t, call).pcs && PcOk(Next(s, t, call), u)
  {
    hide Inv, PcOk, Next;
    if u == t { OwnStepOk(s, t, call); } else { OthersStepOk(s, t, call, u); }
  }

  /** A step logs at most one event, of the thread that takes it. */
  function EventOf(s: State, t: nat, call: Job): Option<Event>
    requires t in s.pcs
  {
    var s' := Next(s, t, call);
    if |s'.log| == |s.log| + 1 then Some(s'.log[|s.log|]) else None
  }

  lemma StepLogs(s: State, t: nat, call: Job)
    requires t in s.pcs
    ensures var e := EventOf(s, t, call); Next(s, t, call).log == (if e.Some? then s.log + [e.value] else s.log) && (e.Some? ==> e.value.t == t)
  {
  }

  lemma FlowBegins(log: Log, buf: seq<Byte>, flight: seq<Byte>, r: nat, w: nat, e: Event)
    requires Flow(log, buf, flight, r, w) && (e.Began? || (e.Ended? && !e.result.GotBytes?))
    ensures Flow(log + [e], buf, flight, r, w)
  {
    hide Pushed, Popped, Returned, HasShut;
    LogsOne(log, e, 0);
  }

  lemma FlowTakes(log: Log, buf: seq<Byte>, r: nat, w: nat, t: nat, k: nat)
    requires Flow(log, buf, [], r, w) && k <= |buf|
    ensures Flow(log + [Took(t, buf[..k])], buf[k..], buf[..k], r, w)
  {
    hide Pushed, Popped, Returned, HasShut, CallTook, CallPut, CallJob;
    LogsOne(log, Took(t, buf[..k]), t);
    assert Popped(log) + (buf[..k] + buf[k..]) == Popped(log) + buf[..k] + buf[k..];
    assert buf == buf[..k] + buf[k..];
  }

  lemma FlowReturns(log: Log, buf: seq<Byte>, flight: seq<Byte>, r: nat, w: nat, t: nat)
    requires Flow(log, buf, flight, r, w)
    ensures Flow(log + [Ended(t, GotBytes(flight))], buf, [], r, w)
  {
    hide Pushed, Popped, Returned, HasShut;
    LogsOne(log, Ended(t, GotBytes(flight)), t);
  }

  lemma FlowPuts(log: Log, buf: seq<Byte>, r: nat, w: nat, t: nat, chunk: seq<Byte>)
    requires Flow(log, buf, [], r, w) && |buf| + |chunk| <= PIPE_BUFF
    ensures Flow(log + [Put(t, chunk)], buf + chunk, [], r, w)
  {
    hide Pushed, Popped, Returned, HasShut, CallTook, CallPut, CallJob;
    LogsOne(log, Put(t, chunk), t);
    assert Popped(log) + buf + chunk == Popped(log) + (buf + chunk);
  }

  lemma FlowShuts(log: Log, buf: seq<Byte>, flight: seq<Byte>, r: nat, w: nat, t: nat, write: bool)
    requires Flow(log, buf, flight, r, w)
    ensures Flow(log + [Shut(t, write)], buf, flight, if write then r else 0, if write then 0 else w)
  {
    hide Pushed, Popped, Returned, HasShut;
    LogsOne(log, Shut(t, write), t);
  }

  lemma FlowDescriptors(log: Log, buf: seq<Byte>, flight: seq<Byte>, r: nat, w: nat)
    requires Flow(log, buf, flight, r, w)
    ensures r <= 1 && w <= 1 && |buf| <= PIPE_BUFF
  {
  }

  /** Only the mutex holder has bytes in flight. */
  lemma Flight(s: State, t: nat, call: Job)
    requires t in s.pcs && PcOk(s, t) && (s.owner.Some? ==> s.owner.value in s.pcs && PcOk(s, s.owner.value))
    ensures InFlight(Next(s, t, call)) == if s.pcs[t].ReadTest? && s.buf != [] then s.buf[..Min(s.pcs[t].n, |s.buf|)]
                                          else if s.pcs[t].ReadNotify? then [] else InFlight(s)
    ensures Inside(s.pcs[t]) ==> InFlight(s) == if s.pcs[t].ReadNotify? then s.pcs[t].got else []
  {
    if s.owner.Some? && s.owner.value != t { OthersStay(s, t, call, s.owner.value); }
  }

  /** Every step keeps the flow. */
  lemma StepFlow(s: State, t: nat, call: Job)
    requires Inv(s) && t in s.pcs
    ensures Flows(Next(s, t, call))
  {
    hide WakeReaders, WakeWriters, Flow, ThreadOk, EventOk, InFlight;
    assert PcOk(s, t);
    if s.owner.Some? { assert PcOk(s, s.owner.value); }
    var f := InFlight(s);
    Flight(s, t, call);
    FlowDescriptors(s.log, s.buf, f, s.readFds, s.writeFds);
    hide PcOk;
    match s.pcs[t]
    case Idle => FlowBegins(s.log, s.buf, f, s.readFds, s.writeFds, Began(t, Fresh(call)));
    case ReadTest(n) =>
      if s.buf == [] { FlowReturns(s.log, s.buf, f, s.readFds, s.writeFds, t); }
      else { FlowTakes(s.log, s.buf, s.readFds, s.writeFds, t, Min(n, |s.buf|)); }
    case ReadNotify(got) => FlowReturns(s.log, s.buf, f, s.readFds, s.writeFds, t);
    case WriteTest(data, written) =>
      if written >= |data| {
        FlowBegins(s.log, s.buf, f, s.readFds, s.writeFds, Ended(t, Wrote(written)));
      } else if |s.buf| >= PIPE_BUFF {
        FlowBegins(s.log, s.buf, f, s.readFds, s.writeFds, Ended(t, BrokenPipe));
      } else {
        FlowPuts(s.log, s.buf, s.readFds, s.writeFds, t, data[written..written + Min(|data| - written, PIPE_BUFF - |s.buf|)]);
      }
    case CloseDec(write) => FlowShuts(s.log, s.buf, f, s.readFds, s.writeFds, t, write);
    case CloseNotify(write) => FlowBegins(s.log, s.buf, f, s.readFds, s.writeFds, Ended(t, Closed));
    case _ =>
  }

  lemma StepThreads(s: State, t: nat, call: Job)
    requires Inv(s) && t in s.pcs
    ensures Next(s, t, call).pcs.Keys == s.pcs.Keys
    ensures Next(s, t, call).owner.Some? ==> Next(s, t, call).owner.value in s.pcs
  {
    hide PcOk, ThreadOk, Flow, EventOk, InFlight;
  }

  /** Another thread's event says nothing about this one's call. */
  lemma OthersCall(log: Log, e: Event, u: nat, pc: Pc)
    requires ThreadOk(log, u, pc) && e.t != u
    ensures ThreadOk(log + [e], u, pc)
  {
    hide HasShut, CallJob, CallPut, CallTook, Pushed, Popped, Returned;
    LogsOne(log, e, u);
  }

  lemma OwnCall(s: State, t: nat, call: Job)
    requires Inv(s) && t in s.pcs
    ensures t in Next(s, t, call).pcs && ThreadOk(Next(s, t, call).log, t, Next(s, t, call).pcs[t])
  {
    hide HasShut, CallJob, CallPut, CallTook, Pushed, Popped, Returned, PcOk, EventOk, Flow, WakeReaders, WakeWriters, InFlight, Reading, Writing;
    assert ThreadOk(s.log, t, s.pcs[t]);
    assert |s.buf| <= PIPE_BUFF by { BufferBound(s); }
    match s.pcs[t]
    case Idle => Begins(s.log, t, call);
    case ReadTest(n) => if s.buf != [] { TakeSome(s.log, t, n, s.buf[..Min(n, |s.buf|)]); }
    case WriteTest(data, w) =>
      if w < |data| && |s.buf| < PIPE_BUFF { PutMore(s.log, t, data, w, w + Min(|data| - w, PIPE_BUFF - |s.buf|)); }
    case CloseDec(write) => LogsOne(s.log, Shut(t, write), t);
    case _ =>
  }

  lemma Begins(log: Log, t: nat, call: Job)
    ensures JobOk(log + [Began(t, Fresh(call))], t, Fresh(call))
  {
    hide HasShut, CallJob, CallPut, CallTook, Pushed, Popped, Returned;
    LogsOne(log, Began(t, Fresh(call)), t);
  }

  lemma TakeSome(log: Log, t: nat, n: nat, got: seq<Byte>)
    requires Reading(log, t, n, []) && |got| <= n
    ensures var log' := log + [Took(t, got)]; CallJob(log', t) == Some(Read(n)) && Reading(log', t, n, got)
  {
    hide HasShut, CallJob, CallPut, CallTook, Pushed, Popped, Returned;
    LogsOne(log, Took(t, got), t);
  }

  lemma PutMore(log: Log, t: nat, data: seq<Byte>, w: nat, w': nat)
    requires Writing(log, t, data, w) && w <= w' <= |data|
    ensures Writing(log + [Put(t, data[w..w'])], t, data, w')
  {
    hide HasShut, CallJob, CallPut, CallTook, Pushed, Popped, Returned;
    LogsOne(log, Put(t, data[w..w']), t);
    assert data[..w] + data[w..w'] == data[..w'];
  }

  lemma ThreadsStep(s: State, t: nat, call: Job, u: nat)
    requires Inv(s) && t in s.pcs && u in s.pcs
    ensures u in Next(s, t, call).pcs && ThreadOk(Next(s, t, call).log, u, Next(s, t, call).pcs[u])
  {
    hide HasShut, CallJob, CallPut, CallTook, Pushed, Popped, Returned, PcOk, EventOk, Flow, InFlight, Reading, Writing;
    if u == t {
      OwnCall(s, t, call);
    } else {
      assert ThreadOk(s.log, u, s.pcs[u]);
      StepLogs(s, t, call);
      var e, pc := EventOf(s, t, call), Next(s, t, call).pcs[u];
      assert ThreadOk(s.log, u, pc);
      if e.Some? { OthersCall(s.log, e.value, u, pc); }
    }
  }

  /** A call ends with a result that says what it did. */
  lemma ResultStep(s: State, t: nat, call: Job)
    requires Inv(s) && t in s.pcs
    ensures var e := EventOf(s, t, call); e.Some? && e.value.Ended? ==> ResultOk(s.log, t, e.value.result)
  {
    hide HasShut, CallJob, CallPut, CallTook, Pushed, Popped, Returned, EventOk;
    assert ThreadOk(s.log, t, s.pcs[t]) && PcOk(s, t);
    if s.pcs[t].WriteTest? { assert s.pcs[t].data[..|s.pcs[t].data|] == s.pcs[t].data; }
  }

  lemma TransferStep(s: State, t: nat, call: Job)
    requires Inv(s) && t in s.pcs
    ensures var e := EventOf(s, t, call); e.Some? ==> TransferOk(s.log, e.value)
  {
    hide HasShut, CallJob, CallPut, CallTook, Pushed, Popped, Returned, EventOk, WakeReaders, WakeWriters;
    assert ThreadOk(s.log, t, s.pcs[t]) && PcOk(s, t);
  }

  lemma EventsStep(s: State, t: nat, call: Job, j: nat)
    requires Inv(s) && t in s.pcs && j < |Next(s, t, call).log|
    ensures EventOk(Next(s, t, call).log, j)
  {
    hide Next, ResultOk, TransferOk, ThreadOk, PcOk, Flows;
    StepLogs(s, t, call);
    var s' := Next(s, t, call);
    assert s'.log[..|s.log|] == s.log;
    if j < |s.log| {
      assert EventOk(s.log, j);
      assert s'.log[..j] == s.log[..j];
    } else {
      ResultStep(s, t, call);
      TransferStep(s, t, call);
    }
  }

  lemma StepKeepsInv(s: State, t: nat, call: Job)
    requires Inv(s) && t in s.pcs
    ensures Inv(Next(s, t, call))
  {
    hide PcOk, Next, Flows, ThreadOk, EventOk;
    StepFlow(s, t, call);
    StepThreads(s, t, call);
    var s' := Next(s, t, call);
    forall u | u in s'.pcs ensures PcOk(s', u) && ThreadOk(s'.log, u, s'.pcs[u]) {
      assert u in s.pcs.Keys;
      StepOk(s, t, call, u);
      ThreadsStep(s, t, call, u);
    }
    forall j | 0 <= j < |s'.log| ensures EventOk(s'.log, j) { EventsStep(s, t, call, j); }
  }

  // ---------------------------------------------------------------- runs

  type Schedule = seq<(nat, Job)>

  ghost function Run(s: State, moves: Schedule): State
    decreases |moves|
  {
    if moves == [] then s else Run(if moves[0].0 in s.pcs then Next(s, moves[0].0, moves[0].1) else s, moves[1..])
  }

  /** A new pipe: empty, one descriptor at each end, any threads. */
  ghost predicate Start(s: State) {
    && s.buf == [] && s.log == [] && s.readFds == 1 && s.writeFds == 1 && s.owner == None
    && forall t {:trigger s.pcs[t]} :: t in s.pcs ==> s.pcs[t] == Idle
  }

  lemma StartInv(s: State)
    requires Start(s)
    ensures Inv(s)
  {
    forall t | t in s.pcs ensures PcOk(s, t) && ThreadOk(s.log, t, s.pcs[t]) { assert s.pcs[t] == Idle; }
  }

  lemma {:induction false} RunKeepsInv(s: State, moves: Schedule)
    requires Inv(s)
    ensures Inv(Run(s, moves))
    decreases |moves|
  {
    if moves != [] {
      var t := moves[0].0;
      if t in s.pcs { StepKeepsInv(s, t, moves[0].1); }
      RunKeepsInv(if t in s.pcs then Next(s, t, moves[0].1) else s, moves[1..]);
    }
  }

  /**
   * In every interleaving: what reads have returned, then what one of them is about to return, then the buffer, is what
   * was written; the buffer never overfills; and no wakeup is lost: with the mutex free, a thread sleeps on cond_read
   * only while the pipe is empty with writers open, and on cond_write only while it is full with readers open.
   */
  lemma PipeSafety(s: State, moves: Schedule, t: nat)
    requires Start(s)
    ensures var e := Run(s, moves);
            && Returned(e.log) + InFlight(e) + e.buf == Pushed(e.log) && Returned(e.log) + InFlight(e) == Popped(e.log) && |e.buf| <= PIPE_BUFF
            && (t in e.pcs && e.pcs[t].ParkedRead? && e.owner == None ==> e.buf == [] && e.writeFds > 0)
            && (t in e.pcs && e.pcs[t].ParkedWrite? && e.owner == None ==> |e.buf| == PIPE_BUFF && e.readFds > 0)
  {
    StartInv(s);
    RunKeepsInv(s, moves);
    var e := Run(s, moves);
    assert t in e.pcs ==> PcOk(e, t);
  }

  lemma ResultsMean(s: State, moves: Schedule, j: nat)
    requires Start(s) && j < |Run(s, moves).log| && Run(s, moves).log[j].Ended?
    ensures var log := Run(s, moves).log; ResultOk(log[..j], log[j].t, log[j].result)
  {
    hide ResultOk;
    StartInv(s);
    RunKeepsInv(s, moves);
    assert EventOk(Run(s, moves).log, j);
  }

  /** Every transfer of every run: a read takes, and a write puts, as much as it can. */
  lemma TransfersMean(s: State, moves: Schedule, j: nat)
    requires Start(s) && j < |Run(s, moves).log|
    ensures var log := Run(s, moves).log; TransferOk(log[..j], log[j])
  {
    hide TransferOk;
    StartInv(s);
    RunKeepsInv(s, moves);
    assert EventOk(Run(s, moves).log, j);
  }

  /**
   * Every read of every run: what it returned is what it took out, at most what it had room for; with room for at least
   * one byte it returned nothing only on an empty pipe whose write end had been closed.
   */
  lemma EndOfFile(s: State, moves: Schedule, j: nat)
    requires Start(s) && j < |Run(s, moves).log| && Run(s, moves).log[j].Ended? && Run(s, moves).log[j].result.GotBytes?
    ensures var log, t, b := Run(s, moves).log, Run(s, moves).log[j].t, Run(s, moves).log[j].result.bytes;
            && CallJob(log[..j], t).Some? && CallJob(log[..j], t).value.Read? && b == CallTook(log[..j], t) && |b| <= CallJob(log[..j], t).value.n
            && (b == [] && CallJob(log[..j], t).value.n > 0 ==> Pushed(log[..j]) == Popped(log[..j]) && HasShut(log[..j], true))
  {
    hide Run, CallJob, CallTook, Pushed, Popped, HasShut;
    ResultsMean(s, moves, j);
  }

  /**
   * Every write of every run: success means that the call's chunks, in order, are all of its data, and reports its
   * length; a broken pipe means that some of it was left, the pipe was full and its read end had been closed.
   */
  lemma WriteProgress(s: State, moves: Schedule, j: nat)
    requires Start(s) && j < |Run(s, moves).log| && Run(s, moves).log[j].Ended?
    requires Run(s, moves).log[j].result.Wrote? || Run(s, moves).log[j].result == BrokenPipe
    ensures var log, t, r := Run(s, moves).log, Run(s, moves).log[j].t, Run(s, moves).log[j].result;
            && CallJob(log[..j], t).Some? && CallJob(log[..j], t).value.Write?
            && var data := CallJob(log[..j], t).value.data;
               if r.Wrote? then CallPut(log[..j], t) == data && r.n == |data|
               else CallPut(log[..j], t) < data && |Pushed(log[..j])| - |Popped(log[..j])| == PIPE_BUFF && HasShut(log[..j], false)
  {
    hide Run, CallJob, CallPut, Pushed, Popped, HasShut;
    ResultsMean(s, moves, j);
  }
}
