/**
 The background writer of a TCP connection, as interleaved steps of its threads.

 Lock, Unlock, Wait and Signal are steps of their own: Send signals after it has unlocked, Shutdown before.
 Wait releases the mutex and falls asleep in one step, and must take the mutex again once it is woken.
 A Signal that finds nobody asleep is lost.
 */
module WriteQueue {
  import opened Bytes
  import opened Options
  import opened Threads

  type Buf = seq<Byte>
  /** The background writer. `closed` is the value it read together with its batch; `rest` is what a failed
      writer never wrote. */
  datatype WriterPc =
    | NotStarted
    | NeverStarted
    | WantLock
    | Checking
    | Asleep
    | Woken
    | Taken(batch: seq<Buf>, closed: bool)
    | Writing(batch: seq<Buf>, i: nat, closed: bool)
    | Flushing(closed: bool)
    | FailWantLock(rest: seq<Buf>)
    | FailLocked(rest: seq<Buf>)
    | Done(failed: bool, rest: seq<Buf>)

  /** A call of Send or Shutdown. */
  datatype CallPc =
    | SendWantLock(bs: seq<Buf>)
    | SendLocked(bs: seq<Buf>)
    | SendAppended(bs: seq<Buf>)
    | SendOwesSignal(bs: seq<Buf>)
    | SendReturned(bs: seq<Buf>, ok: bool)
    | StopWantLock
    | StopLocked
    | StopOwesSignal
    | StopSignalled
    | StopReturned

  datatype Accepted = Accepted(t: Tid, bs: seq<Buf>)

  /** `log` records the calls whose buffers were queued, `written` what the codec accepted, and the first
      `flushed` of those have left the buffered writer. */
  datatype State = State(
    mutex: Option<Owner>, bufs: seq<Buf>, closed: bool,
    writer: WriterPc, calls: map<Tid, CallPc>,
    log: seq<Accepted>, written: seq<Buf>, flushed: nat)

  datatype Step =
    | Call(t: Tid, pc: CallPc)
    | Advance(t: Tid)
    | WriterStep
    | PartialFlush(n: nat)
    | WriteError

  const INIT := State(None, [], false, NotStarted, map[], [], [], 0)

  function Signal(s: State): State {
    if s.writer == Asleep then s.(writer := Woken) else s
  }

  function At(s: State, t: Tid, pc: CallPc): State {
    s.(calls := s.calls[t := pc])
  }

  predicate WantsLock(pc: CallPc) {
    pc.SendWantLock? || pc.StopWantLock?
  }

  predicate WriterWantsLock(pc: WriterPc) {
    pc.NotStarted? || pc.WantLock? || pc.Woken? || pc.FailWantLock?
  }

  predicate Enabled(s: State, step: Step) {
    match step
    case Call(t, pc) => t !in s.calls && WantsLock(pc)
    case Advance(t) => t in s.calls && !s.calls[t].SendReturned? && !s.calls[t].StopReturned?
                       && (WantsLock(s.calls[t]) ==> s.mutex.None?)
    case WriterStep => !s.writer.Asleep? && !s.writer.Done? && !s.writer.NeverStarted?
                       && (WriterWantsLock(s.writer) ==> s.mutex.None?)
    case PartialFlush(n) => (s.writer.Writing? || s.writer.Flushing?) && s.flushed < n <= |s.written|
    case WriteError => s.writer.Flushing? || (s.writer.Writing? && s.writer.i < |s.writer.batch|)
  }

  function OnAdvance(s: State, t: Tid): State
    requires Enabled(s, Advance(t))
  {
    match s.calls[t]
    case SendWantLock(bs) => At(s.(mutex := Some(Caller(t))), t, SendLocked(bs))
    case SendLocked(bs) =>
      if s.closed then At(s.(mutex := None), t, SendReturned(bs, false))
      else At(s.(bufs := s.bufs + bs, log := s.log + [Accepted(t, bs)]), t, SendAppended(bs))
    case SendAppended(bs) => At(s.(mutex := None), t, SendOwesSignal(bs))
    case SendOwesSignal(bs) => At(Signal(s), t, SendReturned(bs, true))
    case StopWantLock => At(s.(mutex := Some(Caller(t))), t, StopLocked)
    case StopLocked =>
      if s.closed then At(s.(mutex := None), t, StopReturned)
      else At(s.(closed := true), t, StopOwesSignal)
    case StopOwesSignal => At(Signal(s), t, StopSignalled)
    case StopSignalled => At(s.(mutex := None), t, StopReturned)
    case _ => s
  }

  function OnWriter(s: State): State {
    match s.writer
    case NotStarted => s.(writer := if s.closed then NeverStarted else WantLock)
    case WantLock => s.(mutex := Some(Worker), writer := Checking)
    case Woken => s.(mutex := Some(Worker), writer := Checking)
    case Checking =>
      if !s.closed && s.bufs == [] then s.(mutex := None, writer := Asleep)
      else s.(bufs := [], writer := Taken(s.bufs, s.closed))
    case Taken(batch, closed) => s.(mutex := None, writer := Writing(batch, 0, closed))
    case Writing(batch, i, closed) =>
      if i < |batch| then s.(written := s.written + [batch[i]], writer := Writing(batch, i + 1, closed))
      else s.(writer := Flushing(closed))
    case Flushing(closed) => s.(flushed := |s.written|, writer := if closed then Done(false, []) else WantLock)
    case FailWantLock(rest) => s.(mutex := Some(Worker), writer := FailLocked(rest))
    case FailLocked(rest) => s.(mutex := None, closed := true, writer := Done(true, rest))
    case _ => s
  }

  function Next(s: State, step: Step): State
    requires Enabled(s, step)
  {
    match step
    case Call(t, pc) => At(s, t, pc)
    case Advance(t) => OnAdvance(s, t)
    case WriterStep => OnWriter(s)
    case PartialFlush(n) => s.(flushed := n)
    case WriteError => s.(writer := FailWantLock(if s.writer.Writing? then s.writer.batch[s.writer.i..] else []))
  }

  predicate Legal(steps: seq<Step>)
    decreases |steps|, 0
  {
    steps == [] || (Legal(steps[..|steps| - 1]) && Enabled(After(steps[..|steps| - 1]), steps[|steps| - 1]))
  }

  function After(steps: seq<Step>): State
    requires Legal(steps)
    decreases |steps|, 1
  {
    if steps == [] then INIT else Next(After(steps[..|steps| - 1]), steps[|steps| - 1])
  }

  // ---- Invariant ----

  predicate HoldsLock(pc: CallPc) {
    pc.SendLocked? || pc.SendAppended? || pc.StopLocked? || pc.StopOwesSignal? || pc.StopSignalled?
  }

  predicate WriterHoldsLock(pc: WriterPc) {
    pc.Checking? || pc.Taken? || pc.FailLocked?
  }

  predicate LockOwned(s: State) {
    && (WriterHoldsLock(s.writer) <==> s.mutex == Some(Worker))
    && (forall t :: t in s.calls ==> (HoldsLock(s.calls[t]) <==> s.mutex == Some(Caller(t))))
    && (s.mutex.Some? && s.mutex.value.Caller? ==> s.mutex.value.t in s.calls)
  }

  /** The call will still issue a Signal. */
  predicate OwesSignal(pc: CallPc) {
    pc.SendAppended? || pc.SendOwesSignal? || pc.StopOwesSignal?
  }

  ghost predicate WakeupOwed(s: State) {
    exists t :: t in s.calls && OwesSignal(s.calls[t])
  }

  ghost predicate NoLostWakeup(s: State) {
    s.writer.Asleep? && (s.bufs != [] || s.closed) ==> WakeupOwed(s)
  }

  /** Everything queued so far, in order. */
  function Queued(log: seq<Accepted>): seq<Buf> {
    if log == [] then [] else Queued(log[..|log| - 1]) + log[|log| - 1].bs
  }

  /** What the writer has taken but not yet written. */
  function InFlight(pc: WriterPc): seq<Buf> {
    match pc
    case Taken(batch, _) => batch
    case Writing(batch, i, _) => if i <= |batch| then batch[i..] else []
    case FailWantLock(rest) => rest
    case FailLocked(rest) => rest
    case Done(_, rest) => rest
    case _ => []
  }

  predicate Queueing(s: State) {
    && Queued(s.log) == s.written + InFlight(s.writer) + s.bufs
    && (s.writer.Writing? ==> s.writer.i <= |s.writer.batch|)
    && s.flushed <= |s.written|
    && (s.writer.Done? && !s.writer.failed ==> s.writer.rest == [])
    && (!s.writer.Writing? && !s.writer.Flushing? && !s.writer.FailWantLock? && !s.writer.FailLocked? && !s.writer.Done?
        ==> s.flushed == |s.written|)
    && (s.writer.Done? && !s.writer.failed ==> s.flushed == |s.written|)
  }

  /** The writer is on its last batch. */
  predicate LastBatch(pc: WriterPc) {
    (pc.Taken? && pc.closed) || (pc.Writing? && pc.closed) || (pc.Flushing? && pc.closed) || (pc.Done? && !pc.failed)
  }

  predicate Ending(s: State) {
    (LastBatch(s.writer) ==> s.closed && s.bufs == []) && (s.writer.Done? || s.writer.NeverStarted? ==> s.closed)
  }

  /** A call's buffers are logged, once, exactly if it got past the closed check. */
  predicate LoggedAs(log: seq<Accepted>, t: Tid, pc: CallPc) {
    match pc
    case SendAppended(bs) => Accepted(t, bs) in log
    case SendOwesSignal(bs) => Accepted(t, bs) in log
    case SendReturned(bs, ok) => if ok then Accepted(t, bs) in log else NotLogged(log, t)
    case _ => NotLogged(log, t)
  }

  predicate NotLogged(log: seq<Accepted>, t: Tid) {
    forall a :: a in log ==> a.t != t
  }

  predicate Logging(s: State) {
    && (forall t :: t in s.calls ==> LoggedAs(s.log, t, s.calls[t]))
    && (forall a :: a in s.log ==> a.t in s.calls)
    && forall i, j :: 0 <= i < j < |s.log| ==> s.log[i].t != s.log[j].t
  }

  ghost predicate Inv(s: State) {
    LockOwned(s) && NoLostWakeup(s) && Queueing(s) && Ending(s) && Logging(s)
  }

  lemma CallKeepsLock(s: State, t: Tid)
    requires LockOwned(s) && Enabled(s, Advance(t))
    ensures LockOwned(OnAdvance(s, t))
  {
  }

  lemma StepKeepsLock(s: State, step: Step)
    requires LockOwned(s) && Enabled(s, step)
    ensures LockOwned(Next(s, step))
  {
    hide OnAdvance;
    if step.Advance? {
      CallKeepsLock(s, step.t);
    }
  }

  /** The lock protects: while a thread holds the mutex, no step of another one changes the queue or the flag. */
  lemma LockProtects(s: State, step: Step)
    requires LockOwned(s) && Enabled(s, step) && s.mutex.Some?
    requires s.mutex == Some(Worker) ==> step != WriterStep
    requires s.mutex.value.Caller? ==> step != Advance(s.mutex.value.t)
    ensures var u := Next(s, step); u.bufs == s.bufs && u.closed == s.closed && u.log == s.log
  {
  }

  lemma StepKeepsWakeup(s: State, step: Step)
    requires LockOwned(s) && NoLostWakeup(s) && Enabled(s, step)
    ensures NoLostWakeup(Next(s, step))
  {
    var u := Next(s, step);
    if u.writer.Asleep? && (u.bufs != [] || u.closed) {
      if step.Advance? && OwesSignal(u.calls[step.t]) {
        assert WakeupOwed(u);
      } else if s.writer.Asleep? && (s.bufs != [] || s.closed) {
        var t :| t in s.calls && OwesSignal(s.calls[t]);
        assert t in u.calls && OwesSignal(u.calls[t]);
      }
    }
  }

  lemma QueuedSnoc(log: seq<Accepted>, entry: Accepted)
    ensures Queued(log + [entry]) == Queued(log) + entry.bs
  {
    assert (log + [entry])[..|log|] == log;
  }

  lemma CallKeepsQueue(s: State, t: Tid)
    requires Queueing(s) && Enabled(s, Advance(t))
    ensures Queueing(OnAdvance(s, t))
  {
    hide Queued;
    if s.calls[t].SendLocked? {
      var bs := s.calls[t].bs;
      QueuedSnoc(s.log, Accepted(t, bs));
      assert s.written + InFlight(s.writer) + s.bufs + bs == s.written + InFlight(s.writer) + (s.bufs + bs);
    }
  }

  lemma WriterKeepsQueue(s: State)
    requires Queueing(s) && Enabled(s, WriterStep)
    ensures Queueing(OnWriter(s))
  {
    hide Queued;
  }

  lemma StepKeepsQueue(s: State, step: Step)
    requires Queueing(s) && Enabled(s, step)
    ensures Queueing(Next(s, step))
  {
    hide Queued, OnAdvance, OnWriter;
    match step
    case Advance(t) => CallKeepsQueue(s, t);
    case WriterStep => WriterKeepsQueue(s);
    case _ =>
  }

  lemma StepKeepsEnding(s: State, step: Step)
    requires Ending(s) && Enabled(s, step)
    ensures Ending(Next(s, step))
  {
  }

  lemma OthersLogged(log: seq<Accepted>, entry: Accepted, t: Tid, pc: CallPc)
    requires LoggedAs(log, t, pc) && entry.t != t
    ensures LoggedAs(log + [entry], t, pc)
  {
  }

  /** What the step makes of the log and of the call itself. */
  lemma LogAfter(s: State, t: Tid)
    requires Enabled(s, Advance(t)) && LoggedAs(s.log, t, s.calls[t])
    ensures var u := OnAdvance(s, t);
            var appends := s.calls[t].SendLocked? && !s.closed;
            && u.calls == s.calls[t := u.calls[t]] && LoggedAs(u.log, t, u.calls[t])
            && (appends ==> u.log == s.log + [Accepted(t, s.calls[t].bs)] && NotLogged(s.log, t))
            && (!appends ==> u.log == s.log)
  {
  }

  lemma CallKeepsLogging(s: State, t: Tid)
    requires Logging(s) && Enabled(s, Advance(t))
    ensures Logging(OnAdvance(s, t))
  {
    var u := OnAdvance(s, t);
    assert LoggedAs(s.log, t, s.calls[t]);
    LogAfter(s, t);
    hide OnAdvance, LoggedAs;
    forall o | o in u.calls
      ensures LoggedAs(u.log, o, u.calls[o])
    {
      if o != t {
        assert LoggedAs(s.log, o, s.calls[o]);
        if u.log != s.log {
          OthersLogged(s.log, u.log[|s.log|], o, s.calls[o]);
        }
      }
    }
  }

  lemma StepKeepsLogging(s: State, step: Step)
    requires Logging(s) && Enabled(s, step)
    ensures Logging(Next(s, step))
  {
    hide OnAdvance;
    if step.Advance? {
      CallKeepsLogging(s, step.t);
    }
  }

  /** In every interleaving the invariant holds: in particular a writer that sleeps although there is work, or although
      the connection is closed, is still owed a Signal. */
  lemma {:induction false} RunKeepsInv(steps: seq<Step>)
    requires Legal(steps)
    ensures Inv(After(steps))
  {
    if steps != [] {
      var s, step := After(steps[..|steps| - 1]), steps[|steps| - 1];
      RunKeepsInv(steps[..|steps| - 1]);
      hide LockOwned, NoLostWakeup, Queueing, Ending, Logging, Next, Enabled;
      StepKeepsLock(s, step);
      StepKeepsWakeup(s, step);
      StepKeepsQueue(s, step);
      StepKeepsEnding(s, step);
      StepKeepsLogging(s, step);
    }
  }

  // ---- Main results ----

  /** Once nobody owes a Signal any more, a sleeping writer has nothing to do. */
  lemma NeverStuckWithWork(steps: seq<Step>)
    requires Legal(steps)
    requires var s := After(steps); s.writer.Asleep? && !WakeupOwed(s)
    ensures var s := After(steps); s.bufs == [] && !s.closed
  {
    RunKeepsInv(steps);
  }

  /** At any time, what was written, what is in flight and what is queued are together, in order and each once, the
      buffers of the calls that got past the closed check: those that have just been queued, owe their Signal or have
      returned true. */
  lemma WritesInOrder(steps: seq<Step>)
    requires Legal(steps)
    ensures var s := After(steps);
            && Queued(s.log) == s.written + InFlight(s.writer) + s.bufs
            && forall t, bs :: t in s.calls && s.calls[t] == SendReturned(bs, true) ==> Accepted(t, bs) in s.log
    ensures var s := After(steps);
            forall t, bs :: t in s.calls && s.calls[t] == SendReturned(bs, false) ==> NotLogged(s.log, t)
    ensures var s := After(steps);
            && (forall i, j :: 0 <= i < j < |s.log| ==> s.log[i].t != s.log[j].t)
            && forall i :: 0 <= i < |s.log| ==> s.log[i].t in s.calls && PastCheck(s.calls[s.log[i].t], s.log[i].bs)
  {
    RunKeepsInv(steps);
    var s := After(steps);
    forall i | 0 <= i < |s.log|
      ensures s.log[i].t in s.calls && PastCheck(s.calls[s.log[i].t], s.log[i].bs)
    {
      LoggedOnce(s, i);
    }
  }

  /** The call's buffers were queued. */
  predicate PastCheck(pc: CallPc, bs: seq<Buf>) {
    pc == SendAppended(bs) || pc == SendOwesSignal(bs) || pc == SendReturned(bs, true)
  }

  lemma LoggedOnce(s: State, i: nat)
    requires Logging(s) && i < |s.log|
    ensures s.log[i].t in s.calls && PastCheck(s.calls[s.log[i].t], s.log[i].bs)
  {
    var t := s.log[i].t;
    assert s.log[i] in s.log;
    assert LoggedAs(s.log, t, s.calls[t]);
  }

  /** A writer that ends without an error has written and flushed everything ever queued, and nothing can follow. */
  lemma CleanEndWritesAll(steps: seq<Step>)
    requires Legal(steps)
    requires var s := After(steps); s.writer.Done? && !s.writer.failed
    ensures var s := After(steps); s.closed && s.written == Queued(s.log) && s.flushed == |s.written|
  {
    RunKeepsInv(steps);
  }

  /** After a write error, what was written is a prefix of what was queued. */
  lemma ErrorWritesPrefix(steps: seq<Step>)
    requires Legal(steps)
    ensures var s := After(steps); s.flushed <= |s.written| && s.written[..s.flushed] <= s.written <= Queued(s.log)
  {
    RunKeepsInv(steps);
  }

  // ---- Shutdown ----

  /** A Shutdown that is past its own closed check. */
  predicate StopTookEffect(pc: CallPc) {
    pc.StopOwesSignal? || pc.StopSignalled? || pc.StopReturned?
  }

  predicate StopsClosed(s: State) {
    forall t :: t in s.calls && StopTookEffect(s.calls[t]) ==> s.closed
  }

  lemma StepKeepsStops(s: State, step: Step)
    requires StopsClosed(s) && Enabled(s, step)
    ensures StopsClosed(Next(s, step)) && (s.closed ==> Next(s, step).closed)
  {
  }

  /** In every run, the connection is closed once any Shutdown has taken effect, and all the more once one has
      returned. */
  lemma {:induction false} ShutdownCloses(steps: seq<Step>)
    requires Legal(steps)
    ensures StopsClosed(After(steps))
  {
    if steps != [] {
      ShutdownCloses(steps[..|steps| - 1]);
      StepKeepsStops(After(steps[..|steps| - 1]), steps[|steps| - 1]);
    }
  }

  /** A call that has not got past the closed check. */
  predicate NotPastCheck(s: State, t: Tid) {
    t in s.calls ==>
      !s.calls[t].SendAppended? && !s.calls[t].SendOwesSignal? && (s.calls[t].SendReturned? ==> !s.calls[t].ok)
  }

  lemma ClosedRefuses(s: State, step: Step, t: Tid)
    requires s.closed && NotPastCheck(s, t) && Enabled(s, step)
    ensures Next(s, step).closed && NotPastCheck(Next(s, step), t)
  {
  }

  /** In every run, a Send that had not got past the check when the connection was closed returns false, if it
      returns, and all calls that begin later do: nothing is queued any more. */
  lemma {:induction false} ClosedSendsRefused(steps: seq<Step>, k: nat, t: Tid)
    requires Legal(steps) && k <= |steps| && Legal(steps[..k])
    requires After(steps[..k]).closed && NotPastCheck(After(steps[..k]), t)
    ensures After(steps).closed && NotPastCheck(After(steps), t)
  {
    if k == |steps| {
      assert steps[..k] == steps;
    } else {
      var before := steps[..|steps| - 1];
      assert before[..k] == steps[..k];
      ClosedSendsRefused(before, k, t);
      ClosedRefuses(After(before), steps[|steps| - 1], t);
    }
  }

  predicate RefusedClosed(s: State) {
    forall t :: t in s.calls && s.calls[t].SendReturned? && !s.calls[t].ok ==> s.closed
  }

  /** And only then: a Send returns false only on a closed connection. */
  lemma {:induction false} OpenSendsAccepted(steps: seq<Step>)
    requires Legal(steps)
    ensures RefusedClosed(After(steps))
  {
    if steps != [] {
      OpenSendsAccepted(steps[..|steps| - 1]);
      StepKeepsRefused(After(steps[..|steps| - 1]), steps[|steps| - 1]);
    }
  }

  lemma StepKeepsRefused(s: State, step: Step)
    requires RefusedClosed(s) && Enabled(s, step)
    ensures RefusedClosed(Next(s, step))
  {
  }

  /** So after any Shutdown has returned, every Send that begins then and returns has returned false. */
  lemma SendAfterShutdown(steps: seq<Step>, k: nat, stop: Tid, t: Tid)
    requires Legal(steps) && k <= |steps| && Legal(steps[..k])
    requires var s := After(steps[..k]); stop in s.calls && s.calls[stop].StopReturned? && t !in s.calls
    requires var s := After(steps); t in s.calls && s.calls[t].SendReturned?
    ensures !After(steps).calls[t].ok
  {
    ShutdownCloses(steps[..k]);
    ClosedSendsRefused(steps, k, t);
  }

  // ---- Batches ----

  /** The writer goes on without a buffer only because the connection is closed. */
  predicate NoIdleBatch(s: State) {
    && (s.writer.Taken? ==> s.writer.batch != [] || s.writer.closed)
    && (s.writer.Writing? ==> s.writer.batch != [] || s.writer.closed)
  }

  lemma {:induction false} TakesWork(steps: seq<Step>)
    requires Legal(steps)
    ensures NoIdleBatch(After(steps))
  {
    if steps != [] {
      TakesWork(steps[..|steps| - 1]);
      StepTakesWork(After(steps[..|steps| - 1]), steps[|steps| - 1]);
    }
  }

  lemma StepTakesWork(s: State, step: Step)
    requires NoIdleBatch(s) && Enabled(s, step)
    ensures NoIdleBatch(Next(s, step))
  {
  }

  // ---- Termination after Shutdown ----

  /** A bound on the writer's steps once the connection is closed. */
  function Rank(s: State): nat {
    match s.writer
    case NotStarted => |s.bufs| + 9
    case NeverStarted => 0
    case Asleep => |s.bufs| + 8
    case WantLock => |s.bufs| + 7
    case Woken => |s.bufs| + 7
    case Checking => |s.bufs| + 6
    case Taken(batch, closed) => |batch| + 5 + (if closed then 0 else |s.bufs| + 8)
    case Writing(batch, i, closed) =>
      (if i <= |batch| then |batch| - i else 0) + 4 + (if closed then 0 else |s.bufs| + 8)
    case Flushing(closed) => 3 + (if closed then 0 else |s.bufs| + 8)
    case FailWantLock(_) => 2
    case FailLocked(_) => 1
    case Done(_, _) => 0
  }

  lemma ClosedWriterStepAdvances(s: State)
    requires Queueing(s) && Ending(s) && s.closed && Enabled(s, WriterStep)
    ensures Rank(OnWriter(s)) < Rank(s)
  {
    hide Queued, InFlight;
  }

  /** Once closed, the connection stays closed; the writer's own steps bring it closer to its end and nobody else's
      push it back. */
  lemma ClosedWriterAdvances(s: State, step: Step)
    requires Queueing(s) && Ending(s) && s.closed && Enabled(s, step)
    ensures Next(s, step).closed
    ensures Rank(Next(s, step)) <= Rank(s) - (if step.WriterStep? || step.WriteError? then 1 else 0)
  {
    hide Queued, InFlight;
    if step.WriterStep? {
      ClosedWriterStepAdvances(s);
    }
  }

  function CallRank(pc: CallPc): nat {
    match pc
    case SendWantLock(_) => 4
    case SendLocked(_) => 3
    case SendAppended(_) => 2
    case SendOwesSignal(_) => 1
    case SendReturned(_, _) => 0
    case StopWantLock => 4
    case StopLocked => 3
    case StopOwesSignal => 2
    case StopSignalled => 1
    case StopReturned => 0
  }

  function Measure(s: State): nat {
    Rank(s) + |Work(s.calls, CallRank)|
  }

  /** A step of a thread that is already there, as opposed to a new call. */
  predicate OfRunningThread(step: Step) {
    step.Advance? || step.WriterStep? || step.WriteError?
  }

  lemma RunningThreadAdvances(s: State, step: Step)
    requires Queueing(s) && Ending(s) && s.closed && Enabled(s, step)
    ensures OfRunningThread(step) ==> Measure(Next(s, step)) < Measure(s)
    ensures step.Call? ==> Measure(Next(s, step)) <= Measure(s) + 4
    ensures step.PartialFlush? ==> Measure(Next(s, step)) == Measure(s)
  {
    ClosedWriterAdvances(s, step);
    match step
    case Advance(t) => CallAdvances(s, t);
    case Call(t, pc) => WorkStarts(s.calls, t, pc, CallRank);
    case _ =>
  }

  lemma CallAdvances(s: State, t: Tid)
    requires Enabled(s, Advance(t))
    ensures |Work(OnAdvance(s, t).calls, CallRank)| < |Work(s.calls, CallRank)|
  {
    CallLowersRank(s, t);
    hide OnAdvance, CallRank;
    WorkAdvances(s.calls, t, OnAdvance(s, t).calls[t], CallRank);
  }

  lemma CallLowersRank(s: State, t: Tid)
    requires Enabled(s, Advance(t))
    ensures var u := OnAdvance(s, t);
            && t in u.calls && u.calls == s.calls[t := u.calls[t]]
            && CallRank(u.calls[t]) < CallRank(s.calls[t])
  {
  }

  /** How many steps of running threads, of the writer alone, and of new calls a run has. */
  function ThreadSteps(steps: seq<Step>): nat {
    if steps == [] then 0 else ThreadSteps(steps[..|steps| - 1]) + if OfRunningThread(steps[|steps| - 1]) then 1 else 0
  }

  function WriterSteps(steps: seq<Step>): nat {
    if steps == [] then 0
    else
      var last := steps[|steps| - 1];
      WriterSteps(steps[..|steps| - 1]) + if last.WriterStep? || last.WriteError? then 1 else 0
  }

  function CallSteps(steps: seq<Step>): nat {
    if steps == [] then 0 else CallSteps(steps[..|steps| - 1]) + if steps[|steps| - 1].Call? then 1 else 0
  }

  /** In any run whatsoever, once the connection is closed, the writer takes only so many more steps, and all threads
      together only so many more for each further call. */
  lemma {:induction false} ClosedRunsEnd(steps: seq<Step>, k: nat)
    requires Legal(steps) && k <= |steps| && Legal(steps[..k]) && After(steps[..k]).closed
    ensures After(steps).closed
    ensures WriterSteps(steps) - WriterSteps(steps[..k]) <= Rank(After(steps[..k])) - Rank(After(steps))
    ensures ThreadSteps(steps) - ThreadSteps(steps[..k])
            <= Measure(After(steps[..k])) - Measure(After(steps)) + 4 * (CallSteps(steps) - CallSteps(steps[..k]))
  {
    if k == |steps| {
      assert steps[..k] == steps;
    } else {
      var before := steps[..|steps| - 1];
      assert before[..k] == steps[..k];
      ClosedRunsEnd(before, k);
      RunKeepsInv(before);
      hide Measure, Rank, Enabled, LockOwned, NoLostWakeup, Queueing, Ending, Logging, Next;
      ClosedWriterAdvances(After(before), steps[|steps| - 1]);
      RunningThreadAdvances(After(before), steps[|steps| - 1]);
    }
  }

  /** And when none of them can take a step any more, the writer has ended; unless writing failed or never began,
      everything ever queued has been written and flushed. */
  lemma ClosedEndsWritten(steps: seq<Step>)
    requires Legal(steps) && After(steps).closed
    requires forall step :: OfRunningThread(step) ==> !Enabled(After(steps), step)
    ensures var s := After(steps);
            && (s.writer.Done? || s.writer.NeverStarted?)
            && (s.writer.Done? && !s.writer.failed ==> s.written == Queued(s.log) && s.flushed == |s.written|)
  {
    RunKeepsInv(steps);
    var s := After(steps);
    if !s.writer.Done? && !s.writer.NeverStarted? {
      ClosedNeverStuck(s);
      assert !Enabled(s, WriterStep);
      var t :| Enabled(s, Advance(t));
      assert OfRunningThread(Advance(t));
    }
  }

  /** In any run in which a Shutdown has returned and no running thread can take a step, the writer has ended, and
      unless writing failed or never began everything queued is written and flushed. */
  lemma ShutdownEndsWritten(steps: seq<Step>, stop: Tid)
    requires Legal(steps) && stop in After(steps).calls && After(steps).calls[stop].StopReturned?
    requires forall step :: OfRunningThread(step) ==> !Enabled(After(steps), step)
    ensures var s := After(steps);
            && (s.writer.Done? || s.writer.NeverStarted?)
            && (s.writer.Done? && !s.writer.failed ==> s.written == Queued(s.log) && s.flushed == |s.written|)
  {
    ShutdownCloses(steps);
    ClosedEndsWritten(steps);
  }

  /** As long as a closed connection's writer has not ended, it or a call already under way can take a step. */
  lemma ClosedNeverStuck(s: State)
    requires Inv(s) && s.closed && !s.writer.Done? && !s.writer.NeverStarted?
    ensures Enabled(s, WriterStep) || exists t :: Enabled(s, Advance(t))
  {
    if s.mutex.Some? && s.mutex.value.Caller? {
      assert Enabled(s, Advance(s.mutex.value.t));
    } else if s.writer.Asleep? {
      var t :| t in s.calls && OwesSignal(s.calls[t]);
      assert Enabled(s, Advance(t));
    }
  }
}
