/**
 The event loop, as interleaved steps of its threads.

 Lock, Unlock, Wait and Signal are steps of their own: RunInLoop and Close both signal after they have unlocked.
 Functors are opaque. While one runs, the loop's own thread may make any number of further calls of RunInLoop
 and Close, one after the other. RunInLoop does not look at the closed flag.
 */
module EventLoop {
  import opened Options
  import opened Threads

  type Functor = nat

  /** One use of RunInLoop: the call and the functor it passed. */
  datatype Job = Job(t: Tid, f: Functor)

  /** `closed` is the flag as read together with the batch; `inner` is the running functor's latest call. */
  datatype LoopPc =
    | WantLock
    | Checking
    | Asleep
    | Woken
    | Taken(batch: seq<Job>, closed: bool)
    | Ready(batch: seq<Job>, i: nat, closed: bool)
    | Running(batch: seq<Job>, i: nat, closed: bool, inner: Option<Tid>)
    | Returned

  datatype CallPc =
    | RunWantLock(f: Functor)
    | RunLocked(f: Functor)
    | RunAppended(f: Functor)
    | RunOwesSignal(f: Functor)
    | RunReturned(f: Functor)
    | CloseWantLock
    | CloseLocked
    | CloseSet
    | CloseOwesSignal
    | CloseReturned

  /** `log` records every job in the order the functors were appended, `ran` those started. `mark` is the length of
      the log when Close took effect. */
  datatype State = State(
    mutex: Option<Owner>, functors: seq<Job>, closed: bool,
    loop: LoopPc, calls: map<Tid, CallPc>,
    log: seq<Job>, ran: seq<Job>, mark: Option<nat>)

  datatype Step =
    | Call(t: Tid, pc: CallPc)
    | InnerCall(t: Tid, pc: CallPc)
    | Advance(t: Tid)
    | LoopStep

  const INIT := State(None, [], false, WantLock, map[], [], [], None)

  function Signal(s: State): State {
    if s.loop == Asleep then s.(loop := Woken) else s
  }

  function At(s: State, t: Tid, pc: CallPc): State {
    s.(calls := s.calls[t := pc])
  }

  predicate WantsLock(pc: CallPc) {
    pc.RunWantLock? || pc.CloseWantLock?
  }

  predicate HasReturned(pc: CallPc) {
    pc.RunReturned? || pc.CloseReturned?
  }

  predicate LoopWantsLock(pc: LoopPc) {
    pc.WantLock? || pc.Woken?
  }

  /** No call made by the running functor is still under way. */
  predicate InnerDone(s: State)
    requires s.loop.Running?
  {
    s.loop.inner.Some? && s.loop.inner.value in s.calls ==> HasReturned(s.calls[s.loop.inner.value])
  }

  predicate Enabled(s: State, step: Step) {
    match step
    case Call(t, pc) => t !in s.calls && WantsLock(pc)
    case InnerCall(t, pc) => t !in s.calls && WantsLock(pc) && s.loop.Running? && InnerDone(s)
    case Advance(t) => t in s.calls && !HasReturned(s.calls[t]) && (WantsLock(s.calls[t]) ==> s.mutex.None?)
    case LoopStep => !s.loop.Asleep? && !s.loop.Returned? && (LoopWantsLock(s.loop) ==> s.mutex.None?)
                     && (s.loop.Running? ==> InnerDone(s))
  }

  function OnAdvance(s: State, t: Tid): State
    requires Enabled(s, Advance(t))
  {
    match s.calls[t]
    case RunWantLock(f) => At(s.(mutex := Some(Caller(t))), t, RunLocked(f))
    case RunLocked(f) => At(s.(functors := s.functors + [Job(t, f)], log := s.log + [Job(t, f)]), t, RunAppended(f))
    case RunAppended(f) => At(s.(mutex := None), t, RunOwesSignal(f))
    case RunOwesSignal(f) => At(Signal(s), t, RunReturned(f))
    case CloseWantLock => At(s.(mutex := Some(Caller(t))), t, CloseLocked)
    case CloseLocked =>
      if s.closed then At(s.(mutex := None), t, CloseReturned)
      else At(s.(closed := true, mark := Some(|s.log|)), t, CloseSet)
    case CloseSet => At(s.(mutex := None), t, CloseOwesSignal)
    case CloseOwesSignal => At(Signal(s), t, CloseReturned)
    case _ => s
  }

  function OnLoop(s: State): State {
    match s.loop
    case WantLock => s.(mutex := Some(Worker), loop := Checking)
    case Woken => s.(mutex := Some(Worker), loop := Checking)
    case Checking =>
      if !s.closed && s.functors == [] then s.(mutex := None, loop := Asleep)
      else s.(functors := [], loop := Taken(s.functors, s.closed))
    case Taken(batch, closed) => s.(mutex := None, loop := Ready(batch, 0, closed))
    case Ready(batch, i, closed) =>
      if i < |batch| then s.(ran := s.ran + [batch[i]], loop := Running(batch, i, closed, None))
      else s.(loop := if closed then Returned else WantLock)
    case Running(batch, i, closed, _) => s.(loop := Ready(batch, i + 1, closed))
    case _ => s
  }

  function Next(s: State, step: Step): State
    requires Enabled(s, step)
  {
    match step
    case Call(t, pc) => At(s, t, pc)
    case InnerCall(t, pc) => At(s.(loop := s.loop.(inner := Some(t))), t, pc)
    case Advance(t) => OnAdvance(s, t)
    case LoopStep => OnLoop(s)
  }

  predicate Legal(steps: seq<Step>)
    decreases |steps|, 0
  {
    steps == [] || (Legal(steps[..|steps| - 1]) && Enabled(After(steps[..|steps| - 1]), steps[|steps| - 1]))
  }

  function After(steps: seq<Step>): State
    requires Legal(steps)
    decreases |steps|, 1
  {
    if steps == [] then INIT else Next(After(steps[..|steps| - 1]), steps[|steps| - 1])
  }

  // ---- Invariant ----

  predicate HoldsLock(pc: CallPc) {
    pc.RunLocked? || pc.RunAppended? || pc.CloseLocked? || pc.CloseSet?
  }

  predicate LockOwned(s: State) {
    && (s.loop.Checking? || s.loop.Taken? <==> s.mutex == Some(Worker))
    && (forall t :: t in s.calls ==> (HoldsLock(s.calls[t]) <==> s.mutex == Some(Caller(t))))
    && (s.mutex.Some? && s.mutex.value.Caller? ==> s.mutex.value.t in s.calls)
  }

  predicate OwesSignal(pc: CallPc) {
    pc.RunAppended? || pc.RunOwesSignal? || pc.CloseSet? || pc.CloseOwesSignal?
  }

  ghost predicate WakeupOwed(s: State) {
    exists t :: t in s.calls && OwesSignal(s.calls[t])
  }

  ghost predicate NoLostWakeup(s: State) {
    s.loop.Asleep? && (s.functors != [] || s.closed) ==> WakeupOwed(s)
  }

  /** What the loop has taken but not yet started. */
  function Rest(pc: LoopPc): seq<Job> {
    match pc
    case Taken(batch, _) => batch
    case Ready(batch, i, _) => if i <= |batch| then batch[i..] else []
    case Running(batch, i, _, _) => if i < |batch| then batch[i + 1..] else []
    case _ => []
  }

  predicate InOrder(s: State) {
    && s.log == s.ran + Rest(s.loop) + s.functors
    && (s.loop.Ready? ==> s.loop.i <= |s.loop.batch|)
    && (s.loop.Running? ==> s.loop.i < |s.loop.batch| && s.ran != [] && s.ran[|s.ran| - 1] == s.loop.batch[s.loop.i])
  }

  /** The loop saw the closed flag when it took the batch it is on. */
  predicate LastBatch(pc: LoopPc) {
    (pc.Taken? && pc.closed) || (pc.Ready? && pc.closed) || (pc.Running? && pc.closed) || pc.Returned?
  }

  predicate Ending(s: State) {
    && (s.closed <==> s.mark.Some?)
    && (s.closed ==> s.mark.value <= |s.log|)
    && (LastBatch(s.loop) ==> s.closed && s.mark.value <= |s.ran| + |Rest(s.loop)|)
  }

  predicate NotLogged(log: seq<Job>, t: Tid) {
    forall j :: j in log ==> j.t != t
  }

  predicate LoggedAs(log: seq<Job>, t: Tid, pc: CallPc) {
    match pc
    case RunAppended(f) => Job(t, f) in log
    case RunOwesSignal(f) => Job(t, f) in log
    case RunReturned(f) => Job(t, f) in log
    case _ => NotLogged(log, t)
  }

  predicate Logging(s: State) {
    && (forall t :: t in s.calls ==> LoggedAs(s.log, t, s.calls[t]))
    && (forall j :: j in s.log ==> j.t in s.calls)
    && forall i, j :: 0 <= i < j < |s.log| ==> s.log[i].t != s.log[j].t
  }

  ghost predicate Inv(s: State) {
    LockOwned(s) && NoLostWakeup(s) && InOrder(s) && Ending(s) && Logging(s)
  }

  lemma CallKeepsLock(s: State, t: Tid)
    requires LockOwned(s) && Enabled(s, Advance(t))
    ensures LockOwned(OnAdvance(s, t))
  {
  }

  lemma StepKeepsLock(s: State, step: Step)
    requires LockOwned(s) && Enabled(s, step)
    ensures LockOwned(Next(s, step))
  {
    hide OnAdvance;
    if step.Advance? {
      CallKeepsLock(s, step.t);
    }
  }

  /** The lock protects: while a thread holds the mutex, no step of another one changes the queue or the flag. */
  lemma LockProtects(s: State, step: Step)
    requires LockOwned(s) && Enabled(s, step) && s.mutex.Some?
    requires s.mutex == Some(Worker) ==> step != LoopStep
    requires s.mutex.value.Caller? ==> step != Advance(s.mutex.value.t)
    ensures var u := Next(s, step); u.functors == s.functors && u.closed == s.closed && u.log == s.log
  {
  }

  lemma StepKeepsWakeup(s: State, step: Step)
    requires LockOwned(s) && NoLostWakeup(s) && Enabled(s, step)
    ensures NoLostWakeup(Next(s, step))
  {
    var u := Next(s, step);
    if u.loop.Asleep? && (u.functors != [] || u.closed) {
      if step.Advance? && OwesSignal(u.calls[step.t]) {
        assert WakeupOwed(u);
      } else if s.loop.Asleep? && (s.functors != [] || s.closed) {
        var t :| t in s.calls && OwesSignal(s.calls[t]);
        assert t in u.calls && OwesSignal(u.calls[t]);
      }
    }
  }

  lemma CallKeepsOrder(s: State, t: Tid)
    requires InOrder(s) && Enabled(s, Advance(t))
    ensures InOrder(OnAdvance(s, t))
  {
    CallLeavesLoop(s, t);
    hide OnAdvance;
    if s.calls[t].RunLocked? {
      var j := Job(t, s.calls[t].f);
      assert s.ran + Rest(s.loop) + s.functors + [j] == s.ran + Rest(s.loop) + (s.functors + [j]);
    }
    hide Rest;
  }

  lemma CallLeavesLoop(s: State, t: Tid)
    requires Enabled(s, Advance(t))
    ensures var u := OnAdvance(s, t);
            && u.ran == s.ran && (u.loop == s.loop || (s.loop == Asleep && u.loop == Woken))
            && (if s.calls[t].RunLocked?
                then u.log == s.log + [Job(t, s.calls[t].f)] && u.functors == s.functors + [Job(t, s.calls[t].f)]
                else u.log == s.log && u.functors == s.functors)
  {
  }

  lemma StartKeepsOrder(s: State)
    requires InOrder(s) && s.loop.Ready? && s.loop.i < |s.loop.batch|
    ensures InOrder(OnLoop(s))
  {
    var batch, i := s.loop.batch, s.loop.i;
    assert batch[i..] == [batch[i]] + batch[i + 1..];
    assert s.ran + batch[i..] + s.functors == s.ran + [batch[i]] + batch[i + 1..] + s.functors;
  }

  lemma TakeKeepsOrder(s: State)
    requires InOrder(s) && s.loop.Checking?
    ensures InOrder(OnLoop(s))
  {
    assert s.ran + [] + s.functors == s.ran + s.functors + [];
  }

  lemma LoopKeepsOrder(s: State)
    requires InOrder(s) && Enabled(s, LoopStep)
    ensures InOrder(OnLoop(s))
  {
    if s.loop.Ready? && s.loop.i < |s.loop.batch| {
      StartKeepsOrder(s);
    } else if s.loop.Checking? {
      TakeKeepsOrder(s);
    }
  }

  lemma StepKeepsOrder(s: State, step: Step)
    requires InOrder(s) && Enabled(s, step)
    ensures InOrder(Next(s, step))
  {
    hide OnAdvance, OnLoop;
    match step
    case Advance(t) => CallKeepsOrder(s, t);
    case LoopStep => LoopKeepsOrder(s);
    case _ =>
  }

  lemma StepKeepsEnding(s: State, step: Step)
    requires InOrder(s) && Ending(s) && Enabled(s, step)
    ensures Ending(Next(s, step))
  {
  }

  lemma OthersLogged(log: seq<Job>, entry: Job, t: Tid, pc: CallPc)
    requires LoggedAs(log, t, pc) && entry.t != t
    ensures LoggedAs(log + [entry], t, pc)
  {
  }

  /** What the step makes of the log and of the call itself. */
  lemma LogAfter(s: State, t: Tid)
    requires Enabled(s, Advance(t)) && LoggedAs(s.log, t, s.calls[t])
    ensures var u := OnAdvance(s, t);
            && u.calls == s.calls[t := u.calls[t]] && LoggedAs(u.log, t, u.calls[t])
            && (s.calls[t].RunLocked? ==> u.log == s.log + [Job(t, s.calls[t].f)] && NotLogged(s.log, t))
            && (!s.calls[t].RunLocked? ==> u.log == s.log)
  {
  }

  lemma CallKeepsLogging(s: State, t: Tid)
    requires Logging(s) && Enabled(s, Advance(t))
    ensures Logging(OnAdvance(s, t))
  {
    var u := OnAdvance(s, t);
    assert LoggedAs(s.log, t, s.calls[t]);
    LogAfter(s, t);
    hide OnAdvance, LoggedAs;
    forall o | o in u.calls
      ensures LoggedAs(u.log, o, u.calls[o])
    {
      if o != t {
        assert LoggedAs(s.log, o, s.calls[o]);
        if u.log != s.log {
          OthersLogged(s.log, u.log[|s.log|], o, s.calls[o]);
        }
      }
    }
  }

  lemma StepKeepsLogging(s: State, step: Step)
    requires Logging(s) && Enabled(s, step)
    ensures Logging(Next(s, step))
  {
    hide OnAdvance;
    if step.Advance? {
      CallKeepsLogging(s, step.t);
    }
  }

  lemma {:induction false} RunKeepsInv(steps: seq<Step>)
    requires Legal(steps)
    ensures Inv(After(steps))
  {
    if steps != [] {
      var s, step := After(steps[..|steps| - 1]), steps[|steps| - 1];
      RunKeepsInv(steps[..|steps| - 1]);
      hide LockOwned, NoLostWakeup, InOrder, Ending, Logging, Next, Enabled;
      StepKeepsLock(s, step);
      StepKeepsWakeup(s, step);
      StepKeepsOrder(s, step);
      StepKeepsEnding(s, step);
      StepKeepsLogging(s, step);
    }
  }

  // ---- Main results ----

  /** Once nobody owes a Signal any more, a sleeping loop has nothing to run and is not closed. */
  lemma NeverStuckWithWork(steps: seq<Step>)
    requires Legal(steps)
    requires var s := After(steps); s.loop.Asleep? && !WakeupOwed(s)
    ensures var s := After(steps); s.functors == [] && !s.closed
  {
    RunKeepsInv(steps);
  }

  /** Functors start in the order in which they were appended, none of them twice, and the one that is running is the
      last that was started. */
  lemma RunsInOrderOnce(steps: seq<Step>)
    requires Legal(steps)
    ensures var s := After(steps);
            && s.ran <= s.log
            && (forall i, j :: 0 <= i < j < |s.ran| ==> s.ran[i].t != s.ran[j].t)
            && (forall t, f :: t in s.calls && s.calls[t] == RunReturned(f) ==> Job(t, f) in s.log)
            && (s.loop.Running? ==>
                  && s.ran != [] && s.loop.i < |s.loop.batch|
                  && s.ran[|s.ran| - 1] == s.loop.batch[s.loop.i])
  {
    RunKeepsInv(steps);
  }

  lemma StepGrowsLog(s: State, step: Step)
    requires Enabled(s, step)
    requires Ending(s)
    ensures s.log <= Next(s, step).log
    ensures s.closed ==> Next(s, step).closed && Next(s, step).mark == s.mark
    ensures !s.closed && Next(s, step).closed ==> Next(s, step).mark == Some(|s.log|)
  {
  }

  /** Close takes effect once: the mark counts at least what had been appended at any time before it. */
  lemma {:induction false} MarkCountsEarlier(steps: seq<Step>, k: nat)
    requires Legal(steps) && k <= |steps| && Legal(steps[..k])
    requires !After(steps[..k]).closed
    ensures After(steps[..k]).log <= After(steps).log
    ensures After(steps).mark.Some? ==> |After(steps[..k]).log| <= After(steps).mark.value
  {
    RunKeepsInv(steps);
    if k == |steps| {
      assert steps[..k] == steps;
    } else {
      var before := steps[..|steps| - 1];
      assert before[..k] == steps[..k];
      MarkCountsEarlier(before, k);
      RunKeepsInv(before);
      StepGrowsLog(After(before), steps[|steps| - 1]);
    }
  }

  /** When Loop has returned, everything appended before Close took effect has run, in order. */
  lemma DrainsBeforeReturn(steps: seq<Step>, k: nat)
    requires Legal(steps) && k <= |steps| && Legal(steps[..k])
    requires After(steps).loop.Returned? && !After(steps[..k]).closed
    ensures After(steps[..k]).log <= After(steps).ran
  {
    RunKeepsInv(steps);
    MarkCountsEarlier(steps, k);
  }

  // ---- Close ----

  /** A Close that is past its own closed check. */
  predicate CloseTookEffect(pc: CallPc) {
    pc.CloseSet? || pc.CloseOwesSignal? || pc.CloseReturned?
  }

  predicate ClosesClosed(s: State) {
    forall t :: t in s.calls && CloseTookEffect(s.calls[t]) ==> s.closed
  }

  lemma StepKeepsCloses(s: State, step: Step)
    requires ClosesClosed(s) && Enabled(s, step)
    ensures ClosesClosed(Next(s, step)) && (s.closed ==> Next(s, step).closed)
  {
  }

  /** In every run, the loop is closed once any Close has taken effect, and all the more once one has returned. */
  lemma {:induction false} CloseCloses(steps: seq<Step>)
    requires Legal(steps)
    ensures ClosesClosed(After(steps))
  {
    if steps != [] {
      CloseCloses(steps[..|steps| - 1]);
      StepKeepsCloses(After(steps[..|steps| - 1]), steps[|steps| - 1]);
    }
  }

  // ---- Batches ----

  /** The loop goes on without a functor only because it is closed. */
  predicate NoIdleBatch(s: State) {
    && (s.loop.Taken? ==> s.loop.batch != [] || s.loop.closed)
    && (s.loop.Ready? ==> s.loop.batch != [] || s.loop.closed)
  }

  lemma {:induction false} TakesWork(steps: seq<Step>)
    requires Legal(steps)
    ensures NoIdleBatch(After(steps))
  {
    if steps != [] {
      TakesWork(steps[..|steps| - 1]);
      RunKeepsInv(steps[..|steps| - 1]);
      StepTakesWork(After(steps[..|steps| - 1]), steps[|steps| - 1]);
    }
  }

  lemma StepTakesWork(s: State, step: Step)
    requires NoIdleBatch(s) && InOrder(s) && Enabled(s, step)
    ensures NoIdleBatch(Next(s, step))
  {
    hide Rest;
  }

  // ---- Functors that never run ----

  /** Where in the run the loop, having seen the closed flag, took its last batch: what it has run or will run is
      exactly what had been appended by then. */
  lemma {:induction false} LastTake(steps: seq<Step>) returns (k: nat)
    requires Legal(steps) && LastBatch(After(steps).loop)
    ensures k < |steps| && steps[k] == LoopStep && Legal(steps[..k])
    ensures var s, t := After(steps), After(steps[..k]);
            && t.loop == Checking && t.closed
            && t.log <= s.log && s.ran + Rest(s.loop) == t.log
  {
    var n := |steps| - 1;
    var before, step := steps[..n], steps[n];
    var s := After(before);
    RunKeepsInv(before);
    if LastBatch(s.loop) {
      k := LastTake(before);
      assert before[..k] == steps[..k];
      LastBatchStep(s, step);
      StepGrowsLog(s, step);
    } else {
      k := n;
      FirstLast(s, step);
    }
  }

  lemma FirstLast(s: State, step: Step)
    requires InOrder(s) && Enabled(s, step) && !LastBatch(s.loop) && LastBatch(Next(s, step).loop)
    ensures step == LoopStep && s.loop == Checking && s.closed
    ensures var u := Next(s, step); u.log == s.log && u.ran + Rest(u.loop) == s.log
  {
  }

  /** When Loop has returned, a functor has run exactly if it was appended before the last batch was taken: those
      appended while that batch ran, or later, stay in the queue for ever. */
  lemma StrandedIff(steps: seq<Step>) returns (k: nat)
    requires Legal(steps) && After(steps).loop.Returned?
    ensures k < |steps| && Legal(steps[..k]) && After(steps[..k]).loop == Checking && After(steps[..k]).closed
    ensures var s, t := After(steps), After(steps[..k]);
            && s.ran == t.log && t.log <= s.log && s.functors == s.log[|t.log|..]
            && forall j :: j in s.log ==> (j in s.ran <==> j in t.log) && (j in s.ran <==> j !in s.functors)
  {
    RunKeepsInv(steps);
    k := LastTake(steps);
    var s, t := After(steps), After(steps[..k]);
    assert s.log == s.ran + s.functors;
    forall j | j in s.log
      ensures j in s.ran <==> j !in s.functors
    {
      RanOrQueued(s, j);
    }
  }

  lemma RanOrQueued(s: State, j: Job)
    requires Logging(s) && s.log == s.ran + s.functors && j in s.log
    ensures j in s.ran <==> j !in s.functors
  {
    assert forall a :: 0 <= a < |s.ran| ==> s.ran[a] == s.log[a];
    assert forall b :: 0 <= b < |s.functors| ==> s.functors[b] == s.log[|s.ran| + b];
  }

  lemma Then(steps: seq<Step>, step: Step) returns (more: seq<Step>)
    requires Legal(steps) && Enabled(After(steps), step)
    ensures more == steps + [step] && Legal(more) && After(more) == Next(After(steps), step)
  {
    more := steps + [step];
    assert more[..|steps|] == steps;
  }

  lemma StartsToClose() returns (steps: seq<Step>)
    ensures Legal(steps)
    ensures After(steps) == State(Some(Caller(0)), [], false, WantLock, map[0 := CloseLocked], [], [], None)
  {
    hide Legal, After;
    Nothing();
    steps := Then([], Call(0, CloseWantLock));
    assert After(steps).calls == map[0 := CloseWantLock];
    steps := Then(steps, Advance(0));
    assert After(steps).calls == map[0 := CloseLocked];
  }

  /** Thread 0 closes the loop before it starts. */
  lemma Closes() returns (steps: seq<Step>)
    ensures Legal(steps)
    ensures After(steps) == State(None, [], true, WantLock, map[0 := CloseReturned], [], [], Some(0))
  {
    hide Legal, After;
    steps := StartsToClose();
    steps := Then(steps, Advance(0));
    assert After(steps).calls == map[0 := CloseSet];
    steps := Then(steps, Advance(0));
    assert After(steps).calls == map[0 := CloseOwesSignal];
    steps := Then(steps, Advance(0));
    assert After(steps).calls == map[0 := CloseReturned];
  }

  /** The loop then takes its last, empty batch. */
  lemma ClosesEmpty() returns (steps: seq<Step>)
    ensures Legal(steps)
    ensures After(steps) == State(None, [], true, Ready([], 0, true), map[0 := CloseReturned], [], [], Some(0))
  {
    hide Legal, After;
    steps := Closes();
    steps := Then(steps, LoopStep);
    steps := Then(steps, LoopStep);
    steps := Then(steps, LoopStep);
  }

  lemma Nothing()
    ensures Legal([]) && After([]) == INIT
  {
  }

  /** A run in which RunInLoop accepts functor 7 and Loop returns without running it. */
  lemma StrandedRun() returns (steps: seq<Step>)
    ensures Legal(steps)
    ensures var s := After(steps);
            s.loop.Returned? && s.functors == [Job(1, 7)] && s.ran == [] && 1 in s.calls && s.calls[1] == RunReturned(7)
  {
    hide Legal, After;
    steps := ClosesEmpty();
    steps := Queues(steps);
    steps := Then(steps, LoopStep);
  }

  lemma Queues(steps: seq<Step>) returns (more: seq<Step>)
    requires Legal(steps) && After(steps).loop == Ready([], 0, true) && After(steps).mutex.None?
    requires After(steps).functors == [] && After(steps).ran == [] && 1 !in After(steps).calls
    ensures Legal(more)
    ensures var s := After(more);
            && s.loop == Ready([], 0, true) && s.functors == [Job(1, 7)] && s.ran == [] && s.mutex.None?
            && 1 in s.calls && s.calls[1] == RunReturned(7)
  {
    hide Legal, After;
    more := Then(steps, Call(1, RunWantLock(7)));
    more := Then(more, Advance(1));
    more := Appends(more);
  }

  lemma Appends(steps: seq<Step>) returns (more: seq<Step>)
    requires Legal(steps) && After(steps).loop == Ready([], 0, true)
    requires var s := After(steps); s.functors == [] && s.ran == [] && 1 in s.calls && s.calls[1] == RunLocked(7)
    ensures Legal(more)
    ensures var s := After(more);
            && s.loop == Ready([], 0, true) && s.functors == [Job(1, 7)] && s.ran == [] && s.mutex.None?
            && 1 in s.calls && s.calls[1] == RunReturned(7)
  {
    hide Legal, After;
    more := Then(steps, Advance(1));
    more := Then(more, Advance(1));
    more := Then(more, Advance(1));
  }

  // ---- Termination after Close ----

  /** A bound on the steps that the loop still takes once it is closed, if nothing else is queued. */
  function Rank(s: State): nat {
    match s.loop
    case Asleep => 2 * |s.functors| + 8
    case WantLock => 2 * |s.functors| + 7
    case Woken => 2 * |s.functors| + 7
    case Checking => 2 * |s.functors| + 6
    case Taken(batch, closed) => 2 * |batch| + 5 + Again(s, closed)
    case Ready(batch, i, closed) => 2 * (if i <= |batch| then |batch| - i else 0) + 4 + Again(s, closed)
    case Running(batch, i, closed, _) => 2 * (if i < |batch| then |batch| - i else 0) + 3 + Again(s, closed)
    case Returned => 0
  }

  function Again(s: State, closed: bool): nat {
    if closed then 0 else 2 * |s.functors| + 8
  }

  lemma ClosedLoopStepAdvances(s: State)
    requires InOrder(s) && Ending(s) && s.closed && Enabled(s, LoopStep)
    ensures Rank(OnLoop(s)) < Rank(s)
  {
    hide Rest;
  }

  /** Another call may queue one more functor, but only once. */
  lemma CallAddsLittle(s: State, t: Tid)
    requires s.closed && Enabled(s, Advance(t))
    ensures OnAdvance(s, t).closed && Rank(OnAdvance(s, t)) <= Rank(s) + (if s.calls[t].RunLocked? then 2 else 0)
  {
  }

  function CallRank(pc: CallPc): nat {
    match pc
    case RunWantLock(_) => 4
    case RunLocked(_) => 3
    case RunAppended(_) => 2
    case RunOwesSignal(_) => 1
    case RunReturned(_) => 0
    case CloseWantLock => 4
    case CloseLocked => 3
    case CloseSet => 2
    case CloseOwesSignal => 1
    case CloseReturned => 0
  }

  function Measure(s: State): nat {
    Rank(s) + 3 * |Work(s.calls, CallRank)|
  }

  /** A step of a thread that is already there, as opposed to a new call, from outside or from a functor. */
  predicate OfRunningThread(step: Step) {
    step.Advance? || step.LoopStep?
  }

  lemma RunningThreadAdvances(s: State, step: Step)
    requires InOrder(s) && Ending(s) && s.closed && Enabled(s, step)
    ensures Next(s, step).closed
    ensures OfRunningThread(step) ==> Measure(Next(s, step)) < Measure(s)
    ensures !OfRunningThread(step) ==> Measure(Next(s, step)) <= Measure(s) + 12
  {
    match step
    case Advance(t) =>
      CallAddsLittle(s, t);
      CallAdvances(s, t);
    case LoopStep => ClosedLoopStepAdvances(s);
    case Call(t, pc) => WorkStarts(s.calls, t, pc, CallRank);
    case InnerCall(t, pc) => WorkStarts(s.calls, t, pc, CallRank);
  }

  lemma CallAdvances(s: State, t: Tid)
    requires Enabled(s, Advance(t))
    ensures |Work(OnAdvance(s, t).calls, CallRank)| < |Work(s.calls, CallRank)|
  {
    CallLowersRank(s, t);
    hide OnAdvance, CallRank;
    WorkAdvances(s.calls, t, OnAdvance(s, t).calls[t], CallRank);
  }

  lemma CallLowersRank(s: State, t: Tid)
    requires Enabled(s, Advance(t))
    ensures var u := OnAdvance(s, t);
            && t in u.calls && u.calls == s.calls[t := u.calls[t]]
            && CallRank(u.calls[t]) < CallRank(s.calls[t])
  {
  }

  /** How many steps of running threads, of the loop alone, and of new calls a run has. */
  function ThreadSteps(steps: seq<Step>): nat {
    if steps == [] then 0 else ThreadSteps(steps[..|steps| - 1]) + if OfRunningThread(steps[|steps| - 1]) then 1 else 0
  }

  function LoopSteps(steps: seq<Step>): nat {
    if steps == [] then 0 else LoopSteps(steps[..|steps| - 1]) + if steps[|steps| - 1] == LoopStep then 1 else 0
  }

  function CallSteps(steps: seq<Step>): nat {
    if steps == [] then 0 else CallSteps(steps[..|steps| - 1]) + if OfRunningThread(steps[|steps| - 1]) then 0 else 1
  }

  /** In any run whatsoever, once the loop is closed, it and all calls together take only so many more steps for each
      further call, from outside or from a functor. */
  lemma {:induction false} ClosedRunsEnd(steps: seq<Step>, k: nat)
    requires Legal(steps) && k <= |steps| && Legal(steps[..k]) && After(steps[..k]).closed
    ensures After(steps).closed
    ensures ThreadSteps(steps) - ThreadSteps(steps[..k])
            <= Measure(After(steps[..k])) - Measure(After(steps)) + 12 * (CallSteps(steps) - CallSteps(steps[..k]))
  {
    if k == |steps| {
      assert steps[..k] == steps;
    } else {
      var before := steps[..|steps| - 1];
      assert before[..k] == steps[..k];
      ClosedRunsEnd(before, k);
      RunKeepsInv(before);
      hide Measure, Enabled, LockOwned, NoLostWakeup, InOrder, Ending, Logging, Next;
      RunningThreadAdvances(After(before), steps[|steps| - 1]);
    }
  }

  /** Once the loop is on its last batch, its own steps are bounded outright, whatever calls are made meanwhile. */
  lemma {:induction false} LastBatchEnds(steps: seq<Step>, k: nat)
    requires Legal(steps) && k <= |steps| && Legal(steps[..k]) && LastBatch(After(steps[..k]).loop)
    ensures LastBatch(After(steps).loop)
    ensures LoopSteps(steps) - LoopSteps(steps[..k]) <= Rank(After(steps[..k])) - Rank(After(steps))
  {
    if k == |steps| {
      assert steps[..k] == steps;
    } else {
      var before := steps[..|steps| - 1];
      assert before[..k] == steps[..k];
      LastBatchEnds(before, k);
      RunKeepsInv(before);
      hide Rank, Rest, LockOwned, NoLostWakeup, Ending, Logging, InOrder;
      LastBatchStep(After(before), steps[|steps| - 1]);
    }
  }

  lemma LastBatchStep(s: State, step: Step)
    requires InOrder(s) && Enabled(s, step) && LastBatch(s.loop)
    ensures var u := Next(s, step);
            && LastBatch(u.loop) && u.ran + Rest(u.loop) == s.ran + Rest(s.loop)
            && Rank(u) <= Rank(s) - (if step == LoopStep then 1 else 0)
  {
    hide OnLoop, OnAdvance, Rank, Rest, InOrder;
    match step
    case LoopStep =>
      LastBatchLoop(s);
      LastBatchLoopRank(s);
    case Advance(t) => LastBatchCall(s, t);
    case _ => LastBatchOther(s, step);
  }

  lemma LastBatchLoop(s: State)
    requires InOrder(s) && Enabled(s, LoopStep) && LastBatch(s.loop)
    ensures var u := OnLoop(s); LastBatch(u.loop) && u.ran + Rest(u.loop) == s.ran + Rest(s.loop)
  {
  }

  lemma LastBatchLoopRank(s: State)
    requires InOrder(s) && Enabled(s, LoopStep) && LastBatch(s.loop)
    ensures Rank(OnLoop(s)) < Rank(s)
  {
    hide Rest;
  }

  lemma LastBatchCall(s: State, t: Tid)
    requires Enabled(s, Advance(t)) && LastBatch(s.loop)
    ensures var u := OnAdvance(s, t); u.loop == s.loop && u.ran == s.ran && Rank(u) == Rank(s)
  {
  }

  lemma LastBatchOther(s: State, step: Step)
    requires Enabled(s, step) && LastBatch(s.loop) && !OfRunningThread(step)
    ensures var u := Next(s, step);
            LastBatch(u.loop) && u.ran == s.ran && Rest(u.loop) == Rest(s.loop) && Rank(u) == Rank(s)
  {
  }

  /** And when neither it nor they can take a step any more, Loop has returned. */
  lemma ClosedEndsReturned(steps: seq<Step>)
    requires Legal(steps) && After(steps).closed
    requires forall step :: OfRunningThread(step) ==> !Enabled(After(steps), step)
    ensures After(steps).loop.Returned?
  {
    RunKeepsInv(steps);
    var s := After(steps);
    if !s.loop.Returned? {
      ClosedNeverStuck(s);
      assert !Enabled(s, LoopStep);
      var t :| Enabled(s, Advance(t));
      assert OfRunningThread(Advance(t));
    }
  }

  /** In any run in which a Close has returned and neither the loop nor a call can take a step, Loop has returned. */
  lemma CloseEndsLoop(steps: seq<Step>, close: Tid)
    requires Legal(steps) && close in After(steps).calls && After(steps).calls[close].CloseReturned?
    requires forall step :: OfRunningThread(step) ==> !Enabled(After(steps), step)
    ensures After(steps).loop.Returned?
  {
    CloseCloses(steps);
    ClosedEndsReturned(steps);
  }

  /** As long as the closed loop has not returned, it or a call already under way can take a step: in particular
      no functor deadlocks by calling RunInLoop or Close. */
  lemma ClosedNeverStuck(s: State)
    requires Inv(s) && s.closed && !s.loop.Returned?
    ensures Enabled(s, LoopStep) || exists t :: Enabled(s, Advance(t))
  {
    if s.mutex.Some? && s.mutex.value.Caller? {
      assert Enabled(s, Advance(s.mutex.value.t));
    } else if s.loop.Asleep? {
      var t :| t in s.calls && OwesSignal(s.calls[t]);
      assert Enabled(s, Advance(t));
    } else if s.loop.Running? && !InnerDone(s) {
      assert Enabled(s, Advance(s.loop.inner.value));
    }
  }
}
