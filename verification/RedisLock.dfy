/**
 The Redis mutex: a counter that clients INCR to lock and DECR to unlock.

 Any number of clients take steps in any interleaving; one step is one command as Redis executes it.
 A command may fail before it reaches Redis or lose its reply after Redis executed it. The key may
 expire, and clients delete it when they time out or see a negative counter.
 */
module RedisLock {

  const LOCK_TRIES: nat := 150
  const RETRY_TIMES: nat := 5

  type Client = nat

  /** What becomes of a command: executed and answered, executed with the answer lost, or not executed. */
  datatype Outcome = Answered | ReplyLost | NotExecuted

  /** Where a client stands. `stubborn` callers ignore the error of Lock; `owned` says whether Lock succeeded;
      `retry` counts failures of the command that is due. */
  datatype Phase =
    | Idle
    | Trying(i: nat, retry: nat, stubborn: bool)
    | BackingOff(i: nat, retry: nat, stubborn: bool)
    | TimedOut(retry: nat, stubborn: bool)
    | InSection(owned: bool)
    | Unlocking(owned: bool, retry: nat)
    | Clearing(retry: nat)

  datatype Step =
    | StartLock(c: Client, stubborn: bool)
    | StartUnlock(c: Client)
    | Command(c: Client, outcome: Outcome)
    | Expire

  /** The shared counter (an absent key counts 0), the clients, and how often each kind of irregularity happened. */
  datatype State = State(
    counter: int,
    phases: map<Client, Phase>,
    lostIncrs: nat,     // INCRs executed without the client learning of it
    lostDecrs: nat,     // DECRs executed without the client learning of it
    abandoned: nat,     // DECRs that were due but given up
    unowned: nat,       // DECRs by clients whose Lock had failed
    expiries: nat,      // expiries of the key
    timeouts: nat,      // DELs after 150 failed tries
    clears: nat)        // DELs of a counter that was seen negative

  predicate Initial(s: State) {
    && s.counter == s.lostIncrs == s.lostDecrs == s.abandoned == s.unowned == s.expiries == s.timeouts == s.clears == 0
    && forall c :: c in s.phases ==> s.phases[c] == Idle
  }

  function To(s: State, c: Client, p: Phase): State {
    s.(phases := s.phases[c := p])
  }

  function LockFailed(stubborn: bool): Phase {
    if stubborn then InSection(false) else Idle
  }

  predicate Enabled(s: State, step: Step) {
    match step
    case StartLock(c, _) => c in s.phases && s.phases[c] == Idle
    case StartUnlock(c) => c in s.phases && s.phases[c].InSection?
    case Command(c, _) => c in s.phases && !s.phases[c].Idle? && !s.phases[c].InSection?
    case Expire => true
  }

  predicate NeverReset(s: State) {
    s.expiries == s.timeouts == s.clears == 0
  }

  function OnIncr(s: State, c: Client, outcome: Outcome): State
    requires c in s.phases && s.phases[c].Trying?
  {
    var Trying(i, retry, stubborn) := s.phases[c];
    if outcome == Answered then
      var t := s.(counter := s.counter + 1);
      To(t, c, if t.counter >= 2 then BackingOff(i, 0, stubborn) else InSection(true))
    else
      var t := if outcome == ReplyLost then s.(counter := s.counter + 1, lostIncrs := s.lostIncrs + 1) else s;
      To(t, c, if retry + 1 < RETRY_TIMES then Trying(i, retry + 1, stubborn) else LockFailed(stubborn))
  }

  function OnBackOff(s: State, c: Client, outcome: Outcome): State
    requires c in s.phases && s.phases[c].BackingOff?
  {
    var BackingOff(i, retry, stubborn) := s.phases[c];
    if outcome == Answered then
      To(s.(counter := s.counter - 1), c,
         if i + 1 < LOCK_TRIES then Trying(i + 1, 0, stubborn) else TimedOut(0, stubborn))
    else
      var t := if outcome == ReplyLost then s.(counter := s.counter - 1, lostDecrs := s.lostDecrs + 1) else s;
      if retry + 1 < RETRY_TIMES then To(t, c, BackingOff(i, retry + 1, stubborn))
      else To(t.(abandoned := t.abandoned + 1), c, LockFailed(stubborn))
  }

  function OnTimeout(s: State, c: Client, outcome: Outcome): State
    requires c in s.phases && s.phases[c].TimedOut?
  {
    var TimedOut(retry, stubborn) := s.phases[c];
    var t := if outcome == NotExecuted then s else s.(counter := 0, timeouts := s.timeouts + 1);
    To(t, c,
       if outcome != Answered && retry + 1 < RETRY_TIMES then TimedOut(retry + 1, stubborn) else LockFailed(stubborn))
  }

  function OnUnlock(s: State, c: Client, outcome: Outcome): State
    requires c in s.phases && s.phases[c].Unlocking?
  {
    var Unlocking(owned, retry) := s.phases[c];
    var t := if outcome == NotExecuted then s
             else if !owned then s.(counter := s.counter - 1, unowned := s.unowned + 1)
             else if outcome == ReplyLost then s.(counter := s.counter - 1, lostDecrs := s.lostDecrs + 1)
             else s.(counter := s.counter - 1);
    if outcome == Answered then To(t, c, if t.counter < 0 then Clearing(0) else Idle)
    else if retry + 1 < RETRY_TIMES then To(t, c, Unlocking(owned, retry + 1))
    else To(if owned then t.(abandoned := t.abandoned + 1) else t, c, Idle)
  }

  function OnClear(s: State, c: Client, outcome: Outcome): State
    requires c in s.phases && s.phases[c].Clearing?
  {
    var Clearing(retry) := s.phases[c];
    var t := if outcome == NotExecuted then s else s.(counter := 0, clears := s.clears + 1);
    To(t, c, if outcome != Answered && retry + 1 < RETRY_TIMES then Clearing(retry + 1) else Idle)
  }

  function Next(s: State, step: Step): State
    requires Enabled(s, step)
  {
    match step
    case StartLock(c, stubborn) => To(s, c, Trying(0, 0, stubborn))
    case StartUnlock(c) => To(s, c, Unlocking(s.phases[c].owned, 0))
    case Expire => s.(counter := 0, expiries := s.expiries + 1)
    case Command(c, outcome) =>
      match s.phases[c]
      case Trying(_, _, _) => OnIncr(s, c, outcome)
      case BackingOff(_, _, _) => OnBackOff(s, c, outcome)
      case TimedOut(_, _) => OnTimeout(s, c, outcome)
      case Unlocking(_, _) => OnUnlock(s, c, outcome)
      case Clearing(_) => OnClear(s, c, outcome)
  }

  // ---- Runs ----

  predicate Legal(s: State, steps: seq<Step>)
    decreases |steps|, 0
  {
    steps == [] || (Legal(s, steps[..|steps| - 1]) && Enabled(After(s, steps[..|steps| - 1]), steps[|steps| - 1]))
  }

  function After(s: State, steps: seq<Step>): State
    requires Legal(s, steps)
    decreases |steps|, 1
  {
    if steps == [] then s else Next(After(s, steps[..|steps| - 1]), steps[|steps| - 1])
  }

  lemma LegalSnoc(s: State, steps: seq<Step>, step: Step)
    requires Legal(s, steps) && Enabled(After(s, steps), step)
    ensures Legal(s, steps + [step]) && After(s, steps + [step]) == Next(After(s, steps), step)
  {
    assert (steps + [step])[..|steps|] == steps;
  }

  // ---- What the counter counts ----

  /** The client's last answered command was an INCR, so a DECR of its own is still due. */
  predicate Owes(p: Phase) {
    p.BackingOff? || (p.InSection? && p.owned) || (p.Unlocking? && p.owned)
  }

  predicate Holds(p: Phase) {
    (p.InSection? && p.owned) || (p.Unlocking? && p.owned)
  }

  function Owing(phases: map<Client, Phase>): set<Client> {
    set c | c in phases && Owes(phases[c])
  }

  /** At most one client is between a successful Lock and its UnLock. */
  predicate Exclusive(s: State) {
    forall c, d :: c in s.phases && d in s.phases && Holds(s.phases[c]) && Holds(s.phases[d]) ==> c == d
  }

  /** Nothing has happened that could lower the counter below what the clients owe. */
  predicate Undisturbed(s: State) {
    s.expiries == s.timeouts == s.lostDecrs == s.unowned == 0
  }

  /** The counter stays within what is owed or leaked; without resets it is accounted for to the unit. */
  predicate Accounted(s: State, owing: int) {
    && s.counter <= owing + s.lostIncrs + s.abandoned
    && (NeverReset(s) ==> s.counter == owing + s.lostIncrs + s.abandoned - s.lostDecrs - s.unowned)
  }

  predicate NoneClearing(s: State) {
    forall c :: c in s.phases ==> !s.phases[c].Clearing?
  }

  ghost predicate Inv(s: State) {
    Accounted(s, |Owing(s.phases)|) && (Undisturbed(s) ==> Exclusive(s) && NoneClearing(s) && s.clears == 0)
  }

  function Unit(b: bool): int {
    if b then 1 else 0
  }

  lemma OwingUpdate(phases: map<Client, Phase>, c: Client, p: Phase)
    requires c in phases
    ensures |Owing(phases[c := p])| == |Owing(phases)| + Unit(Owes(p)) - Unit(Owes(phases[c]))
  {
    hide Owes;
    var before, after := Owing(phases), Owing(phases[c := p]);
    if Owes(p) {
      assert after == (before - {c}) + {c};
    } else {
      assert after == before - {c};
    }
    if Owes(phases[c]) {
      assert c in before;
    }
  }

  lemma HolderOwes(s: State)
    ensures |Owing(s.phases)| == 0 ==> forall c :: c in s.phases ==> !Holds(s.phases[c])
  {
    forall c | c in s.phases && Holds(s.phases[c])
      ensures |Owing(s.phases)| != 0
    {
      assert c in Owing(s.phases);
    }
  }

  /** Whoever is about to unlock after owning the lock is owed one unit of an undisturbed counter. */
  lemma OwnerCounted(s: State, c: Client)
    requires c in s.phases && Owes(s.phases[c])
    ensures |Owing(s.phases)| >= 1
  {
    assert c in Owing(s.phases);
  }

  /** A step other than an expiry changes the phase of its own client only. */
  lemma StepFrame(s: State, step: Step)
    requires Enabled(s, step) && step != Expire
    ensures Next(s, step).phases == s.phases[step.c := Next(s, step).phases[step.c]]
  {
  }

  /** The counter moves with what the client owes, up to the leaks. */
  lemma StepAccounts(s: State, step: Step, owing: nat)
    requires Accounted(s, owing) && Enabled(s, step) && step != Expire
    requires owing >= Unit(Owes(s.phases[step.c]))
    ensures Accounted(Next(s, step), owing + Unit(Owes(Next(s, step).phases[step.c])) - Unit(Owes(s.phases[step.c])))
  {
    if step.Command? {
      CommandAccounts(s, step.c, step.outcome, owing);
    }
  }

  lemma CommandAccounts(s: State, c: Client, outcome: Outcome, owing: nat)
    requires Accounted(s, owing) && Enabled(s, Command(c, outcome)) && owing >= Unit(Owes(s.phases[c]))
    ensures var t := Next(s, Command(c, outcome));
            Accounted(t, owing + Unit(Owes(t.phases[c])) - Unit(Owes(s.phases[c])))
  {
    var t := Next(s, Command(c, outcome));
    match s.phases[c] {
      case Trying(_, _, _) => assert t == OnIncr(s, c, outcome);
      case BackingOff(_, _, _) => assert t == OnBackOff(s, c, outcome);
      case TimedOut(_, _) => assert t == OnTimeout(s, c, outcome);
      case Unlocking(_, _) => assert t == OnUnlock(s, c, outcome);
      case Clearing(_) => assert t == OnClear(s, c, outcome);
    }
  }

  /** Only a client that saw the counter at 1 or below comes to hold the lock, and then nobody owed anything. */
  lemma StepExcludes(s: State, step: Step)
    requires Inv(s) && Enabled(s, step) && step != Expire && Undisturbed(Next(s, step))
    ensures Exclusive(Next(s, step)) && NoneClearing(Next(s, step)) && Next(s, step).clears == 0
  {
    HolderOwes(s);
    if Owes(s.phases[step.c]) {
      OwnerCounted(s, step.c);
    }
  }

  lemma StepKeepsInv(s: State, step: Step)
    requires Inv(s) && Enabled(s, step)
    ensures Inv(Next(s, step))
  {
    if step != Expire {
      var t := Next(s, step);
      if Owes(s.phases[step.c]) {
        OwnerCounted(s, step.c);
      }
      StepFrame(s, step);
      StepAccounts(s, step, |Owing(s.phases)|);
      OwingUpdate(s.phases, step.c, t.phases[step.c]);
      if Undisturbed(t) {
        StepExcludes(s, step);
      }
      hide Next, Enabled;
    }
  }

  lemma {:induction false} RunKeepsInv(s: State, steps: seq<Step>)
    requires Initial(s) && Legal(s, steps)
    ensures Inv(After(s, steps))
  {
    if steps == [] {
      assert Owing(s.phases) == {};
    } else {
      RunKeepsInv(s, steps[..|steps| - 1]);
      StepKeepsInv(After(s, steps[..|steps| - 1]), steps[|steps| - 1]);
    }
  }

  // ---- Mutual exclusion ----

  /** In every run without expiries, deletions after a timeout, lost DECR replies or unlocking by callers whose Lock
      failed, at most one client holds the lock; INCRs may fail, lose their reply and be retried. */
  lemma MutualExclusion(s: State, steps: seq<Step>)
    requires Initial(s) && Legal(s, steps) && Undisturbed(After(s, steps))
    ensures Exclusive(After(s, steps))
  {
    RunKeepsInv(s, steps);
  }

  /** The step is an answered command, and not the last of 150 failed tries. */
  predicate Clean(s: State, step: Step) {
    match step
    case Expire => false
    case Command(c, outcome) => outcome == Answered
        && !(c in s.phases && s.phases[c].BackingOff? && s.phases[c].i + 1 == LOCK_TRIES)
    case _ => true
  }

  predicate CleanRun(s: State, steps: seq<Step>)
    requires Legal(s, steps)
  {
    steps == [] || (CleanRun(s, steps[..|steps| - 1]) && Clean(After(s, steps[..|steps| - 1]), steps[|steps| - 1]))
  }

  predicate NothingIrregular(s: State) {
    && s.lostIncrs == s.lostDecrs == s.abandoned == s.unowned == s.expiries == s.timeouts == s.clears == 0
    && forall c :: c in s.phases ==>
         && !s.phases[c].TimedOut? && !s.phases[c].Clearing?
         && (s.phases[c].InSection? || s.phases[c].Unlocking? ==> s.phases[c].owned)
         && (s.phases[c].BackingOff? ==> s.phases[c].i < LOCK_TRIES)
         && (s.phases[c].Trying? ==> s.phases[c].i < LOCK_TRIES)
  }

  lemma CleanStep(s: State, step: Step)
    requires Inv(s) && NothingIrregular(s) && Enabled(s, step) && Clean(s, step)
    ensures NothingIrregular(Next(s, step))
  {
    if step.Command? && s.phases[step.c].Unlocking? {
      OwnerCounted(s, step.c);
    }
  }

  /** Without a timeout, an expiry or a failed command: the counter is the number of holders plus the clients
      between their INCR and the DECR that takes it back, at most one client holds the lock, and no unlocking
      client ever finds a negative counter to clear. */
  lemma {:induction false} CleanRunCounts(s: State, steps: seq<Step>)
    requires Initial(s) && Legal(s, steps) && CleanRun(s, steps)
    ensures var t := After(s, steps);
            NothingIrregular(t) && t.counter == |Owing(t.phases)| && Exclusive(t)
  {
    RunKeepsInv(s, steps);
    if steps != [] {
      var init := steps[..|steps| - 1];
      CleanRunCounts(s, init);
      RunKeepsInv(s, init);
      CleanStep(After(s, init), steps[|steps| - 1]);
    }
  }

  /** What can lower the counter below what clients owe, or leave it above. */
  datatype Irregularity = Expiries | TimeoutDels | Clears | LostDecrs | UnownedUnlocks | LostIncrs | AbandonedDecrs

  /** Nothing irregular happened but the given kinds. */
  predicate Only(s: State, kinds: set<Irregularity>) {
    && (Expiries in kinds || s.expiries == 0)
    && (TimeoutDels in kinds || s.timeouts == 0)
    && (Clears in kinds || s.clears == 0)
    && (LostDecrs in kinds || s.lostDecrs == 0)
    && (UnownedUnlocks in kinds || s.unowned == 0)
    && (LostIncrs in kinds || s.lostIncrs == 0)
    && (AbandonedDecrs in kinds || s.abandoned == 0)
  }

  /** A run with irregularities of these kinds only. */
  ghost predicate RunWith(kinds: set<Irregularity>, s: State, steps: seq<Step>) {
    Initial(s) && Legal(s, steps) && Only(After(s, steps), kinds)
  }

  /** Some such run ends with two holders. */
  ghost predicate Breaks(kinds: set<Irregularity>) {
    exists s, steps :: RunWith(kinds, s, steps) && !Exclusive(After(s, steps))
  }

  /** One of these kinds alone can give the lock to two clients. */
  const HARMFUL := {Expiries, TimeoutDels, LostDecrs, UnownedUnlocks}

  /** Every run with irregularities of these kinds only is exclusive, exactly if the kinds include no expiry, no
      deletion after a timeout, no lost DECR reply and no unlock without a lock. Clearing a negative counter does no
      harm: it cannot happen first. */
  lemma ExclusiveIff(kinds: set<Irregularity>)
    ensures (forall s, steps :: RunWith(kinds, s, steps) ==> Exclusive(After(s, steps))) <==> kinds !! HARMFUL
  {
    hide Exclusive, Legal, After;
    if kinds !! HARMFUL {
      forall s, steps | RunWith(kinds, s, steps)
        ensures Exclusive(After(s, steps))
      {
        MutualExclusion(s, steps);
      }
    } else {
      var kind :| kind in kinds && kind in HARMFUL;
      ExpiryBreaks();
      TimeoutBreaks();
      LostReplyBreaks();
      UnownedUnlockBreaks();
      BreaksMore({kind}, kinds);
    }
  }

  lemma BreaksMore(kinds: set<Irregularity>, more: set<Irregularity>)
    requires Breaks(kinds) && kinds <= more
    ensures Breaks(more)
  {
    hide Exclusive, Legal, After;
    var s, steps :| RunWith(kinds, s, steps) && !Exclusive(After(s, steps));
    assert RunWith(more, s, steps);
  }

  /** Three clients and nothing irregular but the given counts. */
  function Three(counter: int, p: Phase, q: Phase, r: Phase, lostDecrs: nat, unowned: nat, expiries: nat,
                 timeouts: nat): State {
    State(counter, map[0 := p, 1 := q, 2 := r], 0, lostDecrs, 0, unowned, expiries, timeouts, 0)
  }

  lemma {:induction false} Concat(s: State, a: seq<Step>, b: seq<Step>)
    requires Legal(s, a) && Legal(After(s, a), b)
    ensures Legal(s, a + b) && After(s, a + b) == After(After(s, a), b)
  {
    if b == [] {
      assert a + b == a;
    } else {
      var init := b[..|b| - 1];
      Concat(s, a, init);
      LegalSnoc(s, a + init, b[|b| - 1]);
      assert a + b == a + init + [b[|b| - 1]];
    }
  }

  const OWN := InSection(true)
  const TRY := Trying(0, 0, false)

  /** Client 0 takes the free lock. */
  lemma FirstLocks() returns (s: State, steps: seq<Step>)
    ensures Initial(s) && Legal(s, steps) && After(s, steps) == Three(1, OWN, Idle, Idle, 0, 0, 0, 0)
  {
    s := Three(0, Idle, Idle, Idle, 0, 0, 0, 0);
    steps := [StartLock(0, false), Command(0, Answered)];
    RunOf(s, steps, [s, Three(0, TRY, Idle, Idle, 0, 0, 0, 0), Three(1, OWN, Idle, Idle, 0, 0, 0, 0)]);
  }

  /** Client 2 takes a lock whose counter has fallen to zero while client 0 holds it: two holders. */
  lemma ThirdLocks(s: State, steps: seq<Step>, q: Phase, lostDecrs: nat, unowned: nat, expiries: nat,
                   timeouts: nat, kinds: set<Irregularity>)
    requires Initial(s) && Legal(s, steps)
    requires After(s, steps) == Three(0, OWN, q, Idle, lostDecrs, unowned, expiries, timeouts)
    requires Only(After(s, steps), kinds)
    ensures Breaks(kinds)
  {
    hide Legal, After, Exclusive;
    var more := [StartLock(2, false), Command(2, Answered)];
    ThirdSteps(q, lostDecrs, unowned, expiries, timeouts);
    Concat(s, steps, more);
    TwoHolders(q, lostDecrs, unowned, expiries, timeouts);
    assert RunWith(kinds, s, steps + more);
  }

  lemma ThirdSteps(q: Phase, lostDecrs: nat, unowned: nat, expiries: nat, timeouts: nat)
    ensures var more := [StartLock(2, false), Command(2, Answered)];
            var t := Three(0, OWN, q, Idle, lostDecrs, unowned, expiries, timeouts);
            Legal(t, more) && After(t, more) == Three(1, OWN, q, OWN, lostDecrs, unowned, expiries, timeouts)
  {
    var t := Three(0, OWN, q, Idle, lostDecrs, unowned, expiries, timeouts);
    RunOf(t, [StartLock(2, false), Command(2, Answered)], [
            t, Three(0, OWN, q, TRY, lostDecrs, unowned, expiries, timeouts),
            Three(1, OWN, q, OWN, lostDecrs, unowned, expiries, timeouts)]);
  }

  lemma TwoHolders(q: Phase, lostDecrs: nat, unowned: nat, expiries: nat, timeouts: nat)
    ensures !Exclusive(Three(1, OWN, q, OWN, lostDecrs, unowned, expiries, timeouts))
  {
    var u := Three(1, OWN, q, OWN, lostDecrs, unowned, expiries, timeouts);
    assert Holds(u.phases[0]) && Holds(u.phases[2]);
  }

  /** Expiry alone can give the lock to two clients. */
  lemma ExpiryBreaks()
    ensures Breaks({Expiries})
  {
    var s, steps := FirstLocks();
    LegalSnoc(s, steps, Expire);
    ThirdLocks(s, steps + [Expire], Idle, 0, 0, 1, 0, {Expiries});
  }

  /** A holder that is slower than 150 tries of another: that one gives up and deletes the counter, with every command
      answered, and the next client locks. */
  lemma TimeoutBreaks()
    ensures Breaks({TimeoutDels})
  {
    hide Legal, After;
    var s, steps := FirstLocks();
    var t := Three(1, OWN, TRY, Idle, 0, 0, 0, 0);
    StartsTrying();
    LegalSnoc(s, steps, StartLock(1, false));
    TriesFail(t, 1, LOCK_TRIES);
    Concat(s, steps + [StartLock(1, false)], FailedTries(1, LOCK_TRIES));
    var tries := steps + [StartLock(1, false)] + FailedTries(1, LOCK_TRIES);
    GivesUp();
    LegalSnoc(s, tries, Command(1, Answered));
    ThirdLocks(s, tries + [Command(1, Answered)], Idle, 0, 0, 0, 1, {TimeoutDels});
  }

  lemma StartsTrying()
    ensures var s := Three(1, OWN, Idle, Idle, 0, 0, 0, 0);
            Enabled(s, StartLock(1, false)) && Next(s, StartLock(1, false)) == Three(1, OWN, TRY, Idle, 0, 0, 0, 0)
  {
  }

  lemma GivesUp()
    ensures var s := To(Three(1, OWN, TRY, Idle, 0, 0, 0, 0), 1, AfterTries(LOCK_TRIES));
            && Enabled(s, Command(1, Answered))
            && Next(s, Command(1, Answered)) == Three(0, OWN, Idle, Idle, 0, 0, 0, 1)
  {
  }

  lemma LostReplySteps() returns (more: seq<Step>)
    ensures var s := Three(1, OWN, Idle, Idle, 0, 0, 0, 0);
            Legal(s, more) && After(s, more) == Three(0, OWN, Trying(1, 0, false), Idle, 1, 0, 0, 0)
  {
    more := [StartLock(1, false), Command(1, Answered), Command(1, ReplyLost), Command(1, Answered)];
    RunOf(Three(1, OWN, Idle, Idle, 0, 0, 0, 0), more, [
            Three(1, OWN, Idle, Idle, 0, 0, 0, 0), Three(1, OWN, TRY, Idle, 0, 0, 0, 0),
            Three(2, OWN, BackingOff(0, 0, false), Idle, 0, 0, 0, 0),
            Three(1, OWN, BackingOff(0, 1, false), Idle, 1, 0, 0, 0),
            Three(0, OWN, Trying(1, 0, false), Idle, 1, 0, 0, 0)]);
  }

  /** So can one DECR whose reply is lost: the client repeats it. */
  lemma LostReplyBreaks()
    ensures Breaks({LostDecrs})
  {
    var s, steps := FirstLocks();
    var more := LostReplySteps();
    Concat(s, steps, more);
    ThirdLocks(s, steps + more, Trying(1, 0, false), 1, 0, 0, 0, {LostDecrs});
  }

  /** Client 1 fails to lock: none of its five INCRs gets through. */
  lemma FailedLockSteps() returns (more: seq<Step>)
    ensures var s := Three(1, OWN, Trying(0, 0, true), Idle, 0, 0, 0, 0);
            Legal(s, more) && After(s, more) == Three(1, OWN, InSection(false), Idle, 0, 0, 0, 0)
  {
    var lost := Command(1, NotExecuted);
    more := [lost, lost, lost, lost, lost];
    RunOf(Three(1, OWN, Trying(0, 0, true), Idle, 0, 0, 0, 0), more, [
            Three(1, OWN, Trying(0, 0, true), Idle, 0, 0, 0, 0), Three(1, OWN, Trying(0, 1, true), Idle, 0, 0, 0, 0),
            Three(1, OWN, Trying(0, 2, true), Idle, 0, 0, 0, 0), Three(1, OWN, Trying(0, 3, true), Idle, 0, 0, 0, 0),
            Three(1, OWN, Trying(0, 4, true), Idle, 0, 0, 0, 0), Three(1, OWN, InSection(false), Idle, 0, 0, 0, 0)]);
  }

  lemma UnownedUnlockSteps() returns (more: seq<Step>)
    ensures var s := Three(1, OWN, InSection(false), Idle, 0, 0, 0, 0);
            Legal(s, more) && After(s, more) == Three(0, OWN, Idle, Idle, 0, 1, 0, 0)
  {
    more := [StartUnlock(1), Command(1, Answered)];
    RunOf(Three(1, OWN, InSection(false), Idle, 0, 0, 0, 0), more, [
            Three(1, OWN, InSection(false), Idle, 0, 0, 0, 0), Three(1, OWN, Unlocking(false, 0), Idle, 0, 0, 0, 0),
            Three(0, OWN, Idle, Idle, 0, 1, 0, 0)]);
  }

  /** So can one caller that unlocks after its Lock failed. */
  lemma UnownedUnlockBreaks()
    ensures Breaks({UnownedUnlocks})
  {
    hide Three, Legal, After;
    var s, steps := FirstLocks();
    StartsStubborn();
    LegalSnoc(s, steps, StartLock(1, true));
    var failed := FailedLockSteps();
    Concat(s, steps + [StartLock(1, true)], failed);
    var unlock := UnownedUnlockSteps();
    var all := steps + [StartLock(1, true)] + failed;
    Concat(s, all, unlock);
    OnlyUnowned();
    ThirdLocks(s, all + unlock, Idle, 0, 1, 0, 0, {UnownedUnlocks});
  }

  lemma StartsStubborn()
    ensures var s := Three(1, OWN, Idle, Idle, 0, 0, 0, 0);
            && Enabled(s, StartLock(1, true))
            && Next(s, StartLock(1, true)) == Three(1, OWN, Trying(0, 0, true), Idle, 0, 0, 0, 0)
  {
  }

  lemma OnlyUnowned()
    ensures Only(Three(0, OWN, Idle, Idle, 0, 1, 0, 0), {UnownedUnlocks})
  {
  }

  /** The one step that breaks exclusion: an answered INCR that finds the counter at zero or below while another
      client holds the lock. */
  lemma StepBreaksExclusionIff(s: State, step: Step)
    requires Exclusive(s) && Enabled(s, step)
    ensures !Exclusive(Next(s, step))
            <==> step.Command? && step.outcome == Answered && s.phases[step.c].Trying? && s.counter <= 0
                 && exists d :: d in s.phases && d != step.c && Holds(s.phases[d])
  {
    var t := Next(s, step);
    if step != Expire {
      StepFrame(s, step);
      HoldsAfter(s, step);
      hide Next, Enabled, Holds;
      if Holds(t.phases[step.c]) && !Holds(s.phases[step.c]) {
        if d :| d in s.phases && d != step.c && Holds(s.phases[d]) {
          assert Holds(t.phases[d]);
        }
      }
    }
  }

  /** A client comes to hold the lock by an answered INCR at zero or below, and in no other way. */
  lemma HoldsAfter(s: State, step: Step)
    requires Enabled(s, step) && step != Expire
    ensures !Holds(s.phases[step.c]) ==>
              (Holds(Next(s, step).phases[step.c])
               <==> step.Command? && step.outcome == Answered && s.phases[step.c].Trying? && s.counter <= 0)
    ensures s.phases[step.c].Trying? ==> !Holds(s.phases[step.c])
  {
  }

  /** Spelling out the states of a run proves it legal. */
  lemma {:induction false} RunOf(s: State, steps: seq<Step>, states: seq<State>)
    requires |states| == |steps| + 1 && states[0] == s
    requires forall i :: 0 <= i < |steps| ==> Enabled(states[i], steps[i]) && states[i + 1] == Next(states[i], steps[i])
    ensures Legal(s, steps) && After(s, steps) == states[|steps|]
  {
    if steps != [] {
      RunOf(s, steps[..|steps| - 1], states[..|steps|]);
    }
  }

  // ---- No lasting lockout ----

  predicate AllIdle(s: State) {
    forall c :: c in s.phases ==> s.phases[c] == Idle
  }

  /** In every run whatsoever, the counter stays within what the clients owe plus what failed commands left behind;
      so once all clients are done after a run without such leaks, the next Lock succeeds on its first INCR. */
  lemma NoLockout(s: State, steps: seq<Step>, c: Client, stubborn: bool)
    requires Initial(s) && Legal(s, steps)
    requires var t := After(s, steps); AllIdle(t) && t.lostIncrs == t.abandoned == 0 && c in t.phases
    ensures var t := After(s, steps);
            && t.counter <= 0
            && Next(Next(t, StartLock(c, stubborn)), Command(c, Answered)).phases[c] == InSection(true)
  {
    RunKeepsInv(s, steps);
    assert Owing(After(s, steps).phases) == {};
  }

  /** Some run with irregularities of these kinds only leaves a taken lock behind that nobody holds. */
  ghost predicate LocksOut(kinds: set<Irregularity>) {
    exists s, steps :: RunWith(kinds, s, steps) && AllIdle(After(s, steps)) && After(s, steps).counter > 0
  }

  /** Every run with irregularities of these kinds only leaves the lock free once all clients are done, exactly if the
      kinds include no lost INCR reply and no DECR that was given up: deletions, expiries, lost DECR replies and
      unlocking without a lock never lock anybody out. */
  lemma LeavesFreeIff(kinds: set<Irregularity>)
    ensures (forall s, steps :: RunWith(kinds, s, steps) && AllIdle(After(s, steps)) ==> After(s, steps).counter <= 0)
            <==> LostIncrs !in kinds && AbandonedDecrs !in kinds
  {
    if LostIncrs !in kinds && AbandonedDecrs !in kinds {
      forall s, steps | RunWith(kinds, s, steps) && AllIdle(After(s, steps))
        ensures After(s, steps).counter <= 0
      {
        RunKeepsInv(s, steps);
        assert Owing(After(s, steps).phases) == {};
      }
    } else {
      LostIncrLocksOut();
      AbandonedLocksOut();
      LocksOutMore({if LostIncrs in kinds then LostIncrs else AbandonedDecrs}, kinds);
    }
  }

  lemma LocksOutMore(kinds: set<Irregularity>, more: set<Irregularity>)
    requires LocksOut(kinds) && kinds <= more
    ensures LocksOut(more)
  {
    hide AllIdle, Legal, After;
    var s, steps :| RunWith(kinds, s, steps) && AllIdle(After(s, steps)) && After(s, steps).counter > 0;
    assert RunWith(more, s, steps);
  }

  /** One client and nothing irregular but the given counts. */
  function Single(counter: int, p: Phase, lostIncrs: nat, abandoned: nat): State {
    State(counter, map[0 := p], lostIncrs, 0, abandoned, 0, 0, 0, 0)
  }

  /** A client whose five INCRs are executed without an answer gives up and leaves the counter at five. */
  lemma LostIncrLocksOut()
    ensures LocksOut({LostIncrs})
  {
    var lost := Command(0, ReplyLost);
    var s := Single(0, Idle, 0, 0);
    var steps := [StartLock(0, false), lost, lost, lost, lost, lost];
    RunOf(s, steps, [
            s, Single(0, TRY, 0, 0), Single(1, Trying(0, 1, false), 1, 0), Single(2, Trying(0, 2, false), 2, 0),
            Single(3, Trying(0, 3, false), 3, 0), Single(4, Trying(0, 4, false), 4, 0), Single(5, Idle, 5, 0)]);
    hide Legal, After;
    assert RunWith({LostIncrs}, s, steps);
  }

  /** A holder whose five DECRs do not get through leaves the counter at one. */
  lemma AbandonedLocksOut()
    ensures LocksOut({AbandonedDecrs})
  {
    var s, held := Single(0, Idle, 0, 0), Single(1, OWN, 0, 0);
    var lock := [StartLock(0, false), Command(0, Answered)];
    RunOf(s, lock, [s, Single(0, TRY, 0, 0), held]);
    hide Legal, After;
    var fail := UnlockFails();
    Concat(s, lock, fail);
    var more := UnlockGivesUp();
    Concat(s, lock + fail, more);
    assert RunWith({AbandonedDecrs}, s, lock + fail + more);
  }

  lemma UnlockFails() returns (steps: seq<Step>)
    ensures var s := Single(1, OWN, 0, 0); Legal(s, steps) && After(s, steps) == Single(1, Unlocking(true, 2), 0, 0)
  {
    steps := [StartUnlock(0), Command(0, NotExecuted), Command(0, NotExecuted)];
    RunOf(Single(1, OWN, 0, 0), steps, [
            Single(1, OWN, 0, 0), Single(1, Unlocking(true, 0), 0, 0), Single(1, Unlocking(true, 1), 0, 0),
            Single(1, Unlocking(true, 2), 0, 0)]);
  }

  lemma UnlockGivesUp() returns (steps: seq<Step>)
    ensures var s := Single(1, Unlocking(true, 2), 0, 0); Legal(s, steps) && After(s, steps) == Single(1, Idle, 0, 1)
  {
    steps := [Command(0, NotExecuted), Command(0, NotExecuted), Command(0, NotExecuted)];
    RunOf(Single(1, Unlocking(true, 2), 0, 0), steps, [
            Single(1, Unlocking(true, 2), 0, 0), Single(1, Unlocking(true, 3), 0, 0),
            Single(1, Unlocking(true, 4), 0, 0), Single(1, Idle, 0, 1)]);
  }

  /** Among idle clients the first INCR of the next Lock succeeds exactly when the counter is not above zero. */
  lemma FirstTrySucceedsIff(s: State, c: Client, stubborn: bool)
    requires AllIdle(s) && c in s.phases
    ensures Next(Next(s, StartLock(c, stubborn)), Command(c, Answered)).phases[c] == InSection(true) <==> s.counter <= 0
  {
  }

  /** The steps of k tries that all find the lock taken. */
  function FailedTries(c: Client, k: nat): seq<Step> {
    if k == 0 then [] else FailedTries(c, k - 1) + [Command(c, Answered)] + [Command(c, Answered)]
  }

  function AfterTries(k: nat): Phase {
    if k < LOCK_TRIES then Trying(k, 0, false) else TimedOut(0, false)
  }

  lemma OneTryFails(s: State, c: Client, k: nat)
    requires c in s.phases && s.phases[c] == Trying(k, 0, false) && s.counter >= 1 && k < LOCK_TRIES
    ensures Enabled(s, Command(c, Answered))
    ensures var t := Next(s, Command(c, Answered));
            Enabled(t, Command(c, Answered)) && Next(t, Command(c, Answered)) == To(s, c, AfterTries(k + 1))
  {
    ToTwice(s, c, BackingOff(k, 0, false), AfterTries(k + 1));
  }

  lemma RunOneTry(s: State, steps: seq<Step>, c: Client, k: nat)
    requires Legal(s, steps) && k < LOCK_TRIES
    requires var t := After(s, steps); c in t.phases && t.phases[c] == Trying(k, 0, false) && t.counter >= 1
    ensures var more := steps + [Command(c, Answered)] + [Command(c, Answered)];
            Legal(s, more) && After(s, more) == To(After(s, steps), c, AfterTries(k + 1))
  {
    hide Next, Enabled;
    OneTryFails(After(s, steps), c, k);
    LegalSnoc(s, steps, Command(c, Answered));
    LegalSnoc(s, steps + [Command(c, Answered)], Command(c, Answered));
  }

  lemma NoTries(s: State, c: Client)
    requires c in s.phases && s.phases[c] == AfterTries(0)
    ensures Legal(s, FailedTries(c, 0)) && After(s, FailedTries(c, 0)) == To(s, c, AfterTries(0))
  {
    assert s.phases[c := s.phases[c]] == s.phases;
  }

  lemma {:induction false} TriesFail(s: State, c: Client, k: nat)
    requires c in s.phases && s.phases[c] == Trying(0, 0, false) && s.counter >= 1 && k <= LOCK_TRIES
    ensures Legal(s, FailedTries(c, k)) && After(s, FailedTries(c, k)) == To(s, c, AfterTries(k))
  {
    hide Next, Enabled, Legal, After;
    if k == 0 {
      NoTries(s, c);
    } else {
      TriesFail(s, c, k - 1);
      RunOneTry(s, FailedTries(c, k - 1), c, k - 1);
      ToTwice(s, c, AfterTries(k - 1), AfterTries(k));
    }
  }

  lemma ToTwice(s: State, c: Client, p: Phase, q: Phase)
    ensures To(To(s, c, p), c, q) == To(s, c, q)
  {
    assert s.phases[c := p][c := q] == s.phases[c := q];
  }

  /** What an owner's unlocking does to the counter, every command answered: above zero it takes one off and is done; at
      zero or below, which an expiry or a deletion has left, it goes on to delete the key, and the counter is zero. */
  lemma UnlockCounts(s: State, c: Client)
    requires c in s.phases && s.phases[c] == OWN
    ensures Enabled(s, StartUnlock(c)) && Enabled(Next(s, StartUnlock(c)), Command(c, Answered))
    ensures var u := Next(Next(s, StartUnlock(c)), Command(c, Answered));
            && (s.counter > 0 ==> u.counter == s.counter - 1 && u.phases == s.phases[c := Idle])
            && (s.counter <= 0 ==>
                  && Enabled(u, Command(c, Answered))
                  && var v := Next(u, Command(c, Answered));
                     v.counter == 0 && v.phases == s.phases[c := Idle])
  {
    var t := Next(s, StartUnlock(c));
    var u := Next(t, Command(c, Answered));
    assert t.phases[c := Idle] == s.phases[c := Idle];
    if s.counter <= 0 {
      assert u.phases[c := Idle] == s.phases[c := Idle];
    }
  }

  /** A deletion that reaches Redis leaves the counter at zero, answered or not, after a timeout as after a clear. */
  lemma DeletionZeroes(s: State, c: Client, outcome: Outcome)
    requires Enabled(s, Command(c, outcome)) && (s.phases[c].Clearing? || s.phases[c].TimedOut?)
    ensures outcome != NotExecuted ==> Next(s, Command(c, outcome)).counter == 0
    ensures outcome == NotExecuted ==> Next(s, Command(c, outcome)).counter == s.counter
  {
  }

  /** On a free counter the first of two clients gets the lock and the second does not. */
  lemma OneOfTwoLocks(s: State, d: Client, e: Client)
    requires d in s.phases && e in s.phases && d != e && s.phases[d] == Idle && s.phases[e] == Idle
    ensures Enabled(s, StartLock(d, false))
    ensures var t := Next(s, StartLock(d, false));
            && Enabled(t, Command(d, Answered))
            && var u := Next(t, Command(d, Answered));
               && Enabled(u, StartLock(e, false))
               && var v := Next(u, StartLock(e, false));
                  && Enabled(v, Command(e, Answered))
                  && var w := Next(v, Command(e, Answered));
                     && d in w.phases && e in w.phases
                     && (s.counter == 0 ==> w.phases[d] == OWN && w.phases[e] == BackingOff(0, 0, false))
  {
  }

  /** So an owner that unlocks among idle clients, even long after its key expired, leaves a lock that exactly one of
      the next two gets. */
  lemma UnlockRestores(s: State, c: Client, d: Client, e: Client)
    requires c in s.phases && s.phases[c] == OWN && s.counter <= 0
    requires d in s.phases && e in s.phases && d != e
    requires forall x :: x in s.phases && x != c ==> s.phases[x] == Idle
    ensures var steps := [StartUnlock(c), Command(c, Answered), Command(c, Answered), StartLock(d, false),
                          Command(d, Answered), StartLock(e, false), Command(e, Answered)];
            && Legal(s, steps)
            && var t := After(s, steps);
               && d in t.phases && e in t.phases
               && t.phases[d] == OWN && t.phases[e] == BackingOff(0, 0, false)
  {
    UnlockCounts(s, c);
    var s1 := Next(s, StartUnlock(c));
    var s2 := Next(s1, Command(c, Answered));
    var s3 := Next(s2, Command(c, Answered));
    OneOfTwoLocks(s3, d, e);
    hide Next, Enabled;
    var s4 := Next(s3, StartLock(d, false));
    var s5 := Next(s4, Command(d, Answered));
    var s6 := Next(s5, StartLock(e, false));
    var s7 := Next(s6, Command(e, Answered));
    RunOf(s, [StartUnlock(c), Command(c, Answered), Command(c, Answered), StartLock(d, false), Command(d, Answered),
              StartLock(e, false), Command(e, Answered)], [s, s1, s2, s3, s4, s5, s6, s7]);
  }

  /** Even a leaked counter heals: a client that finds it stuck deletes it after 150 tries, and the next Lock
      succeeds at once. */
  lemma StuckLockHeals(s: State, c: Client)
    requires AllIdle(s) && c in s.phases && s.counter >= 1
    ensures var steps := [StartLock(c, false)] + FailedTries(c, 150) + [Command(c, Answered)];
            Legal(s, steps) && After(s, steps) == s.(counter := 0, timeouts := s.timeouts + 1)
  {
    var t := Next(s, StartLock(c, false));
    assert t == To(s, c, TRY);
    TriesFail(t, c, LOCK_TRIES);
    hide Legal, After, Next, Enabled, FailedTries;
    StartsLock(s, c);
    Prepend(s, StartLock(c, false), FailedTries(c, LOCK_TRIES));
    ToTwice(s, c, TRY, AfterTries(LOCK_TRIES));
    Deletes(s, c);
    LegalSnoc(s, [StartLock(c, false)] + FailedTries(c, LOCK_TRIES), Command(c, Answered));
  }

  lemma StartsLock(s: State, c: Client)
    requires c in s.phases && s.phases[c] == Idle
    ensures Enabled(s, StartLock(c, false)) && Next(s, StartLock(c, false)) == To(s, c, TRY)
  {
  }

  lemma Deletes(s: State, c: Client)
    requires c in s.phases && s.phases[c] == Idle
    ensures var t := To(s, c, AfterTries(LOCK_TRIES));
            && Enabled(t, Command(c, Answered))
            && Next(t, Command(c, Answered)) == s.(counter := 0, timeouts := s.timeouts + 1)
  {
    assert s.phases[c := TimedOut(0, false)][c := Idle] == s.phases;
  }

  lemma {:induction false} Prepend(s: State, step: Step, steps: seq<Step>)
    requires Enabled(s, step) && Legal(Next(s, step), steps)
    ensures Legal(s, [step] + steps) && After(s, [step] + steps) == After(Next(s, step), steps)
  {
    if steps == [] {
      LegalSnoc(s, [], step);
      assert [step] + steps == [] + [step];
    } else {
      var init := steps[..|steps| - 1];
      Prepend(s, step, init);
      LegalSnoc(s, [step] + init, steps[|steps| - 1]);
      assert [step] + steps == [step] + init + [steps[|steps| - 1]];
    }
  }

  // ---- The client's code ----

  /** The shared world as one client's code meets it: between any two of its commands the other clients and
      the clock do what they please. */
  class World {
    var s: State
    ghost const start: State
    ghost var trace: seq<Step>

    ghost predicate Valid()
      reads this
    {
      Initial(start) && Legal(start, trace) && s == After(start, trace)
    }

    constructor (clients: set<Client>)
      ensures Valid() && s.phases.Keys == clients && AllIdle(s)
    {
      s := State(0, map c | c in clients :: Idle, 0, 0, 0, 0, 0, 0, 0);
      start := State(0, map c | c in clients :: Idle, 0, 0, 0, 0, 0, 0, 0);
      trace := [];
    }

    method Take(step: Step)
      requires Valid() && Enabled(s, step)
      modifies this
      ensures Valid() && s == Next(old(s), step) && trace == old(trace) + [step]
    {
      LegalSnoc(start, trace, step);
      s := Next(s, step);
      trace := trace + [step];
    }

    /** Some steps, as the other clients happen to take them. */
    method Schedule() returns (steps: seq<Step>)
    {
      steps := *;
    }

    method SomeOutcome() returns (outcome: Outcome)
    {
      outcome := *;
    }

    /** Steps of others, any number of them. */
    method Interfere(c: Client)
      requires Valid() && c in s.phases
      modifies this
      ensures Valid() && c in s.phases && s.phases[c] == old(s).phases[c]
      ensures old(trace) <= trace && !AnsweredSince(trace, |old(trace)|, c)
    {
      var steps := Schedule();
      for k := 0 to |steps|
        invariant Valid() && c in s.phases && s.phases[c] == old(s).phases[c]
        invariant old(trace) <= trace && !AnsweredSince(trace, |old(trace)|, c)
      {
        var step := steps[k];
        if Enabled(s, step) && (step.Expire? || step.c != c) {
          Take(step);
        }
      }
    }

    /** One command, sent up to five times until it is answered; returns the counter it saw. */
    method Wrapped(c: Client) returns (value: int, failed: bool)
      requires Valid() && c in s.phases
      requires var p := s.phases[c]; !p.Idle? && !p.InSection? && p.retry == 0
      modifies this
      ensures Valid() && c in s.phases
      ensures failed ==> s.phases[c] == GaveUp(old(s).phases[c])
      ensures !failed ==> s.phases[c] == Answer(old(s).phases[c], value) && value == s.counter
      ensures !failed && (old(s).phases[c].Clearing? || old(s).phases[c].TimedOut?) ==> value == 0
      ensures old(trace) <= trace && (failed <==> !AnsweredSince(trace, |old(trace)|, c))
    {
      hide Next, Enabled, Answer, GaveUp, Initial, Legal, AnsweredSince;
      ghost var due := s.phases[c];
      NotAnswered(trace, c);
      for i := 0 to RETRY_TIMES
        invariant Valid() && c in s.phases
        invariant s.phases[c] == if i < RETRY_TIMES then Retried(due, i) else GaveUp(due)
        invariant old(trace) <= trace && !AnsweredSince(trace, |old(trace)|, c)
      {
        ghost var before := trace;
        Interfere(c);
        NotAnsweredEither(before, trace, |old(trace)|, c);
        var outcome := SomeOutcome();
        CommandMoves(s, c, outcome, due, i);
        AnsweredSnoc(trace, |old(trace)|, c, c, outcome);
        Take(Command(c, outcome));
        if outcome == Answered {
          return s.counter, false;
        }
      }
      return 0, true;
    }

    method Lock(c: Client, stubborn: bool) returns (ok: bool)
      requires Valid() && c in s.phases && s.phases[c].Idle?
      modifies this
      ensures Valid() && c in s.phases && old(trace) <= trace
      ensures s.phases[c] == if ok then InSection(true) else LockFailed(stubborn)
      ensures ok && Undisturbed(s) ==> forall d :: d in s.phases && d != c ==> !Holds(s.phases[d])
    {
      Take(StartLock(c, stubborn));
      for i := 0 to LOCK_TRIES
        invariant Valid() && c in s.phases
        invariant s.phases[c] == if i < LOCK_TRIES then Trying(i, 0, stubborn) else TimedOut(0, stubborn)
        invariant old(trace) <= trace
      {
        var redisM, failed := Wrapped(c);
        if failed {
          return false;
        }
        if redisM >= 2 {
          var _, failed' := Wrapped(c);
          if failed' {
            return false;
          }
        } else {
          RunKeepsInv(start, trace);
          return true;
        }
      }
      var _, _ := Wrapped(c);
      return false;
    }

    /** Succeeds exactly if its DECR was answered, whatever becomes of the clear; once that was answered as well, the
        counter is zero. */
    method UnLock(c: Client) returns (ok: bool, ghost cleared: bool)
      requires Valid() && c in s.phases && s.phases[c].InSection?
      modifies this
      ensures Valid() && c in s.phases && s.phases[c] == Idle
      ensures old(trace) + [StartUnlock(c)] <= trace && (ok <==> AnsweredSince(trace, |old(trace)|, c))
      ensures cleared ==> ok && s.counter == 0
    {
      Take(StartUnlock(c));
      cleared := false;
      var redisM, failed := Wrapped(c);
      if failed {
        return false, false;
      }
      if redisM < 0 {
        var _, failed' := Wrapped(c);
        cleared := !failed';
      }
      ok := true;
    }

    /** The locking of removeUserLoc: its caller enters the section and unlocks whether or not Lock succeeded.
        `unlockAt` is where in the run it starts to unlock, owning the lock exactly if it got it. */
    method RemoveUserLoc(c: Client) returns (locked: bool, ghost unlockAt: nat)
      requires Valid() && c in s.phases && s.phases[c].Idle?
      modifies this
      ensures Valid() && c in s.phases && s.phases[c] == Idle
      ensures old(trace) <= trace && |old(trace)| <= unlockAt < |trace| && trace[unlockAt] == StartUnlock(c)
      ensures Legal(start, trace[..unlockAt]) && c in After(start, trace[..unlockAt]).phases
      ensures After(start, trace[..unlockAt]).phases[c] == InSection(locked)
    {
      locked := Lock(c, true);
      Interfere(c);
      unlockAt := |trace|;
      ghost var before := trace;
      var _, _ := UnLock(c);
      assert trace[..unlockAt] == before;
    }
  }

  /** The client got an answer to a command since the run had the given length. */
  ghost predicate AnsweredSince(trace: seq<Step>, from: nat, c: Client) {
    exists k :: from <= k < |trace| && trace[k] == Command(c, Answered)
  }

  lemma NotAnswered(trace: seq<Step>, c: Client)
    ensures !AnsweredSince(trace, |trace|, c)
  {
  }

  lemma NotAnsweredEither(before: seq<Step>, trace: seq<Step>, from: nat, c: Client)
    requires before <= trace && from <= |before|
    requires !AnsweredSince(before, from, c) && !AnsweredSince(trace, |before|, c)
    ensures !AnsweredSince(trace, from, c)
  {
    assert forall k :: from <= k < |before| ==> before[k] == trace[k];
  }

  lemma AnsweredSnoc(trace: seq<Step>, from: nat, c: Client, d: Client, outcome: Outcome)
    requires from <= |trace| && !AnsweredSince(trace, from, c)
    ensures AnsweredSince(trace + [Command(d, outcome)], from, c) <==> d == c && outcome == Answered
  {
    var more := trace + [Command(d, outcome)];
    assert more[|trace|] == Command(d, outcome);
    assert forall k :: 0 <= k < |trace| ==> more[k] == trace[k];
  }

  /** One more try of a due command. */
  lemma CommandMoves(s: State, c: Client, outcome: Outcome, due: Phase, i: nat)
    requires c in s.phases && !due.Idle? && !due.InSection? && i < RETRY_TIMES && s.phases[c] == Retried(due, i)
    ensures Enabled(s, Command(c, outcome))
    ensures var t := Next(s, Command(c, outcome));
            && c in t.phases
            && (outcome == Answered ==> t.phases[c] == Answer(due, t.counter))
            && (outcome == Answered && (due.Clearing? || due.TimedOut?) ==> t.counter == 0)
            && (outcome != Answered ==>
                  t.phases[c] == if i + 1 < RETRY_TIMES then Retried(due, i + 1) else GaveUp(due))
  {
  }

  function Retried(p: Phase, retry: nat): Phase
    requires !p.Idle? && !p.InSection?
  {
    p.(retry := retry)
  }

  /** Where a client stands after its command was answered with the given counter. */
  function Answer(p: Phase, value: int): Phase {
    match p
    case Trying(i, _, stubborn) => if value >= 2 then BackingOff(i, 0, stubborn) else InSection(true)
    case BackingOff(i, _, stubborn) => if i + 1 < LOCK_TRIES then Trying(i + 1, 0, stubborn) else TimedOut(0, stubborn)
    case TimedOut(_, stubborn) => LockFailed(stubborn)
    case Unlocking(_, _) => if value < 0 then Clearing(0) else Idle
    case _ => Idle
  }

  /** Where a client stands after its command failed five times. */
  function GaveUp(p: Phase): Phase {
    match p
    case Trying(_, _, stubborn) => LockFailed(stubborn)
    case BackingOff(_, _, stubborn) => LockFailed(stubborn)
    case TimedOut(_, stubborn) => LockFailed(stubborn)
    case _ => Idle
  }
}
