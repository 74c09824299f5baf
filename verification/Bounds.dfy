// What bounds a run: how often an activity is attempted, that every run ends, and how long it
// can take.

module Bounds {
  import opened Contracts
  import opened Workflow
  import opened Policies
  import opened Durable

  // ---- attempts ---------------------------------------------------------------------------

  /**
   * In every run, of two attempts of one activity the earlier raised something its policy
   * retries and has the smaller number, and no number exceeds max_attempts.  So no attempt
   * follows one that returned, and none follows an error that is not to be retried.
   */
  lemma LaterAttemptsAreRetries(c: Config, run: seq<Action>, i: nat, j: nat)
    requires IsRun(c, INIT, run)
    requires i < j < |Final(c, INIT, run).log|
    ensures var a, b := Final(c, INIT, run).log[i], Final(c, INIT, run).log[j];
            && a.step <= b.step
            && 1 <= b.number && (c.settings.maxAttempts > 0 ==> b.number <= c.settings.maxAttempts)
            && (a.step == b.step ==> a.number < b.number && WasRetried(c, a))
  {
    InvInit(c);
    InvRun(c, INIT, run);
    var s := Final(c, INIT, run);
    assert PairOk(c, s, i, j) && AttemptOk(c, s, j);
  }

  /** Attempts that end an activity: a result, a policy violation or an oversized payload. */
  predicate EndsActivity(a: Attempt) {
    a.exit.Some? &&
    match a.exit.value
    case Succeeded(_) => true
    case Errored(f) =>
      f.ApplicationFailure? && a.step == SANDBOX &&
      (f.nonRetryable || f.errorType == "SandboxPolicyViolation" || f.errorType == "PayloadTooLarge")
  }

  /** Nothing is attempted again after a result, a policy violation or an oversized payload. */
  lemma NothingFollowsAnEnd(c: Config, run: seq<Action>, i: nat, j: nat)
    requires IsRun(c, INIT, run)
    requires i < j < |Final(c, INIT, run).log| && EndsActivity(Final(c, INIT, run).log[i])
    ensures Final(c, INIT, run).log[i].step < Final(c, INIT, run).log[j].step
  {
    LaterAttemptsAreRetries(c, run, i, j);
  }

  /** A failure after which the activity is not attempted again, whatever attempts remain. */
  predicate IsFinal(f: Failure, step: nat) {
    match f
    case CancelledFailure => true
    case TimeoutFailure(kind) => kind.ScheduleToStart?
    case ApplicationFailure(errorType, marked) =>
      marked || (step == SANDBOX && (errorType == "SandboxPolicyViolation" || errorType == "PayloadTooLarge"))
  }

  /**
   * An attempt that fails is either retried, and the outcomes stay as they are, or it settles its
   * activity with its failure.  It is retried exactly if attempts remain and the failure is not
   * final: for an agent only a marked error, a cancellation and a missing worker are.
   */
  lemma FailureRetriedOrRecorded(c: Config, s: State, a: Action)
    requires Enabled(c, s, a) && a.Finish? && a.exit.Errored?
    ensures var t, h, m, n := Apply(c, s, a), Outcomes(s.events), c.settings.maxAttempts, s.activity.attempt;
            if (m == 0 || n < m) && !IsFinal(a.exit.failure, Current(s)) then t.activity == Waiting(n + 1) && t.events == s.events
            else t.activity == Idle && Outcomes(t.events) == h + [Failed(a.exit.failure)]
  {
    var u := s.(busy := s.busy + a.ran, log := SetLastExit(s.log, a.exit));
    assert Retries(PolicyOf(c.settings, Current(s)), a.exit.failure, s.activity.attempt)
        <==> (c.settings.maxAttempts == 0 || s.activity.attempt < c.settings.maxAttempts) && !IsFinal(a.exit.failure, Current(s));
    RecordFacts(u, Settled(Failed(a.exit.failure)));
  }

  /** A workflow whose activity failed has ended, and issues nothing more. */
  lemma FailureEnds(inp: RunInput, h: seq<Outcome>, k: nat)
    requires Recorded(inp, h) && k < |h| && !h[k].Done?
    ensures |h| == k + 1 && After(inp, h).control.Ended?
  {
    RecordedPrefix(inp, h, k);
    RecordedPrefix(inp, h, k + 1);
    assert h[..|h|] == h;
  }

  /** An attempt that raised and was not retried has its failure recorded. */
  lemma FailureIsRecorded(c: Config, s: State, i: nat)
    requires Inv(c, s) && i < |s.log| && s.log[i].exit.Some? && s.log[i].exit.value.Errored? && !WasRetried(c, s.log[i])
    ensures var h, k := Outcomes(s.events), s.log[i].step;
            k < |h| && h[k] == Failed(s.log[i].exit.value.failure)
  {
    assert AttemptOk(c, s, i);
  }

  /** An activity is in flight only while the workflow waits for it. */
  lemma InFlightIsAwaited(c: Config, s: State)
    requires Inv(c, s) && !s.activity.Idle?
    ensures !After(c.inp, Outcomes(s.events)).control.Ended?
  {
    var h, cs := Outcomes(s.events), Commands(s.events);
    assert Issues(c.inp, h, |h|, cs[|h|]) && h[..|h|] == h;
  }

  /** The step of the later of two attempts whose earlier one was not retried. */
  lemma LaterStep(c: Config, s: State, i: nat, j: nat)
    requires Inv(c, s) && i < j < |s.log| && !WasRetried(c, s.log[i])
    ensures s.log[i].step < s.log[j].step <= |Outcomes(s.events)|
    ensures s.log[j].step == |Outcomes(s.events)| ==> !s.activity.Idle?
  {
    assert PairOk(c, s, i, j) && AttemptOk(c, s, j);
  }

  /**
   * In every run an attempt of any activity that raised and was not retried is the last attempt of
   * all: its failure is the last outcome, and the workflow has ended on it.
   */
  lemma UnretriedFailureIsLast(c: Config, run: seq<Action>, i: nat)
    requires IsRun(c, INIT, run) && i < |Final(c, INIT, run).log|
    requires var a := Final(c, INIT, run).log[i]; a.exit.Some? && a.exit.value.Errored? && !WasRetried(c, a)
    ensures var s := Final(c, INIT, run);
            var h := Outcomes(s.events);
            && i == |s.log| - 1 && |h| == s.log[i].step + 1
            && h[|h| - 1] == Failed(s.log[i].exit.value.failure)
            && Recorded(c.inp, h) && After(c.inp, h).control.Ended?
  {
    var s := Final(c, INIT, run);
    InvInit(c);
    InvRun(c, INIT, run);
    FailureIsRecorded(c, s, i);
    FailureEnds(c.inp, Outcomes(s.events), s.log[i].step);
    if i < |s.log| - 1 {
      LaterStep(c, s, i, i + 1);
      InFlightIsAwaited(c, s);
    }
  }

  /** How many attempts a log holds of one activity. */
  function AttemptsOf(log: seq<Attempt>, step: nat): nat {
    if log == [] then 0
    else AttemptsOf(log[..|log| - 1], step) + if log[|log| - 1].step == step then 1 else 0
  }

  ghost predicate NumbersRise(log: seq<Attempt>) {
    && (forall i :: 0 <= i < |log| ==> log[i].number >= 1)
    && forall i, j :: 0 <= i < j < |log| && log[i].step == log[j].step ==> log[i].number < log[j].number
  }

  lemma {:induction false} CountBelowNumber(log: seq<Attempt>, step: nat, n: nat)
    requires NumbersRise(log)
    requires forall i :: 0 <= i < |log| && log[i].step == step ==> log[i].number <= n
    ensures AttemptsOf(log, step) <= n
    decreases |log|
  {
    if log != [] {
      var last := log[|log| - 1];
      var rest := log[..|log| - 1];
      assert forall i :: 0 <= i < |rest| ==> rest[i] == log[i];
      CountBelowNumber(rest, step, if last.step == step then last.number - 1 else n);
    }
  }

  /** No activity of any run is attempted more than max_attempts times. */
  lemma AttemptsBounded(c: Config, run: seq<Action>, step: nat)
    requires IsRun(c, INIT, run) && c.settings.maxAttempts >= 1
    ensures AttemptsOf(Final(c, INIT, run).log, step) <= c.settings.maxAttempts
  {
    InvInit(c);
    InvRun(c, INIT, run);
    var s := Final(c, INIT, run);
    forall i | 0 <= i < |s.log| ensures WithinLimit(c, s.log[i].number) {
      assert AttemptOk(c, s, i);
    }
    forall i, j | 0 <= i < j < |s.log| && s.log[i].step == s.log[j].step ensures s.log[i].number < s.log[j].number {
      assert PairOk(c, s, i, j);
    }
    CountBelowNumber(s.log, step, c.settings.maxAttempts);
  }

  // ---- every run ends -----------------------------------------------------------------------

  lemma {:induction false} AtMostFour(inp: RunInput, h: seq<Outcome>)
    requires Recorded(inp, h)
    ensures |h| <= ACTIVITIES
    ensures |h| == ACTIVITIES ==> After(inp, h).control.Ended?
    ensures !After(inp, h).control.Ended? ==>
        match |h|
        case 0 => After(inp, h).control.AwaitPlan?
        case 1 => After(inp, h).control.AwaitCode?
        case 2 => After(inp, h).control.AwaitSandbox?
        case _ => After(inp, h).control.AwaitSummary?
    decreases |h|
  {
    if h != [] {
      AtMostFour(inp, h[..|h| - 1]);
    }
  }

  /** What the bounds below need of a reachable state. */
  predicate Sane(c: Config, s: State) {
    && Current(s) <= ACTIVITIES
    && (!s.activity.Idle? ==> Current(s) < ACTIVITIES && WithinLimit(c, s.activity.attempt))
    && (s.worker.Up? ==> s.worker.seen <= Current(s))
  }

  lemma SaneOfInv(c: Config, s: State)
    requires Inv(c, s)
    ensures Sane(c, s)
  {
    var h, cs := Outcomes(s.events), Commands(s.events);
    AtMostFour(c.inp, h);
    if !s.activity.Idle? {
      assert Issues(c.inp, h, |h|, cs[|h|]) && h[..|h|] == h;
    }
  }

  /** What is left of the attempts of the current activity. */
  function AttemptsLeft(c: Config, s: State): int {
    var m := c.settings.maxAttempts;
    match s.activity
    case Idle => 2 * m + 2
    case Waiting(n) => 2 * (m - n) + 2
    case Executing(n) => 2 * (m - n) + 1
  }

  /** How far the worker is behind. */
  function Behind(s: State): int {
    match s.worker
    case Down => Current(s) + 1
    case Up(_, seen) => Current(s) - seen
  }

  /** Enough steps for the activities from the k-th on. */
  function StepsFrom(c: Config, k: nat): nat
    decreases ACTIVITIES - k
  {
    if k >= ACTIVITIES then 0 else StepsFrom(c, k + 1) + 2 * c.settings.maxAttempts + 5
  }

  /** Remaining activities first, then remaining attempts, then what the worker has to catch up. */
  function Measure(c: Config, s: State): int {
    if IsClosed(s) then 0 else
      StepsFrom(c, Current(s)) + AttemptsLeft(c, s) + Behind(s) + (if CancelRequested in s.events then 0 else 1) + 1
  }

  lemma MeasureNonNegative(c: Config, s: State)
    requires Sane(c, s) && c.settings.maxAttempts >= 1
    ensures Measure(c, s) >= 0
    ensures !IsClosed(s) ==> Measure(c, s) >= 1
  {
  }

  /** Settling the activity in flight. */
  lemma MeasureSettle(c: Config, s: State, t: State, o: Outcome)
    requires Sane(c, s) && c.settings.maxAttempts >= 1
    requires !IsClosed(s) && !s.activity.Idle? && t.activity.Idle?
    requires t.events == s.events + [Settled(o)] && t.worker == s.worker
    ensures Measure(c, t) < Measure(c, s)
  {
    RecordFacts(s, Settled(o));
    CancelFlag(s, Settled(o));
    assert !IsClosed(t);
  }

  lemma CancelFlag(s: State, e: Event)
    requires !e.CancelRequested?
    ensures CancelRequested in s.events + [e] <==> CancelRequested in s.events
  {
  }

  /** A step that leaves the history alone. */
  lemma MeasureQuiet(c: Config, s: State, t: State, fall: int)
    requires !IsClosed(s) && t.events == s.events
    requires AttemptsLeft(c, t) + Behind(t) + fall <= AttemptsLeft(c, s) + Behind(s)
    ensures Measure(c, t) + fall <= Measure(c, s)
  {
  }

  lemma MeasureDispatch(c: Config, s: State, t: State, e: Event)
    requires !IsClosed(s) && s.activity.Idle? && t.activity == Waiting(1) && t.worker == s.worker
    requires e.Scheduled? && t.events == s.events + [e]
    ensures Measure(c, t) < Measure(c, s)
  {
    RecordFacts(s, e);
    CancelFlag(s, e);
    assert !IsClosed(t);
  }

  lemma MeasureCancel(c: Config, s: State)
    requires !IsClosed(s) && CancelRequested !in s.events
    ensures Measure(c, Record(s, CancelRequested)) < Measure(c, s)
  {
    var t := Record(s, CancelRequested);
    RecordFacts(s, CancelRequested);
    assert t.events[|s.events|] == CancelRequested;
  }

  lemma MeasureClose(c: Config, s: State, t: State, e: Event)
    requires Sane(c, s) && c.settings.maxAttempts >= 1 && !IsClosed(s)
    requires e.Closed? && t.events == s.events + [e]
    ensures Measure(c, t) < Measure(c, s)
  {
    MeasureNonNegative(c, s);
    assert t.events[|t.events| - 1] == e;
  }

  /** The attempt reports: it is retried, or its outcome is recorded. */
  lemma MeasureFinish(c: Config, s: State, x: AttemptExit, ran: nat)
    requires Sane(c, s) && c.settings.maxAttempts >= 1 && !IsClosed(s) && s.activity.Executing?
    ensures Measure(c, FinishAttempt(c, s, x, ran)) < Measure(c, s)
  {
    var t := FinishAttempt(c, s, x, ran);
    if t.activity.Idle? {
      MeasureSettle(c, s, t, OutcomeOf(x));
    } else {
      MeasureQuiet(c, s, t, 1);
    }
  }

  /** Every step but a crash makes progress; a crash sets the worker back by at most five. */
  lemma {:induction false} MeasureStep(c: Config, s: State, a: Action)
    requires Sane(c, s) && Enabled(c, s, a) && c.settings.maxAttempts >= 1
    ensures Measure(c, Apply(c, s, a)) <= Measure(c, s) + (if a.Crash? then 5 else -1)
  {
    var t := Apply(c, s, a);
    match a
    case Rebuild => MeasureQuiet(c, s, t, 1);
    case Deliver => MeasureQuiet(c, s, t, 1);
    case Dispatch(_) => MeasureDispatch(c, s, t, Scheduled(Pending(c.inp, s.worker.live)));
    case Close => MeasureClose(c, s, t, Closed(ByWorkflow(s.worker.live.control.exit)));
    case Start(_) => MeasureQuiet(c, s, t, 1);
    case Finish(x, ran, _) => MeasureFinish(c, s, x, ran);
    case QueueTimeout(_) => MeasureSettle(c, s, t, Failed(TimeoutFailure(ScheduleToStart)));
    case RequestCancel => MeasureCancel(c, s);
    case CancelAwait(o, _) => MeasureSettle(c, s, t, o);
    case Crash => MeasureQuiet(c, s, t, -5);
    case TimeOutRun(_) => MeasureClose(c, s, t, Closed(RunTimedOut));
    case Terminate => MeasureClose(c, s, t, Closed(Terminated));
  }

  function Crashes(run: seq<Action>): nat {
    if run == [] then 0 else (if run[0].Crash? then 1 else 0) + Crashes(run[1..])
  }

  lemma {:induction false} RunLength(c: Config, s: State, run: seq<Action>)
    requires Inv(c, s) && IsRun(c, s, run) && c.settings.maxAttempts >= 1
    ensures |run| + Measure(c, Final(c, s, run)) <= Measure(c, s) + 6 * Crashes(run)
    decreases |run|
  {
    if run != [] {
      InvStep(c, s, run[0]);
      SaneOfInv(c, s);
      MeasureStep(c, s, run[0]);
      RunLength(c, Apply(c, s, run[0]), run[1..]);
    }
  }

  /**
   * Every run ends: however the environment behaves, a run has at most a fixed number of steps
   * and six more for each crash.
   */
  lemma {:induction false} RunsAreBounded(c: Config, run: seq<Action>)
    requires IsRun(c, INIT, run) && c.settings.maxAttempts >= 1
    ensures |run| <= 10 * c.settings.maxAttempts + 25 + 6 * Crashes(run)
  {
    InvInit(c);
    InvRun(c, INIT, run);
    RunLength(c, INIT, run);
    SaneOfInv(c, Final(c, INIT, run));
    MeasureNonNegative(c, Final(c, INIT, run));
    assert StepsFrom(c, 3) == 2 * c.settings.maxAttempts + 5;
    assert StepsFrom(c, 2) == 2 * StepsFrom(c, 3);
    assert StepsFrom(c, 1) == 3 * StepsFrom(c, 3);
  }

  /** A step the system itself can always take: nothing but closing the run stops it. */
  function NextStep(s: State): Action {
    match s.activity
    case Executing(_) => Finish(Errored(TimeoutFailure(StartToClose)), 0, 0)
    case Waiting(_) => Start(0)
    case Idle =>
      if s.worker.Down? then Rebuild
      else if s.worker.seen < Current(s) then Deliver
      else if s.worker.live.control.Ended? then Close
      else Dispatch(0)
  }

  /** No run gets stuck: an open run can always take a step other than a crash or a cancellation. */
  lemma NeverStuck(c: Config, run: seq<Action>)
    requires IsRun(c, INIT, run) && !IsClosed(Final(c, INIT, run))
    ensures Enabled(c, Final(c, INIT, run), NextStep(Final(c, INIT, run)))
  {
    InvInit(c);
    InvRun(c, INIT, run);
    var s := Final(c, INIT, run);
    var h := Outcomes(s.events);
    if s.worker.Up? && s.worker.seen < |h| {
      RecordedPrefix(c.inp, h, s.worker.seen);
    }
  }

  // ---- without an attempt limit ---------------------------------------------------------------

  /** The plan activity failing n times. */
  function FailingAttempts(n: nat): seq<Action> {
    if n == 0 then [] else [Start(0), Finish(Errored(TimeoutFailure(StartToClose)), 0, 0)] + FailingAttempts(n - 1)
  }

  lemma {:induction false} FailingAttemptsRun(c: Config, s: State, n: nat)
    requires c.settings.maxAttempts == 0 && s.activity.Waiting? && !IsClosed(s) && Commands(s.events) != []
    ensures IsRun(c, s, FailingAttempts(n))
    ensures |Final(c, s, FailingAttempts(n)).log| == |s.log| + n && !IsClosed(Final(c, s, FailingAttempts(n)))
    decreases n
  {
    if n > 0 {
      var t := Apply(c, s, Start(0));
      var u := Apply(c, t, Finish(Errored(TimeoutFailure(StartToClose)), 0, 0));
      FailingAttemptsRun(c, u, n - 1);
      var rest := FailingAttempts(n - 1);
      var run := FailingAttempts(n);
      assert run[1..][1..] == rest;
    }
  }

  /**
   * The limit is needed.  With max_attempts 0, which Temporal reads as "no limit", there are
   * runs with any number of attempts that are still open.
   */
  lemma NoLimitNoEnd(c: Config, n: nat) returns (run: seq<Action>)
    requires c.settings.maxAttempts == 0
    ensures IsRun(c, INIT, run)
    ensures |Final(c, INIT, run).log| == n && !IsClosed(Final(c, INIT, run))
  {
    var s := Apply(c, INIT, Rebuild);
    var t := Apply(c, s, Dispatch(0));
    RecordFacts(s, Scheduled(Pending(c.inp, BEGIN)));
    FailingAttemptsRun(c, t, n);
    run := [Rebuild, Dispatch(0)] + FailingAttempts(n);
    assert run[1..][1..] == FailingAttempts(n);
    assert run[1..][0] == Dispatch(0);
  }

  // ---- time -----------------------------------------------------------------------------------

  /** Execution and backoff time of the current activity so far. */
  function SpentOnCurrent(c: Config, s: State): nat {
    var k := Current(s);
    match s.activity
    case Idle => 0
    case Waiting(n) => if n == 0 then 0 else AttemptBudget(c.settings, k, n - 1)
    case Executing(n) =>
      if n == 0 then 0
      else (n - 1) * StartToCloseOf(c.settings, k) + Backoff(PolicyOf(c.settings, k), n)
  }

  ghost predicate TimeOk(c: Config, s: State) {
    if IsClosed(s) then s.busy + s.backoff <= RunBudget(c.settings)
    else s.busy + s.backoff <= BudgetOfFirst(c.settings, Current(s)) + SpentOnCurrent(c, s)
  }

  /** Whatever the current activity spends without being retried stays within its budget. */
  lemma {:induction false} CurrentFits(c: Config, s: State, spent: nat)
    requires Sane(c, s) && !s.activity.Idle? && c.settings.maxAttempts >= 1
    requires WithinAttempt(c, s, spent)
    ensures s.activity.Executing? ==>
        SpentOnCurrent(c, s) + spent <= AttemptBudget(c.settings, Current(s), s.activity.attempt)
    ensures s.activity.Waiting? ==>
        SpentOnCurrent(c, s) + DelayBefore(c, s, s.activity.attempt) <= ActivityBudget(c.settings, Current(s))
    ensures AttemptBudget(c.settings, Current(s), s.activity.attempt) <= ActivityBudget(c.settings, Current(s))
  {
    var n, k := s.activity.attempt, Current(s);
    var t := StartToCloseOf(c.settings, k);
    AttemptBudgetMonotone(c.settings, k, n, c.settings.maxAttempts);
    assert n * t == (n - 1) * t + t;
  }

  lemma BudgetSteps(c: Config, k: nat)
    requires k < ACTIVITIES
    ensures BudgetOfFirst(c.settings, k) + ActivityBudget(c.settings, k) == BudgetOfFirst(c.settings, k + 1)
    ensures BudgetOfFirst(c.settings, k + 1) <= RunBudget(c.settings)
  {
    BudgetOfFirstMonotone(c.settings, k + 1, ACTIVITIES);
  }

  /** The time of an open run is within the budget of the whole run. */
  lemma {:induction false} OpenTime(c: Config, s: State, spent: nat)
    requires Sane(c, s) && TimeOk(c, s) && !IsClosed(s) && c.settings.maxAttempts >= 1
    requires WithinAttempt(c, s, spent)
    ensures var t := Charge(c, s, spent);
            && t.busy + t.backoff <= RunBudget(c.settings)
            && (!s.activity.Idle? ==> t.busy + t.backoff <= BudgetOfFirst(c.settings, Current(s) + 1))
  {
    if s.activity.Idle? {
      BudgetOfFirstMonotone(c.settings, Current(s), ACTIVITIES);
    } else {
      CurrentFits(c, s, spent);
      BudgetSteps(c, Current(s));
    }
  }

  lemma TimeStart(c: Config, s: State, wait: nat)
    requires Sane(c, s) && TimeOk(c, s) && Enabled(c, s, Start(wait))
    ensures TimeOk(c, Apply(c, s, Start(wait)))
  {
  }

  lemma TimeDispatch(c: Config, s: State, wait: nat)
    requires TimeOk(c, s) && Enabled(c, s, Dispatch(wait))
    ensures TimeOk(c, Apply(c, s, Dispatch(wait)))
  {
    RecordFacts(s, Scheduled(Pending(c.inp, s.worker.live)));
    assert AttemptBudget(c.settings, Current(s), 0) == 0;
  }

  /** Settling the activity in flight within its budget. */
  lemma TimeSettle(c: Config, s: State, t: State, o: Outcome)
    requires t.busy + t.backoff <= BudgetOfFirst(c.settings, Current(s) + 1)
    requires t.events == s.events + [Settled(o)] && t.activity.Idle?
    ensures TimeOk(c, t)
  {
    RecordFacts(s, Settled(o));
    assert !IsClosed(t);
  }

  /** Closing the run, or recording a request, within the budget of the run so far. */
  lemma TimeRecord(c: Config, s: State, e: Event)
    requires !e.Settled? && !e.Scheduled?
    requires if e.Closed? then s.busy + s.backoff <= RunBudget(c.settings) else TimeOk(c, s) && !IsClosed(s)
    ensures TimeOk(c, Record(s, e))
  {
    RecordFacts(s, e);
  }

  lemma TimeFinish(c: Config, s: State, x: AttemptExit, ran: nat, silence: nat)
    requires Sane(c, s) && TimeOk(c, s) && c.settings.maxAttempts >= 1 && Enabled(c, s, Finish(x, ran, silence))
    ensures TimeOk(c, Apply(c, s, Finish(x, ran, silence)))
  {
    var t := Apply(c, s, Finish(x, ran, silence));
    CurrentFits(c, s, ran);
    BudgetSteps(c, Current(s));
    if t.activity.Idle? {
      TimeSettle(c, s, t, OutcomeOf(x));
    }
  }

  lemma {:induction false} TimeStep(c: Config, s: State, a: Action)
    requires Sane(c, s) && TimeOk(c, s) && Enabled(c, s, a) && c.settings.maxAttempts >= 1
    ensures TimeOk(c, Apply(c, s, a))
  {
    match a
    case Rebuild =>
    case Deliver =>
    case Dispatch(wait) => TimeDispatch(c, s, wait);
    case Close =>
      OpenTime(c, s, 0);
      TimeRecord(c, s, Closed(ByWorkflow(s.worker.live.control.exit)));
    case Start(wait) => TimeStart(c, s, wait);
    case Finish(x, ran, silence) => TimeFinish(c, s, x, ran, silence);
    case QueueTimeout(wait) =>
      OpenTime(c, s, wait);
      TimeSettle(c, s, Apply(c, s, a), Failed(TimeoutFailure(ScheduleToStart)));
    case RequestCancel => TimeRecord(c, s, CancelRequested);
    case CancelAwait(o, spent) =>
      OpenTime(c, s, spent);
      TimeSettle(c, s, Apply(c, s, a), o);
    case Crash =>
    case TimeOutRun(spent) =>
      OpenTime(c, s, spent);
      TimeRecord(c, Charge(c, s, spent), Closed(RunTimedOut));
    case Terminate =>
      OpenTime(c, s, 0);
      TimeRecord(c, s, Closed(Terminated));
  }

  lemma {:induction false} TimeRun(c: Config, s: State, run: seq<Action>)
    requires Inv(c, s) && TimeOk(c, s) && IsRun(c, s, run) && c.settings.maxAttempts >= 1
    ensures TimeOk(c, Final(c, s, run))
    decreases |run|
  {
    if run != [] {
      InvStep(c, s, run[0]);
      SaneOfInv(c, s);
      TimeStep(c, s, run[0]);
      TimeRun(c, Apply(c, s, run[0]), run[1..]);
    }
  }

  /**
   * A run takes at most its budget of execution and backoff, plus the time it waited for
   * workers.
   */
  lemma RunTime(c: Config, run: seq<Action>)
    requires IsRun(c, INIT, run) && c.settings.maxAttempts >= 1
    ensures Clock(Final(c, INIT, run)) <= RunBudget(c.settings) + Final(c, INIT, run).waited
  {
    InvInit(c);
    InvRun(c, INIT, run);
    TimeRun(c, INIT, run);
    var s := Final(c, INIT, run);
    SaneOfInv(c, s);
    if !IsClosed(s) {
      OpenTime(c, s, 0);
    }
  }

  /** The history was closed by the run timeout only after the timeout had passed. */
  lemma {:induction false} TimedOutRun(c: Config, s: State, run: seq<Action>)
    requires IsRun(c, s, run) && !IsClosed(s)
    requires IsClosed(Final(c, s, run)) && ClosureOf(Final(c, s, run)) == RunTimedOut
    ensures Clock(Final(c, s, run)) >= c.settings.workflowRunTimeoutS
    decreases |run|
  {
    var t := Apply(c, s, run[0]);
    if IsClosed(t) {
      assert run[1..] == [];
    } else {
      TimedOutRun(c, t, run[1..]);
    }
  }

  /**
   * So the run timeout can only fire on a run that waited: at the default settings, for at
   * least 18 seconds in all.
   */
  lemma {:induction false} TimeoutMeansWaiting(c: Config, run: seq<Action>)
    requires IsRun(c, INIT, run) && c.settings.maxAttempts >= 1
    requires IsClosed(Final(c, INIT, run)) && ClosureOf(Final(c, INIT, run)) == RunTimedOut
    ensures Final(c, INIT, run).waited >= c.settings.workflowRunTimeoutS - RunBudget(c.settings)
    ensures c.settings == DEFAULTS ==> Final(c, INIT, run).waited >= 18
  {
    RunTime(c, run);
    TimedOutRun(c, INIT, run);
    DefaultRunBudget();
  }
}
