// A run as Temporal executes it: a growing event history, the one activity in flight, the
// worker's cached workflow, and an environment that starts, fails, times out and retries
// attempts, cancels, crashes workers and rebuilds them.  Everything below is about every run of
// this machine.

module Durable {
  import opened Contracts
  import opened Workflow
  import opened Policies

  // ---- state --------------------------------------------------------------------------

  datatype Closure = ByWorkflow(exit: Exit) | RunTimedOut | Terminated

  datatype Event = Scheduled(command: Command) | Settled(outcome: Outcome) | CancelRequested | Closed(closure: Closure)

  /** The activity in flight: queued for, or executing, a numbered attempt. */
  datatype Activity = Idle | Waiting(attempt: nat) | Executing(attempt: nat)

  datatype Worker = Down | Up(live: Live, seen: nat)

  datatype AttemptExit = Succeeded(value: Value) | Errored(failure: Failure)

  /** An attempt dispatched to a worker; an abandoned attempt never reports an exit. */
  datatype Attempt = Attempt(step: nat, number: nat, exit: Option<AttemptExit>)

  /** Seconds are split into executing attempts, backing off, and waiting for anything else. */
  datatype State = State(
    events: seq<Event>, activity: Activity, worker: Worker, log: seq<Attempt>,
    busy: nat, backoff: nat, waited: nat)

  datatype Config = Config(settings: Settings, inp: RunInput)

  const INIT := State([], Idle, Down, [], 0, 0, 0)

  /** The outcomes recorded by a history. */
  function Outcomes(es: seq<Event>): seq<Outcome> {
    if es == [] then [] else
      var e, rest := es[|es| - 1], Outcomes(es[..|es| - 1]);
      if e.Settled? then rest + [e.outcome] else rest
  }

  /** The commands recorded by a history. */
  function Commands(es: seq<Event>): seq<Command> {
    if es == [] then [] else
      var e, rest := es[|es| - 1], Commands(es[..|es| - 1]);
      if e.Scheduled? then rest + [e.command] else rest
  }

  predicate IsClosed(s: State) {
    s.events != [] && s.events[|s.events| - 1].Closed?
  }

  function ClosureOf(s: State): Closure
    requires IsClosed(s)
  {
    s.events[|s.events| - 1].closure
  }

  // ---- steps --------------------------------------------------------------------------

  /** An attempt that finishes has run for `ran`, and been silent for at most `silence` at a time. */
  datatype Action =
    | Rebuild                                  // a worker picks the run up and replays its history
    | Deliver                                  // the cached workflow receives the next outcome
    | Dispatch(wait: nat)                      // the command of the cached workflow is recorded
    | Close                                    // the cached workflow has ended; its exit is recorded
    | Start(wait: nat)                         // a worker starts the queued attempt
    | Finish(exit: AttemptExit, ran: nat, silence: nat) // the attempt reports, or is timed out
    | QueueTimeout(wait: nat)                  // schedule_to_start passes without a worker
    | RequestCancel
    | CancelAwait(outcome: Outcome, spent: nat) // cancellation reaches the awaited activity
    | Crash
    | TimeOutRun(spent: nat)                   // the run timeout fires
    | Terminate

  function Clock(s: State): nat {
    s.busy + s.backoff + s.waited
  }

  /** Charges time that ends without the current activity reporting. */
  function Charge(c: Config, s: State, spent: nat): State {
    match s.activity
    case Idle => s.(waited := s.waited + spent)
    case Executing(_) => s.(busy := s.busy + spent)
    case Waiting(n) =>
      var d := DelayBefore(c, s, n);
      if spent <= d then s.(backoff := s.backoff + spent)
      else s.(backoff := s.backoff + d, waited := s.waited + (spent - d))
  }

  /** The index of the activity in flight. */
  function Current(s: State): nat {
    |Outcomes(s.events)|
  }

  function DelayBefore(c: Config, s: State, n: nat): nat {
    if n <= 1 then 0 else Delay(PolicyOf(c.settings, Current(s)), n - 1)
  }

  predicate WithinAttempt(c: Config, s: State, spent: nat) {
    s.activity.Executing? ==> spent <= StartToCloseOf(c.settings, Current(s))
  }

  /** An exit that the worker reports, rather than the server for want of one. */
  predicate Reported(x: AttemptExit) {
    x.Succeeded? || !x.failure.TimeoutFailure?
  }

  /** What the environment may do; the conditions on the history hold of every reachable one. */
  predicate Enabled(c: Config, s: State, a: Action) {
    var h, cs := Outcomes(s.events), Commands(s.events);
    !IsClosed(s) &&
    match a
    case Rebuild => s.worker.Down? && Recorded(c.inp, h)
    case Deliver =>
      s.worker.Up? && s.worker.seen < |h| && !s.worker.live.control.Ended? && s.worker.live.steps != []
      && Fits(Pending(c.inp, s.worker.live), h[s.worker.seen])
    case Dispatch(_) =>
      s.worker.Up? && s.worker.seen == |h| && !s.worker.live.control.Ended? && s.activity.Idle?
    case Close => s.worker.Up? && s.worker.seen == |h| && s.worker.live.control.Ended?
    case Start(_) => s.activity.Waiting?
    case Finish(exit, ran, silence) =>
      && s.activity.Executing? && WithinAttempt(c, s, ran) && |cs| > 0
      && (Reported(exit) ==> HeardInTime(c.settings, Current(s), silence))
      && (exit.Succeeded? ==> Fits(cs[|cs| - 1], Done(exit.value)))
      && (exit == Errored(CancelledFailure) ==> CancelRequested in s.events)
    case QueueTimeout(wait) => s.activity.Waiting? && wait >= c.settings.scheduleToStartS
    case RequestCancel => CancelRequested !in s.events
    case CancelAwait(o, spent) =>
      && CancelRequested in s.events && !s.activity.Idle? && WithinAttempt(c, s, spent)
      && (o == BareCancel || o == Failed(CancelledFailure))
    case Crash => s.worker.Up?
    case TimeOutRun(spent) => WithinAttempt(c, s, spent) && Clock(s) + spent >= c.settings.workflowRunTimeoutS
    case Terminate => true
  }

  function Record(s: State, e: Event): State {
    s.(events := s.events + [e])
  }

  function Resolve(s: State, o: Outcome): State {
    Record(s, Settled(o)).(activity := Idle)
  }

  /** The outcome an attempt's report settles the activity with. */
  function OutcomeOf(x: AttemptExit): Outcome {
    match x
    case Succeeded(v) => Done(v)
    case Errored(f) => Failed(f)
  }

  function SetLastExit(log: seq<Attempt>, x: AttemptExit): seq<Attempt> {
    if log == [] then [] else log[|log| - 1 := log[|log| - 1].(exit := Some(x))]
  }

  /** The last attempt reports. */
  function FinishAttempt(c: Config, s: State, x: AttemptExit, ran: nat): State
    requires s.activity.Executing?
  {
    var n := s.activity.attempt;
    var t := s.(busy := s.busy + ran, log := SetLastExit(s.log, x));
    if x.Errored? && Retries(PolicyOf(c.settings, Current(s)), x.failure, n) then t.(activity := Waiting(n + 1))
    else Resolve(t, OutcomeOf(x))
  }

  function Apply(c: Config, s: State, a: Action): State
    requires Enabled(c, s, a)
  {
    var h := Outcomes(s.events);
    match a
    case Rebuild => s.(worker := Up(After(c.inp, h), |h|))
    case Deliver => s.(worker := Up(Resume(c.inp, s.worker.live, h[s.worker.seen]), s.worker.seen + 1))
    case Dispatch(wait) =>
      Record(s, Scheduled(Pending(c.inp, s.worker.live))).(activity := Waiting(1), waited := s.waited + wait)
    case Close => Record(s, Closed(ByWorkflow(s.worker.live.control.exit)))
    case Start(wait) =>
      var n := s.activity.attempt;
      s.(activity := Executing(n), log := s.log + [Attempt(|h|, n, None)],
         backoff := s.backoff + DelayBefore(c, s, n), waited := s.waited + wait)
    case Finish(x, ran, _) => FinishAttempt(c, s, x, ran)
    case QueueTimeout(wait) => Resolve(Charge(c, s, wait), Failed(TimeoutFailure(ScheduleToStart)))
    case RequestCancel => Record(s, CancelRequested)
    case CancelAwait(o, spent) => Resolve(Charge(c, s, spent), o)
    case Crash => s.(worker := Down)
    case TimeOutRun(spent) => Record(Charge(c, s, spent), Closed(RunTimedOut))
    case Terminate => Record(s, Closed(Terminated))
  }

  predicate IsRun(c: Config, s: State, run: seq<Action>)
    decreases |run|
  {
    run == [] || (Enabled(c, s, run[0]) && IsRun(c, Apply(c, s, run[0]), run[1..]))
  }

  function Final(c: Config, s: State, run: seq<Action>): State
    requires IsRun(c, s, run)
    decreases |run|
  {
    if run == [] then s else Final(c, Apply(c, s, run[0]), run[1..])
  }

  // ---- the invariant --------------------------------------------------------------------

  /** The recorded commands are the ones the workflow issues on replay, one per outcome plus the one in flight. */
  ghost predicate HistoryOk(c: Config, s: State) {
    var h, cs := Outcomes(s.events), Commands(s.events);
    && Recorded(c.inp, h)
    && |cs| == |h| + (if s.activity.Idle? then 0 else 1)
    && forall k :: 0 <= k < |cs| ==> Issues(c.inp, h, k, cs[k])
  }

  /** The cached workflow is the live workflow after the outcomes delivered to it. */
  ghost predicate WorkerOk(c: Config, s: State) {
    var h := Outcomes(s.events);
    s.worker.Up? ==>
      && s.worker.seen <= |h| && Recorded(c.inp, h[..s.worker.seen])
      && s.worker.live == After(c.inp, h[..s.worker.seen])
  }

  predicate WithinLimit(c: Config, n: nat) {
    1 <= n && (c.settings.maxAttempts > 0 ==> n <= c.settings.maxAttempts)
  }

  ghost predicate ActivityOk(c: Config, s: State) {
    !s.activity.Idle? ==> WithinLimit(c, s.activity.attempt)
  }

  /** An attempt that was retried: it raised something the policy retries. */
  predicate WasRetried(c: Config, a: Attempt) {
    a.exit.Some? && a.exit.value.Errored? && Retries(PolicyOf(c.settings, a.step), a.exit.value.failure, a.number)
  }

  /** What one logged attempt says about the history. */
  ghost predicate AttemptOk(c: Config, s: State, i: nat)
    requires i < |s.log|
  {
    var a, h := s.log[i], Outcomes(s.events);
    && WithinLimit(c, a.number) && a.step <= |h|
    && (a.step < |h| && a.exit.Some? && !WasRetried(c, a) ==>
          h[a.step] == OutcomeOf(a.exit.value))
    && (a.step == |h| ==>
          match s.activity
          case Idle => false
          case Waiting(n) => a.number < n && WasRetried(c, a)
          case Executing(n) => if i == |s.log| - 1 then a.number == n && a.exit == None else a.number < n && WasRetried(c, a))
  }

  /** Of two attempts of one activity the earlier was retried. */
  ghost predicate PairOk(c: Config, s: State, i: nat, j: nat)
    requires i < j < |s.log|
  {
    var a, b := s.log[i], s.log[j];
    a.step <= b.step && (a.step == b.step ==> a.number < b.number && WasRetried(c, a))
  }

  /** Some logged attempt of activity k returned v. */
  ghost predicate ReturnedBy(s: State, k: nat, v: Value) {
    exists i :: 0 <= i < |s.log| && s.log[i].step == k && s.log[i].exit == Some(Succeeded(v))
  }

  ghost predicate LogOk(c: Config, s: State) {
    && (forall i :: 0 <= i < |s.log| ==> AttemptOk(c, s, i))
    && (forall i, j :: 0 <= i < j < |s.log| ==> PairOk(c, s, i, j))
    && (s.activity.Executing? ==> s.log != [] && s.log[|s.log| - 1].step == Current(s))
    && (forall k :: 0 <= k < Current(s) && Outcomes(s.events)[k].Done? ==> ReturnedBy(s, k, Outcomes(s.events)[k].value))
  }

  ghost predicate ClosedOk(c: Config, s: State) {
    IsClosed(s) && ClosureOf(s).ByWorkflow? ==>
      Recorded(c.inp, Outcomes(s.events)) && After(c.inp, Outcomes(s.events)).control == Ended(ClosureOf(s).exit)
  }

  ghost predicate Inv(c: Config, s: State) {
    HistoryOk(c, s) && WorkerOk(c, s) && ActivityOk(c, s) && LogOk(c, s) && ClosedOk(c, s)
  }

  // ---- preservation -----------------------------------------------------------------------

  lemma RecordFacts(s: State, e: Event)
    ensures Outcomes(s.events + [e]) == Outcomes(s.events) + (if e.Settled? then [e.outcome] else [])
    ensures Commands(s.events + [e]) == Commands(s.events) + (if e.Scheduled? then [e.command] else [])
    ensures IsClosed(Record(s, e)) <==> e.Closed?
  {
    assert (s.events + [e])[..|s.events|] == s.events;
  }

  lemma {:induction false} InvInit(c: Config)
    ensures Inv(c, INIT)
  {
  }

  /** Recording one more outcome that answers the command in flight. */
  lemma ResolveHistory(c: Config, s: State, o: Outcome)
    requires HistoryOk(c, s) && !s.activity.Idle? && Fits(Commands(s.events)[Current(s)], o)
    ensures HistoryOk(c, Resolve(s, o))
    ensures Outcomes(Resolve(s, o).events) == Outcomes(s.events) + [o]
  {
    var h, cs := Outcomes(s.events), Commands(s.events);
    RecordFacts(s, Settled(o));
    assert Issues(c.inp, h, |h|, cs[|h|]) && h[..|h|] == h;
    assert (h + [o])[..|h|] == h;
    forall k | 0 <= k < |cs| ensures Issues(c.inp, h + [o], k, cs[k]) {
      assert Issues(c.inp, h, k, cs[k]);
      assert (h + [o])[..k] == h[..k];
    }
  }

  lemma ResolveWorker(c: Config, s: State, o: Outcome)
    requires WorkerOk(c, s)
    ensures WorkerOk(c, Resolve(s, o))
  {
    var h := Outcomes(s.events);
    RecordFacts(s, Settled(o));
    if s.worker.Up? {
      assert (h + [o])[..s.worker.seen] == h[..s.worker.seen];
    }
  }

  /** Entries of the log keep their meaning when the outcome of the activity in flight is recorded. */
  lemma ResolveLog(c: Config, s: State, o: Outcome)
    requires LogOk(c, s) && !s.activity.Idle?
    requires s.activity.Executing? ==> s.log[|s.log| - 1].exit == None
    requires !o.Done?
    ensures LogOk(c, Resolve(s, o))
  {
    var h, t := Outcomes(s.events), Resolve(s, o);
    RecordFacts(s, Settled(o));
    forall i | 0 <= i < |t.log| ensures AttemptOk(c, t, i) {
      assert AttemptOk(c, s, i);
    }
    forall i, j | 0 <= i < j < |t.log| ensures PairOk(c, t, i, j) {
      assert PairOk(c, s, i, j);
    }
    forall k | 0 <= k < Current(t) && Outcomes(t.events)[k].Done? ensures ReturnedBy(t, k, Outcomes(t.events)[k].value) {
      assert Outcomes(t.events)[k] == h[k];
      assert ReturnedBy(s, k, h[k].value);
    }
  }

  /** The log's meaning depends only on the log, the outcomes and the activity in flight. */
  lemma LogSame(c: Config, s: State, t: State)
    requires LogOk(c, s)
    requires t.log == s.log && t.activity == s.activity && Outcomes(t.events) == Outcomes(s.events)
    ensures LogOk(c, t)
  {
    forall i | 0 <= i < |t.log| ensures AttemptOk(c, t, i) { assert AttemptOk(c, s, i); }
    forall i, j | 0 <= i < j < |t.log| ensures PairOk(c, t, i, j) { assert PairOk(c, s, i, j); }
    forall k | 0 <= k < Current(t) && Outcomes(t.events)[k].Done? ensures ReturnedBy(t, k, Outcomes(t.events)[k].value) {
      assert ReturnedBy(s, k, Outcomes(s.events)[k].value);
    }
  }

  /** A state that differs only in its clock. */
  predicate SameButTime(s: State, t: State) {
    t.events == s.events && t.activity == s.activity && t.worker == s.worker && t.log == s.log
  }

  lemma InvTime(c: Config, s: State, t: State)
    requires Inv(c, s) && SameButTime(s, t)
    ensures Inv(c, t)
  {
    LogSame(c, s, t);
  }

  /** Recording an event that settles nothing and schedules nothing. */
  lemma InvRecord(c: Config, s: State, e: Event)
    requires Inv(c, s) && !IsClosed(s)
    requires !e.Settled? && !e.Scheduled?
    requires e.Closed? && e.closure.ByWorkflow? ==>
        After(c.inp, Outcomes(s.events)).control == Ended(e.closure.exit)
    ensures Inv(c, Record(s, e))
  {
    var t := Record(s, e);
    RecordFacts(s, e);
    LogSame(c, s, t);
  }

  /** An activity that ends without an attempt reporting: a queue timeout or a cancellation. */
  lemma InvResolve(c: Config, s: State, o: Outcome)
    requires Inv(c, s) && !IsClosed(s) && !s.activity.Idle? && !o.Done?
    ensures Inv(c, Resolve(s, o))
  {
    ResolveHistory(c, s, o);
    ResolveWorker(c, s, o);
    assert s.activity.Executing? ==> AttemptOk(c, s, |s.log| - 1);
    ResolveLog(c, s, o);
    RecordFacts(s, Settled(o));
  }

  lemma InvWorker(c: Config, s: State, w: Worker)
    requires Inv(c, s) && WorkerOk(c, s.(worker := w))
    ensures Inv(c, s.(worker := w))
  {
    var t := s.(worker := w);
    LogSame(c, s, t);
  }

  lemma InvDispatch(c: Config, s: State, wait: nat)
    requires Inv(c, s) && Enabled(c, s, Dispatch(wait))
    ensures Inv(c, Apply(c, s, Dispatch(wait)))
  {
    var t, h, cs := Apply(c, s, Dispatch(wait)), Outcomes(s.events), Commands(s.events);
    RecordFacts(s, Scheduled(Pending(c.inp, s.worker.live)));
    assert h[..|h|] == h;
    forall k | 0 <= k < |cs| + 1 ensures Issues(c.inp, h, k, Commands(t.events)[k]) {
      assert k < |cs| ==> Issues(c.inp, h, k, cs[k]);
    }
    assert LogOk(c, t) by {
      forall i | 0 <= i < |t.log| ensures AttemptOk(c, t, i) { assert AttemptOk(c, s, i); }
      forall i, j | 0 <= i < j < |t.log| ensures PairOk(c, t, i, j) { assert PairOk(c, s, i, j); }
      forall k | 0 <= k < Current(t) && Outcomes(t.events)[k].Done? ensures ReturnedBy(t, k, Outcomes(t.events)[k].value) {
        assert ReturnedBy(s, k, h[k].value);
      }
    }
  }

  lemma InvStart(c: Config, s: State, wait: nat)
    requires Inv(c, s) && Enabled(c, s, Start(wait))
    ensures Inv(c, Apply(c, s, Start(wait)))
  {
    var t, h := Apply(c, s, Start(wait)), Outcomes(s.events);
    assert LogOk(c, t) by {
      forall i | 0 <= i < |t.log| ensures AttemptOk(c, t, i) { assert i < |s.log| ==> AttemptOk(c, s, i); }
      forall i, j | 0 <= i < j < |t.log| ensures PairOk(c, t, i, j) {
        assert AttemptOk(c, s, i);
        assert j < |s.log| ==> PairOk(c, s, i, j);
      }
      forall k | 0 <= k < Current(t) && Outcomes(t.events)[k].Done? ensures ReturnedBy(t, k, Outcomes(t.events)[k].value) {
        assert ReturnedBy(s, k, h[k].value);
        var i :| 0 <= i < |s.log| && s.log[i].step == k && s.log[i].exit == Some(Succeeded(h[k].value));
        assert t.log[i] == s.log[i];
      }
    }
  }

  /** What the attempt's report makes of the log and of the outcomes. */
  predicate Finished(c: Config, s: State, x: AttemptExit, t: State) {
    var h, last := Outcomes(s.events), |s.log| - 1;
    && s.activity.Executing? && s.log != [] && s.log[last] == Attempt(|h|, s.activity.attempt, None)
    && t.log == s.log[last := Attempt(|h|, s.activity.attempt, Some(x))]
    && (if WasRetried(c, t.log[last]) then t.activity == Waiting(s.activity.attempt + 1) && Outcomes(t.events) == h
        else t.activity.Idle? && Outcomes(t.events) == h + [OutcomeOf(x)])
  }

  lemma FinishIs(c: Config, s: State, x: AttemptExit, ran: nat)
    requires s.activity.Executing? && LogOk(c, s)
    ensures Finished(c, s, x, FinishAttempt(c, s, x, ran))
  {
    RecordFacts(s, Settled(OutcomeOf(x)));
    assert AttemptOk(c, s, |s.log| - 1);
  }

  lemma FinishAttemptOk(c: Config, s: State, x: AttemptExit, t: State, i: nat)
    requires Finished(c, s, x, t) && i < |s.log| && AttemptOk(c, s, i)
    ensures AttemptOk(c, t, i)
  {
  }

  lemma FinishPairOk(c: Config, s: State, x: AttemptExit, t: State, i: nat, j: nat)
    requires Finished(c, s, x, t) && i < j < |s.log| && PairOk(c, s, i, j)
    ensures PairOk(c, t, i, j)
  {
  }

  lemma FinishReturned(c: Config, s: State, x: AttemptExit, t: State, k: nat)
    requires Finished(c, s, x, t) && k < Current(t) && Outcomes(t.events)[k].Done?
    requires k < Current(s) && Outcomes(s.events)[k].Done? ==> ReturnedBy(s, k, Outcomes(s.events)[k].value)
    ensures ReturnedBy(t, k, Outcomes(t.events)[k].value)
  {
    if k < Current(s) {
      var v := Outcomes(s.events)[k].value;
      var i :| 0 <= i < |s.log| && s.log[i].step == k && s.log[i].exit == Some(Succeeded(v));
      assert t.log[i] == s.log[i];
    } else {
      assert t.log[|s.log| - 1].step == k;
    }
  }

  lemma FinishLog(c: Config, s: State, x: AttemptExit, t: State)
    requires LogOk(c, s) && Finished(c, s, x, t)
    ensures LogOk(c, t)
  {
    forall i | 0 <= i < |t.log| ensures AttemptOk(c, t, i) {
      FinishAttemptOk(c, s, x, t, i);
    }
    forall i, j | 0 <= i < j < |t.log| ensures PairOk(c, t, i, j) {
      FinishPairOk(c, s, x, t, i, j);
    }
    forall k | 0 <= k < Current(t) && Outcomes(t.events)[k].Done? ensures ReturnedBy(t, k, Outcomes(t.events)[k].value) {
      FinishReturned(c, s, x, t, k);
    }
  }

  /** The report leaves the rest of the history as it was, but for the outcome it may settle. */
  lemma FinishHistory(c: Config, s: State, x: AttemptExit, ran: nat)
    requires HistoryOk(c, s) && s.activity.Executing? && Commands(s.events) != []
    requires x.Succeeded? ==> Fits(Commands(s.events)[|Commands(s.events)| - 1], Done(x.value))
    ensures HistoryOk(c, FinishAttempt(c, s, x, ran))
  {
    var u := s.(busy := s.busy + ran, log := SetLastExit(s.log, x));
    if FinishAttempt(c, s, x, ran).activity.Idle? {
      ResolveHistory(c, u, OutcomeOf(x));
    }
  }

  lemma FinishWorker(c: Config, s: State, x: AttemptExit, ran: nat)
    requires WorkerOk(c, s) && s.activity.Executing?
    ensures WorkerOk(c, FinishAttempt(c, s, x, ran))
  {
    var u := s.(busy := s.busy + ran, log := SetLastExit(s.log, x));
    if FinishAttempt(c, s, x, ran).activity.Idle? {
      ResolveWorker(c, u, OutcomeOf(x));
    }
  }

  lemma FinishActivity(c: Config, s: State, x: AttemptExit, ran: nat)
    requires ActivityOk(c, s) && s.activity.Executing? && !IsClosed(s)
    ensures ActivityOk(c, FinishAttempt(c, s, x, ran)) && !IsClosed(FinishAttempt(c, s, x, ran))
  {
    RecordFacts(s, Settled(OutcomeOf(x)));
  }

  lemma InvFinish(c: Config, s: State, x: AttemptExit, ran: nat, silence: nat)
    requires Inv(c, s) && Enabled(c, s, Finish(x, ran, silence))
    ensures Inv(c, Apply(c, s, Finish(x, ran, silence)))
  {
    FinishHistory(c, s, x, ran);
    FinishWorker(c, s, x, ran);
    FinishActivity(c, s, x, ran);
    FinishIs(c, s, x, ran);
    FinishLog(c, s, x, FinishAttempt(c, s, x, ran));
  }

  lemma InvStep(c: Config, s: State, a: Action)
    requires Inv(c, s) && Enabled(c, s, a)
    ensures Inv(c, Apply(c, s, a))
  {
    var h := Outcomes(s.events);
    match a
    case Rebuild =>
      assert h[..|h|] == h;
      InvWorker(c, s, Up(After(c.inp, h), |h|));
    case Deliver =>
      RecordedPrefix(c.inp, h, s.worker.seen);
      InvWorker(c, s, Apply(c, s, a).worker);
    case Dispatch(wait) => InvDispatch(c, s, wait);
    case Close =>
      assert h[..|h|] == h;
      InvRecord(c, s, Closed(ByWorkflow(s.worker.live.control.exit)));
    case Start(wait) => InvStart(c, s, wait);
    case Finish(x, ran, silence) => InvFinish(c, s, x, ran, silence);
    case QueueTimeout(wait) =>
      InvTime(c, s, Charge(c, s, wait));
      InvResolve(c, Charge(c, s, wait), Failed(TimeoutFailure(ScheduleToStart)));
    case RequestCancel => InvRecord(c, s, CancelRequested);
    case CancelAwait(o, spent) =>
      InvTime(c, s, Charge(c, s, spent));
      InvResolve(c, Charge(c, s, spent), o);
    case Crash => InvWorker(c, s, Down);
    case TimeOutRun(spent) =>
      InvTime(c, s, Charge(c, s, spent));
      InvRecord(c, Charge(c, s, spent), Closed(RunTimedOut));
    case Terminate => InvRecord(c, s, Closed(Terminated));
  }

  lemma {:induction false} InvRun(c: Config, s: State, run: seq<Action>)
    requires Inv(c, s) && IsRun(c, s, run)
    ensures Inv(c, Final(c, s, run))
    decreases |run|
  {
    if run != [] {
      InvStep(c, s, run[0]);
      InvRun(c, Apply(c, s, run[0]), run[1..]);
    }
  }
}
