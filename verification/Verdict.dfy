// From a sandbox execution to the API's answer: which shape the workflow's steps always have,
// that the API's fixed answers agree with them, and that an execution's ending decides the
// verdict, once.

module Verdict {
  import opened Contracts
  import opened Workflow
  import opened Policies
  import opened Durable
  import opened Bounds
  import opened Responses
  import opened Supervisor
  import opened SandboxActivity

  // ---- the steps ---------------------------------------------------------------------------

  /** A prefix of the pipeline, all but the last step completed. */
  predicate PipelinePrefix(steps: seq<StepView>) {
    && 1 <= |steps| <= 4
    && (forall i :: 0 <= i < |steps| ==> steps[i].name == PIPELINE[i])
    && (forall i :: 0 <= i < |steps| - 1 ==> steps[i] == Completed(PIPELINE[i]))
  }

  /**
   * In every state of the workflow the steps are a prefix of the pipeline with all but the last
   * completed; while it is open the stage names the last step and that step is running; and the
   * summary step appears only after a sandbox result that is ok.
   */
  lemma {:induction false} StepsShape(inp: RunInput, h: seq<Outcome>)
    requires Recorded(inp, h)
    ensures var w := After(inp, h);
            && PipelinePrefix(w.steps)
            && (!w.control.Ended? ==> |w.steps| == |h| + 1 && w.stage == PIPELINE[|h|] && w.steps[|h|] == Running(PIPELINE[|h|]))
            && (w.control.Ended? ==> |w.steps| == |h|)
            && (|w.steps| == 4 ==> |h| >= 3 && h[2].Done? && h[2].value.SandboxValue? && h[2].value.sandbox.Ok())
    decreases |h|
  {
    AtMostFour(inp, h);
    if h != [] {
      var p := h[..|h| - 1];
      AtMostFour(inp, p);
      StepsShape(inp, p);
      var v, w := After(inp, p), After(inp, h);
      forall i | 0 <= i < |w.steps| - 1 ensures w.steps[i] == Completed(PIPELINE[i]) {
        assert i < |v.steps| - 1 ==> v.steps[i] == Completed(PIPELINE[i]);
      }
    }
  }

  lemma {:induction false} NamesOfCompleted(steps: seq<StepView>, k: nat)
    requires k <= |steps| && |steps| <= k + 1
    requires forall i :: 0 <= i < k ==> steps[i].state == "completed"
    ensures var names := seq(k, i requires 0 <= i < k => steps[i].name);
            NamesCompleted(steps) ==
              if |steps| == k || steps[k].state != "completed" then names else names + [steps[k].name]
    decreases k
  {
    if k > 0 {
      NamesOfCompleted(steps[1..], k - 1);
      var names := seq(k, i requires 0 <= i < k => steps[i].name);
      var rest := seq(k - 1, i requires 0 <= i < k - 1 => steps[1..][i].name);
      assert names == [steps[0].name] + rest;
      assert |steps| == k + 1 ==> steps[1..][k - 1] == steps[k];
    } else if |steps| == 1 {
      assert NamesCompleted(steps[1..]) == [];
    }
  }

  /**
   * When the workflow ends with a result, the API's answer agrees with its own steps: the fixed
   * list of completed steps is the list of steps completed, and a failure is put down to the
   * one step that failed, with that step's detail as the message.
   */
  lemma AnswerAgreesWithSteps(inp: RunInput, h: seq<Outcome>, r: RunResult)
    requires Recorded(inp, h) && After(inp, h).control == Ended(Returned(r))
    ensures var w, resp := After(inp, h), CompletedResponse(inp.runId, r);
            && resp.stage == w.stage
            && (resp.status == COMPLETED ==> resp.completedSteps == NamesCompleted(w.steps))
            && (resp.status != COMPLETED ==>
                  var last := w.steps[|w.steps| - 1];
                  && resp.status == FAILED && resp.error.Some?
                  && resp.error.value.step == Some(last.name) && last.state == "failed"
                  && last.detail == Some(resp.error.value.message)
                  && NamesCompleted(w.steps) == PIPELINE[..2])
  {
    var w := After(inp, h);
    AtMostFour(inp, h);
    EndsWithResult(inp, h, r);
    if |h| == 4 {
      AfterSummary(inp, h);
      NamesOfCompleted(w.steps, 4);
      assert seq(4, i requires 0 <= i < 4 => w.steps[i].name) == PIPELINE;
    } else {
      AfterSandbox(inp, h);
      NamesOfCompleted(w.steps, 2);
      assert seq(2, i requires 0 <= i < 2 => w.steps[i].name) == PIPELINE[..2];
    }
  }

  /** A result is returned on the sandbox outcome or on the summary. */
  lemma EndsWithResult(inp: RunInput, h: seq<Outcome>, r: RunResult)
    requires Recorded(inp, h) && After(inp, h).control == Ended(Returned(r))
    ensures |h| == 3 || |h| == 4
    ensures h[|h| - 1].Done?
    ensures h[2].Done? && h[2].value.SandboxValue?
    ensures |h| == 4 <==> h[2].value.sandbox.Ok()
    ensures r.sandbox == Some(h[2].value.sandbox)
    ensures r.status == (if |h| == 4 then "completed" else "failed")
    ensures |h| == 3 ==> r.failureReason == h[2].value.sandbox.FailureReason()
  {
    AtMostFour(inp, h);
    var p := h[..|h| - 1];
    AtMostFour(inp, p);
    assert h[|h| - 1].Done?;
    if |h| == 4 {
      AfterSummary(inp, h);
    } else {
      AfterSandbox(inp, h);
    }
  }

  // ---- the verdict ----------------------------------------------------------------------------

  /** An execution of the sandbox activity: its arguments and all that surrounds it. */
  datatype Execution = Execution(args: RunSandboxArgs, w: Surroundings) {
    function Outcome(): AttemptExit {
      ActivityExit(args, w)
    }

    function Ending(): Supervisor.Ending {
      EndingOf(args, w)
    }
  }

  /** The reason the API gives for an execution that did not succeed, the deadline first. */
  function ReasonFor(e: Ending): string {
    match e
    case DeadlineHit => "wall_clock_exceeded"
    case Exited(rc) => if rc == 137 then "oom_killed" else "nonzero_exit:" + Contracts.Decimal.Str(rc)
    case Interrupted => "interrupted"
  }

  /** A result that Temporal recorded for a sandbox attempt is the one the attempt's execution returned. */
  ghost predicate ProducedBy(a: Attempt, x: Execution) {
    a.step == SANDBOX && a.exit.Some? && a.exit.value.Succeeded? ==> a.exit.value == x.Outcome()
  }

  /** The attempts of a run's log were the executions xs. */
  ghost predicate Ran(s: State, xs: seq<Execution>) {
    |xs| == |s.log| && forall i :: 0 <= i < |xs| ==> ProducedBy(s.log[i], xs[i])
  }

  /** Attempt i of a run's log is an attempt of the sandbox activity that returned a result. */
  predicate SandboxReturned(s: State, i: nat) {
    i < |s.log| && s.log[i].step == SANDBOX && s.log[i].exit.Some? && s.log[i].exit.value.Succeeded?
  }

  /** How an execution that returned ended decides what its result says. */
  lemma EndingDecides(x: Execution)
    requires x.Outcome().Succeeded?
    ensures x.Outcome().value.SandboxValue? && Launched(x.args, x.w) && !x.Ending().Interrupted?
    ensures var r := x.Outcome().value.sandbox;
            (r.Ok() <==> x.Ending() == Exited(0)) && (!r.Ok() ==> r.FailureReason() == Some(ReasonFor(x.Ending())))
  {
    ResultReportsEnding(x.args, x.w);
  }

  function SandboxFailure(reason: string): ErrorDetail {
    ErrorDetail("SANDBOX_FAILURE", Some("run_sandbox"), reason, false)
  }

  /**
   * The verdict.  If in some run an attempt of the sandbox activity returned, no further attempt of
   * it is made, and once the workflow has ended with a result the ending of that one execution
   * decides the API's answer: COMPLETED if and only if the process exited with 0 before its
   * deadline, and otherwise FAILED with exactly one reason.
   */
  lemma SandboxDecidesVerdict(c: Config, run: seq<Action>, xs: seq<Execution>, i: nat, t: State, cause: Option<string>)
    requires IsRun(c, INIT, run)
    requires Ran(Final(c, INIT, run), xs) && SandboxReturned(Final(c, INIT, run), i)
    ensures var s, e := Final(c, INIT, run), xs[i].Ending();
            && (forall j :: i < j < |s.log| ==> s.log[j].step > SANDBOX)
            && Launched(xs[i].args, xs[i].w) && !e.Interrupted?
            && (StatusOf(s) == CompletedStatus ==>
                  var resp := ResolveStatus(c, s, t, cause);
                  && resp.status == (if e == Exited(0) then COMPLETED else FAILED)
                  && resp.error == (if e == Exited(0) then None else Some(SandboxFailure(ReasonFor(e)))))
  {
    var s := Final(c, INIT, run);
    forall j | i < j < |s.log| ensures s.log[j].step > SANDBOX {
      LaterAttemptsAreRetries(c, run, i, j);
    }
    assert ProducedBy(s.log[i], xs[i]);
    EndingDecides(xs[i]);
    if StatusOf(s) == CompletedStatus {
      RecordedResult(c, run, i);
      ReasonIsNotEmpty(xs[i].Ending());
    }
  }

  /** The result a sandbox attempt returned is the one the workflow ended with. */
  lemma RecordedResult(c: Config, run: seq<Action>, i: nat)
    requires IsRun(c, INIT, run)
    requires SandboxReturned(Final(c, INIT, run), i) && StatusOf(Final(c, INIT, run)) == CompletedStatus
    requires Final(c, INIT, run).log[i].exit.value.value.SandboxValue?
    ensures var r, sbx := ClosureOf(Final(c, INIT, run)).exit.result, Final(c, INIT, run).log[i].exit.value.value.sandbox;
            && r.sandbox == Some(sbx) && r.status == (if sbx.Ok() then "completed" else "failed")
            && (!sbx.Ok() ==> r.failureReason == sbx.FailureReason())
  {
    var s := Final(c, INIT, run);
    InvInit(c);
    InvRun(c, INIT, run);
    var h := Outcomes(s.events);
    assert AttemptOk(c, s, i);
    EndsWithResult(c.inp, h, ClosureOf(s).exit.result);
  }

  lemma ReasonIsNotEmpty(e: Ending)
    ensures ReasonFor(e) != ""
  {
  }

  /** A run that ended with a result had a sandbox attempt that returned. */
  lemma SomeAttemptReturned(c: Config, run: seq<Action>) returns (i: nat)
    requires IsRun(c, INIT, run) && StatusOf(Final(c, INIT, run)) == CompletedStatus
    ensures SandboxReturned(Final(c, INIT, run), i)
  {
    var s := Final(c, INIT, run);
    InvInit(c);
    InvRun(c, INIT, run);
    var h := Outcomes(s.events);
    EndsWithResult(c.inp, h, ClosureOf(s).exit.result);
    assert ReturnedBy(s, SANDBOX, h[2].value);
    i :| 0 <= i < |s.log| && s.log[i].step == SANDBOX && s.log[i].exit == Some(Succeeded(h[2].value));
  }

  /** Attempt i returned, from an execution whose process exited with 0 before its deadline. */
  ghost predicate ExitedWithZero(s: State, xs: seq<Execution>, i: nat) {
    SandboxReturned(s, i) && i < |xs| && xs[i].Ending() == Exited(0)
  }

  /**
   * The API answers COMPLETED about a run exactly when the workflow ended with a result and some
   * attempt of the sandbox activity returned from a process that exited with 0 before its deadline.
   */
  lemma CompletedIff(c: Config, run: seq<Action>, xs: seq<Execution>, t: State, cause: Option<string>)
    requires IsRun(c, INIT, run) && Ran(Final(c, INIT, run), xs)
    requires IsClosed(Final(c, INIT, run)) || Queryable(c, t)
    ensures var s := Final(c, INIT, run);
            ResolveStatus(c, s, t, cause).status == COMPLETED <==>
              StatusOf(s) == CompletedStatus && exists i :: ExitedWithZero(s, xs, i)
  {
    var s := Final(c, INIT, run);
    if StatusOf(s) == CompletedStatus {
      var i := SomeAttemptReturned(c, run);
      SandboxDecidesVerdict(c, run, xs, i, t, cause);
      if ResolveStatus(c, s, t, cause).status == COMPLETED {
        assert ExitedWithZero(s, xs, i);
      } else if k :| ExitedWithZero(s, xs, k) {
        SandboxDecidesVerdict(c, run, xs, k, t, cause);
      }
    }
  }

  // ---- the other answers ------------------------------------------------------------------------

  predicate IsCancel(o: Outcome) {
    o.BareCancel? || o == Failed(CancelledFailure)
  }

  /** No activity ends as cancelled unless cancellation was requested. */
  predicate CancelsAsked(s: State) {
    (exists o :: o in Outcomes(s.events) && IsCancel(o)) ==> CancelRequested in s.events
  }

  lemma RecordAsked(s: State, e: Event)
    requires CancelsAsked(s)
    requires e.Settled? && IsCancel(e.outcome) ==> CancelRequested in s.events
    ensures CancelsAsked(Record(s, e))
  {
    RecordFacts(s, e);
  }

  lemma ResolveAsked(s: State, t: State, o: Outcome)
    requires CancelsAsked(s) && t.events == s.events + [Settled(o)]
    requires IsCancel(o) ==> CancelRequested in s.events
    ensures CancelsAsked(t)
  {
    RecordAsked(s, Settled(o));
  }

  lemma FinishAsked(c: Config, s: State, x: AttemptExit, ran: nat)
    requires CancelsAsked(s) && s.activity.Executing?
    requires x == Errored(CancelledFailure) ==> CancelRequested in s.events
    ensures CancelsAsked(FinishAttempt(c, s, x, ran))
  {
    var t := FinishAttempt(c, s, x, ran);
    if t.activity.Idle? {
      ResolveAsked(s, t, OutcomeOf(x));
    }
  }

  lemma StepAsked(c: Config, s: State, a: Action)
    requires CancelsAsked(s) && Enabled(c, s, a)
    ensures CancelsAsked(Apply(c, s, a))
  {
    var t := Apply(c, s, a);
    match a
    case Dispatch(_) => RecordAsked(s, Scheduled(Pending(c.inp, s.worker.live)));
    case Close => RecordAsked(s, Closed(ByWorkflow(s.worker.live.control.exit)));
    case Finish(x, ran, _) => FinishAsked(c, s, x, ran);
    case QueueTimeout(_) => ResolveAsked(s, t, Failed(TimeoutFailure(ScheduleToStart)));
    case RequestCancel => RecordAsked(s, CancelRequested);
    case CancelAwait(o, _) => ResolveAsked(s, t, o);
    case TimeOutRun(_) => RecordAsked(s, Closed(RunTimedOut));
    case Terminate => RecordAsked(s, Closed(Terminated));
    case _ =>
  }

  lemma {:induction false} RunAsked(c: Config, s: State, run: seq<Action>)
    requires CancelsAsked(s) && IsRun(c, s, run)
    ensures CancelsAsked(Final(c, s, run))
    decreases |run|
  {
    if run != [] {
      StepAsked(c, s, run[0]);
      RunAsked(c, Apply(c, s, run[0]), run[1..]);
    }
  }

  /** The workflow ends as cancelled only on a cancelled activity. */
  lemma CancelledByOutcome(inp: RunInput, h: seq<Outcome>)
    requires Recorded(inp, h)
    requires var w := After(inp, h).control; w == Ended(CancelRaised) || w == Ended(Raised(CancelledFailure))
    ensures h != [] && IsCancel(h[|h| - 1])
  {
  }

  /**
   * What else the API can answer about a run.  It says RUNNING of exactly the runs it found open; it says
   * CANCELLED only of a run whose cancellation was requested, and TIMED_OUT only of a run that
   * waited for workers for longer than its timeout exceeds its budget, at the defaults 18 seconds.
   */
  lemma {:induction false} AnswersAreEarned(c: Config, run: seq<Action>, t: State, cause: Option<string>)
    requires IsRun(c, INIT, run) && c.settings.maxAttempts >= 1
    requires IsClosed(Final(c, INIT, run)) || Queryable(c, t)
    ensures var s := Final(c, INIT, run);
            var status := ResolveStatus(c, s, t, cause).status;
            && (status == RUNNING <==> !IsClosed(s))
            && (status == CANCELLED ==> CancelRequested in s.events)
            && (status == TIMED_OUT ==> s.waited >= c.settings.workflowRunTimeoutS - RunBudget(c.settings))
            && (status == TIMED_OUT && c.settings == DEFAULTS ==> s.waited >= 18)
  {
    var s := Final(c, INIT, run);
    InvInit(c);
    InvRun(c, INIT, run);
    RunAsked(c, INIT, run);
    if IsClosed(s) && ClosureOf(s) == RunTimedOut {
      TimeoutMeansWaiting(c, run);
    }
    if IsClosed(s) && StatusOf(s) == CanceledStatus {
      CancelledByOutcome(c.inp, Outcomes(s.events));
      var h := Outcomes(s.events);
      assert h[|h| - 1] in h;
    }
  }
}
