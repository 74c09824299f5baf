// What the API answers about a run, field by field, in terms of the run's recorded history alone.

module Answers {
  import opened Contracts
  import opened Workflow
  import opened Policies
  import opened Durable
  import opened Bounds
  import opened Responses
  import opened Issued
  import EventStream
  import Stream
  import RunStream
  import Client
  import Verdict

  // ---- how a run can have ended -------------------------------------------------------------------

  predicate TimedOut(s: State) {
    s.events != [] && s.events[|s.events| - 1] == Closed(RunTimedOut)
  }

  predicate WasTerminated(s: State) {
    s.events != [] && s.events[|s.events| - 1] == Closed(Terminated)
  }

  predicate EndedItself(s: State) {
    s.events != [] && s.events[|s.events| - 1].Closed? && s.events[|s.events| - 1].closure.ByWorkflow?
  }

  function LastOutcome(s: State): Option<Outcome> {
    var h := Outcomes(s.events);
    if h == [] then None else Some(h[|h| - 1])
  }

  /** The workflow ended on an outcome that is a cancellation. */
  predicate Cancelled(s: State) {
    EndedItself(s) && (LastOutcome(s) == Some(BareCancel) || LastOutcome(s) == Some(Failed(CancelledFailure)))
  }

  /** The workflow ended on any other failure of an activity. */
  predicate ActivityFailed(s: State) {
    EndedItself(s) && LastOutcome(s).Some? && LastOutcome(s).value.Failed? && LastOutcome(s).value != Failed(CancelledFailure)
  }

  predicate SandboxOk(r: SandboxResult) {
    r.exitCode == 0 && !r.oomKilled && !r.wallClockExceeded
  }

  /** The workflow ended on a sandbox result that is not ok. */
  predicate SandboxFailed(s: State) {
    var h := Outcomes(s.events);
    EndedItself(s) && |h| == 3 && Sandboxed(h) && !SandboxOk(h[2].value.sandbox)
  }

  /** The workflow ended on the summary of an ok sandbox result. */
  predicate Summarized(s: State) {
    var h := Outcomes(s.events);
    EndedItself(s) && |h| == 4 && Sandboxed(h) && SandboxOk(h[2].value.sandbox) && h[3].Done? && h[3].value.SummaryValue?
  }

  // ---- what is answered then ------------------------------------------------------------------------

  /** The sandbox part of a result, field by field. */
  predicate Models(m: SandboxModel, r: SandboxResult) {
    && m.runtime == r.runtime && m.exitCode == r.exitCode && m.ok == SandboxOk(r) && m.wallMs == r.wallMs
    && m.oomKilled == r.oomKilled && m.wallClockExceeded == r.wallClockExceeded && m.truncated == r.truncated
    && m.stdoutTail == r.stdoutTail && m.stderrTail == r.stderrTail && m.failureReason == r.FailureReason()
  }

  /** An answer about a run that is over without a result. */
  predicate Unsuccessful(r: Response, runId: string, status: Status, code: string, message: string) {
    r == Response(runId, status, "failed", None, [], [], None, Some(ErrorDetail(code, None, message, false)))
  }

  /** An answer about a run that ended with a result. */
  predicate Carries(r: Response, runId: string, summary: Option<string>, code: string, sandbox: SandboxResult) {
    && r.runId == runId && r.currentStep == None && r.steps == [] && r.result.Some?
    && r.result.value.summary == summary && r.result.value.code == Some(code)
    && r.result.value.sandbox.Some? && Models(r.result.value.sandbox.value, sandbox)
  }

  function Text(cause: Option<string>, otherwise: string): string {
    if cause.Some? then cause.value else otherwise
  }

  /** The answer about a closed run, in terms of its history. */
  predicate AnswerFits(runId: string, s: State, cause: Option<string>, r: Response) {
    var h := Outcomes(s.events);
    && (TimedOut(s) ==> Unsuccessful(r, runId, TIMED_OUT, "TIMED_OUT", Text(cause, "timed_out")))
    && (Cancelled(s) ==> Unsuccessful(r, runId, CANCELLED, "CANCELLED", Text(cause, "cancelled")))
    && (WasTerminated(s) || ActivityFailed(s) ==> Unsuccessful(r, runId, FAILED, "FAILED", Text(cause, "failed")))
    && (SandboxFailed(s) ==>
          && Carries(r, runId, None, h[1].value.code, h[2].value.sandbox)
          && r.status == FAILED && r.stage == "failed" && r.completedSteps == []
          && r.error == Some(ErrorDetail("SANDBOX_FAILURE", Some("run_sandbox"), h[2].value.sandbox.FailureReason().value, false)))
    && (Summarized(s) ==>
          && Carries(r, runId, Some(h[3].value.summary), h[1].value.code, h[2].value.sandbox)
          && r.status == COMPLETED && r.stage == "completed" && r.error == None
          && r.completedSteps == ["plan", "generate_code", "run_sandbox", "summarize"])
  }

  /** A workflow that has ended, by its last outcome. */
  lemma EndedBy(inp: RunInput, h: seq<Outcome>)
    requires Recorded(inp, h) && After(inp, h).control.Ended?
    ensures h != []
    ensures var o, exit := h[|h| - 1], After(inp, h).control.exit;
            && (o.BareCancel? ==> exit == CancelRaised)
            && (o.Failed? ==> exit == Raised(o.failure))
            && (o.Done? ==> exit.Returned?)
  {
    AtMostFour(inp, h);
    AtMostFour(inp, h[..|h| - 1]);
  }

  /** A workflow that has ended with a result, by the outcomes it had. */
  lemma ReturnedBy(inp: RunInput, h: seq<Outcome>)
    requires Recorded(inp, h) && After(inp, h).control.Ended? && h != [] && h[|h| - 1].Done?
    ensures Sandboxed(h) && 3 <= |h| <= 4 && (|h| == 4 <==> SandboxOk(h[2].value.sandbox))
    ensures |h| == 4 ==> h[3].Done? && h[3].value.SummaryValue?
    ensures var r, code, sbx := After(inp, h).control.exit, h[1].value.code, h[2].value.sandbox;
            r == Returned(if |h| == 4 then RunResult(inp.runId, "completed", Some(h[3].value.summary), Some(code), Some(sbx), None)
                          else RunResult(inp.runId, "failed", None, Some(code), Some(sbx), sbx.FailureReason()))
  {
    AtMostFour(inp, h);
    AtMostFour(inp, h[..|h| - 1]);
    if |h| == 4 {
      AfterSummary(inp, h);
    } else if |h| == 3 {
      AfterSandbox(inp, h);
    }
  }

  lemma ReasonIsText(r: SandboxResult)
    requires !SandboxOk(r)
    ensures r.FailureReason().Some? && r.FailureReason().value != ""
  {
  }

  /** What a closed run's history says of its workflow. */
  ghost predicate EndedAs(inp: RunInput, s: State) {
    EndedItself(s) ==>
      && Recorded(inp, Outcomes(s.events))
      && After(inp, Outcomes(s.events)).control == Ended(ClosureOf(s).exit)
  }

  lemma ClosedFacts(c: Config, run: seq<Action>)
    requires IsRun(c, INIT, run)
    ensures EndedAs(c.inp, Final(c, INIT, run))
  {
    InvInit(c);
    InvRun(c, INIT, run);
  }

  /** The workflow's own ends are told apart by the last outcome. */
  lemma OwnEndings(inp: RunInput, s: State)
    requires EndedItself(s) && EndedAs(inp, s)
    ensures Cancelled(s) || ActivityFailed(s) || SandboxFailed(s) || Summarized(s)
    ensures ClosureOf(s).exit.Returned? <==> SandboxFailed(s) || Summarized(s)
    ensures Cancelled(s) <==> ClosureOf(s).exit.CancelRaised? || ClosureOf(s).exit == Raised(CancelledFailure)
  {
    var h := Outcomes(s.events);
    EndedBy(inp, h);
    if h[|h| - 1].Done? {
      ReturnedBy(inp, h);
    }
  }

  lemma ReturnedAnswer(c: Config, s: State, t: State, cause: Option<string>)
    requires EndedItself(s) && EndedAs(c.inp, s) && ClosureOf(s).exit.Returned?
    ensures AnswerFits(c.inp.runId, s, cause, ResolveStatus(c, s, t, cause))
  {
    var h := Outcomes(s.events);
    EndedBy(c.inp, h);
    ReturnedBy(c.inp, h);
    if |h| == 3 {
      ReasonIsText(h[2].value.sandbox);
    }
  }

  lemma UnsuccessfulAnswer(c: Config, s: State, t: State, cause: Option<string>)
    requires IsClosed(s) && EndedAs(c.inp, s) && !(EndedItself(s) && ClosureOf(s).exit.Returned?)
    ensures AnswerFits(c.inp.runId, s, cause, ResolveStatus(c, s, t, cause))
  {
    if EndedItself(s) {
      OwnEndings(c.inp, s);
    }
  }

  /** The API's answer about any closed run: it is fixed, field by field, by how the run ended. */
  lemma AnswerIs(c: Config, run: seq<Action>, t: State, cause: Option<string>)
    requires IsRun(c, INIT, run) && IsClosed(Final(c, INIT, run))
    ensures AnswerFits(c.inp.runId, Final(c, INIT, run), cause, ResolveStatus(c, Final(c, INIT, run), t, cause))
  {
    var s := Final(c, INIT, run);
    ClosedFacts(c, run);
    if EndedItself(s) && ClosureOf(s).exit.Returned? {
      ReturnedAnswer(c, s, t, cause);
    } else {
      UnsuccessfulAnswer(c, s, t, cause);
    }
  }

  /** A closed run ended in one of the ways told apart above. */
  lemma EndingsAreAll(c: Config, run: seq<Action>)
    requires IsRun(c, INIT, run) && IsClosed(Final(c, INIT, run))
    ensures var s := Final(c, INIT, run);
            TimedOut(s) || Cancelled(s) || WasTerminated(s) || ActivityFailed(s) || SandboxFailed(s) || Summarized(s)
  {
    ClosedFacts(c, run);
    if EndedItself(Final(c, INIT, run)) {
      OwnEndings(c.inp, Final(c, INIT, run));
    }
  }

  /** So each status is answered exactly when it is due. */
  lemma StatusIff(c: Config, run: seq<Action>, t: State, cause: Option<string>)
    requires IsRun(c, INIT, run) && IsClosed(Final(c, INIT, run))
    ensures var s := Final(c, INIT, run);
            var status := ResolveStatus(c, s, t, cause).status;
            && (status == TIMED_OUT <==> TimedOut(s))
            && (status == CANCELLED <==> Cancelled(s))
            && (status == FAILED <==> WasTerminated(s) || ActivityFailed(s) || SandboxFailed(s))
            && (status == COMPLETED <==> Summarized(s))
  {
    AnswerIs(c, run, t, cause);
    EndingsAreAll(c, run);
  }

  /** And the client's terminal event has the name that is due. */
  lemma TerminalEventIff(
    c: Config, run: seq<Action>, from: seq<nat>, to: seq<nat>, answers: seq<Response>, stop: Stream.Stop, maxDurS: int,
    r: Response, e: EventStream.Event)
    requires RunStream.Observed(c, run, from, to, answers) && Stream.Terminal(r) in Stream.StreamOf(answers, stop, maxDurS)
    requires Client.Conveys(e, c.inp.runId, Stream.Terminal(r))
    ensures var s := Final(c, INIT, run);
            && (e.name == "timed_out" <==> TimedOut(s))
            && (e.name == "completed" <==> Summarized(s))
            && (e.name == "failed" <==> Cancelled(s) || WasTerminated(s) || ActivityFailed(s) || SandboxFailed(s))
  {
    RunStream.TerminalIsFinal(c, run, from, to, answers, stop, maxDurS, r);
    var t, cause :| r == ResolveStatus(c, Final(c, INIT, run), t, cause);
    StatusIff(c, run, t, cause);
    assert "completed"[0] == 'c' && "timed_out"[0] == 't' && "failed"[0] == 'f';
    EndingsAreAll(c, run);
  }

  // ---- what a query shows --------------------------------------------------------------------------

  const NAMES: seq<string> := ["plan", "generate_code", "run_sandbox", "summarize"]

  const ALL: seq<StepView> := [
    StepView("plan", "completed", None), StepView("generate_code", "completed", None),
    StepView("run_sandbox", "completed", None), StepView("summarize", "completed", None)]

  /** The answer about a run found open in which k steps are completed and another is not. */
  predicate Shows(r: Response, runId: string, stage: string, k: nat, last: StepView)
    requires k < 4
  {
    r == Response(runId, RUNNING, stage, Some(stage), NAMES[..k], ALL[..k] + [last], None, None)
  }

  /** The outcomes after which the workflow is over. */
  predicate Over(h: seq<Outcome>) {
    h != [] &&
    (|h| == 4 || !h[|h| - 1].Done? || (|h| == 3 && h[2].value.SandboxValue? && !SandboxOk(h[2].value.sandbox)))
  }

  /** What a run found open shows once its workflow is over, by its last outcome. */
  predicate ShowsEnd(r: Response, runId: string, k: nat, o: Outcome)
    requires k < 4
  {
    if o.BareCancel? then Shows(r, runId, NAMES[k], k, StepView(NAMES[k], "running", None))
    else if o.Failed? then Shows(r, runId, NAMES[k], k, StepView(NAMES[k], "failed", None))
    else if o.value.SandboxValue? then
      Shows(r, runId, "failed", 2, StepView("run_sandbox", "failed", o.value.sandbox.FailureReason()))
    else r == Response(runId, RUNNING, "completed", Some("completed"), NAMES, ALL, None, None)
  }

  /** What a run found open shows, by the outcomes its workflow has received. */
  predicate ShowsHistory(r: Response, runId: string, h: seq<Outcome>)
    requires |h| <= 4 && (|h| == 4 ==> Over(h))
  {
    if Over(h) then ShowsEnd(r, runId, |h| - 1, h[|h| - 1])
    else Shows(r, runId, NAMES[|h|], |h|, StepView(NAMES[|h|], "running", None))
  }

  lemma NamesOfAll(k: nat)
    requires k <= 4
    ensures NamesCompleted(ALL[..k]) == NAMES[..k]
  {
    if k > 0 {
      NamesOfAll(k - 1);
      RunStream.NamesAppend(ALL[..k - 1], ALL[k - 1]);
      assert ALL[..k] == ALL[..k - 1] + [ALL[k - 1]] && NAMES[..k] == NAMES[..k - 1] + [NAMES[k - 1]];
    }
  }

  /** A response made of a stage, k completed steps and one that is not completed. */
  lemma ResponseShows(runId: string, stage: string, k: nat, last: StepView)
    requires k < 4 && last.state != "completed"
    ensures Shows(RunningResponse(runId, stage, ALL[..k] + [last]), runId, stage, k, last)
  {
    NamesOfAll(k);
    RunStream.NamesAppend(ALL[..k], last);
  }

  /** While it waits, the workflow has completed one step for each outcome. */
  lemma WaitingSteps(inp: RunInput, h: seq<Outcome>)
    requires Recorded(inp, h) && !After(inp, h).control.Ended?
    ensures |h| < 4 && After(inp, h).stage == NAMES[|h|]
    ensures After(inp, h).steps == ALL[..|h|] + [StepView(NAMES[|h|], "running", None)]
  {
    AtMostFour(inp, h);
    Verdict.StepsShape(inp, h);
    var steps, k := After(inp, h).steps, |h|;
    forall i | 0 <= i < k ensures steps[i] == ALL[i] {
      assert steps[i] == Completed(PIPELINE[i]);
    }
  }

  lemma ReplaceLast(steps: seq<StepView>, last: StepView, state: string, detail: Option<string>)
    ensures WithLast(steps + [last], state, detail) == steps + [last.(state := state, detail := detail)]
  {
  }

  /** Whether the workflow is over is told by its outcomes. */
  lemma OverIff(inp: RunInput, h: seq<Outcome>)
    requires Recorded(inp, h)
    ensures |h| <= 4 && (After(inp, h).control.Ended? <==> Over(h))
  {
    AtMostFour(inp, h);
    if h != [] {
      AtMostFour(inp, h[..|h| - 1]);
    }
  }

  lemma FailedShows(inp: RunInput, h: seq<Outcome>)
    requires Recorded(inp, h) && h != [] && |h| <= 4 && !h[|h| - 1].Done?
    ensures ShowsEnd(RunStream.AnswerFor(inp, h), inp.runId, |h| - 1, h[|h| - 1])
  {
    var o, k := h[|h| - 1], |h| - 1;
    var running := StepView(NAMES[k], "running", None);
    WaitingSteps(inp, h[..k]);
    ReplaceLast(ALL[..k], running, "failed", None);
    if o.BareCancel? {
      ResponseShows(inp.runId, NAMES[k], k, running);
    } else {
      ResponseShows(inp.runId, NAMES[k], k, running.(state := "failed"));
    }
  }

  lemma ResultShows(inp: RunInput, h: seq<Outcome>)
    requires Recorded(inp, h) && |h| == 3 && Sandboxed(h) && !SandboxOk(h[2].value.sandbox)
    ensures ShowsEnd(RunStream.AnswerFor(inp, h), inp.runId, 2, h[2])
  {
    AfterSandbox(inp, h);
    var last := StepView("run_sandbox", "failed", h[2].value.sandbox.FailureReason());
    assert After(inp, h).steps == ALL[..2] + [last];
    ResponseShows(inp.runId, "failed", 2, last);
  }

  lemma AllShown(runId: string)
    ensures RunningResponse(runId, "completed", ALL)
        == Response(runId, RUNNING, "completed", Some("completed"), NAMES, ALL, None, None)
  {
    NamesOfAll(4);
    assert ALL[..4] == ALL && NAMES[..4] == NAMES;
  }

  lemma SummarySteps(inp: RunInput, h: seq<Outcome>)
    requires Recorded(inp, h) && |h| == 4 && h[3].Done?
    ensures After(inp, h).stage == "completed" && After(inp, h).steps == ALL
  {
    AfterSummary(inp, h);
  }

  lemma SummaryShows(inp: RunInput, h: seq<Outcome>)
    requires Recorded(inp, h) && |h| == 4 && h[3].Done? && h[3].value.SummaryValue?
    ensures ShowsEnd(RunStream.AnswerFor(inp, h), inp.runId, 3, h[3])
  {
    SummarySteps(inp, h);
    AllShown(inp.runId);
  }

  lemma ReturnedShows(inp: RunInput, h: seq<Outcome>)
    requires Recorded(inp, h) && After(inp, h).control.Ended? && h != [] && |h| <= 4 && h[|h| - 1].Done?
    ensures ShowsEnd(RunStream.AnswerFor(inp, h), inp.runId, |h| - 1, h[|h| - 1])
  {
    ReturnedBy(inp, h);
    if |h| == 3 {
      ResultShows(inp, h);
    } else {
      SummaryShows(inp, h);
    }
  }

  /**
   * What a run found open is answered with, field by field: the steps its workflow has completed,
   * the one it is in or ended in, and the stage, all told by the outcomes it has received.
   */
  lemma OpenAnswerIs(inp: RunInput, h: seq<Outcome>)
    requires Recorded(inp, h)
    ensures |h| <= 4 && (|h| == 4 ==> Over(h))
    ensures ShowsHistory(RunStream.AnswerFor(inp, h), inp.runId, h)
  {
    OverIff(inp, h);
    if !Over(h) {
      WaitingSteps(inp, h);
      ResponseShows(inp.runId, NAMES[|h|], |h|, StepView(NAMES[|h|], "running", None));
    } else if h[|h| - 1].Done? {
      ReturnedShows(inp, h);
    } else {
      FailedShows(inp, h);
    }
  }

  /** Every answer of a stream's polls that finds the run open is of that form. */
  lemma PolledOpenAnswerIs(c: Config, run: seq<Action>, from: seq<nat>, to: seq<nat>, answers: seq<Response>, i: nat)
    returns (h: seq<Outcome>)
    requires RunStream.Observed(c, run, from, to, answers) && i < |answers| && !IsTerminal(answers[i])
    ensures h <= Outcomes(RunStream.StateAt(c, INIT, run, to[i]).events)
    ensures |h| <= 4 && (|h| == 4 ==> Over(h)) && ShowsHistory(answers[i], c.inp.runId, h)
  {
    var s, t := RunStream.StateAt(c, INIT, run, from[i]), RunStream.StateAt(c, INIT, run, to[i]);
    InvInit(c);
    RunStream.InvAt(c, INIT, run, to[i]);
    assert RunStream.MayAnswer(c, s, t, answers[i]);
    RunStream.OpenAnswer(c, s, t, answers[i]);
    h := Outcomes(t.events)[..RunStream.Delivered(t)];
    OpenAnswerIs(c.inp, h);
  }
}
