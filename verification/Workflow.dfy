// The durable pipeline.  `AgentPipelineWorkflow` is the workflow object: its coroutine always
// executes from the top against the outcomes recorded so far, which is how Temporal replays it.
// `After` is the same workflow seen live, one recorded outcome at a time.  The contract of
// `AgentPipelineWorkflow.Run` is that replaying rebuilds the live workflow.

module Workflow {
  import opened Basics
  import opened Contracts

  // ---- what crosses the boundary between the workflow and its activities ----------------

  datatype Command =
    | PlanCommand(task: string)
    | GenerateCommand(plan: Plan)
    | SandboxCommand(args: RunSandboxArgs)
    | SummarizeCommand(sargs: SummarizeArgs)

  datatype Value =
    | PlanValue(plan: Plan)
    | CodeValue(code: string)
    | SandboxValue(sandbox: SandboxResult)
    | SummaryValue(summary: string)

  datatype TimeoutKind = StartToClose | Heartbeat | ScheduleToStart

  datatype Failure =
    | ApplicationFailure(errorType: string, nonRetryable: bool)
    | TimeoutFailure(kind: TimeoutKind)
    | CancelledFailure

  /**
   * How an awaited activity ends: with its value, with an exception the workflow's handlers
   * catch, or with a bare asyncio.CancelledError, which they do not.
   */
  datatype Outcome = Done(value: Value) | Failed(failure: Failure) | BareCancel

  /** Activities return what they are declared to return. */
  predicate Fits(c: Command, o: Outcome) {
    o.Done? ==>
      match c
      case PlanCommand(_) => o.value.PlanValue?
      case GenerateCommand(_) => o.value.CodeValue?
      case SandboxCommand(_) => o.value.SandboxValue?
      case SummarizeCommand(_) => o.value.SummaryValue?
  }

  /** How the coroutine ends. */
  datatype Exit = Returned(result: RunResult) | Raised(failure: Failure) | CancelRaised

  // ---- the live workflow ----------------------------------------------------------------

  /** Where the coroutine is suspended, with the locals it will need. */
  datatype Control =
    | AwaitPlan
    | AwaitCode(plan: Plan)
    | AwaitSandbox(plan: Plan, code: string)
    | AwaitSummary(plan: Plan, code: string, sandbox: SandboxResult)
    | Ended(exit: Exit)

  datatype Live = Live(stage: string, steps: seq<StepView>, control: Control)

  function SandboxArgs(inp: RunInput, code: string): RunSandboxArgs {
    RunSandboxArgs(inp.runId, inp.tenantId, code, inp.limits, inp.sandboxRuntime)
  }

  /** The command a suspended workflow is waiting on. */
  function Pending(inp: RunInput, w: Live): Command
    requires !w.control.Ended?
  {
    match w.control
    case AwaitPlan => PlanCommand(inp.task)
    case AwaitCode(plan) => GenerateCommand(plan)
    case AwaitSandbox(_, code) => SandboxCommand(SandboxArgs(inp, code))
    case AwaitSummary(plan, _, sbx) => SummarizeCommand(SummarizeArgs(plan, sbx))
  }

  function Running(name: string): StepView {
    StepView(name, "running", None)
  }

  const BEGIN := Live("plan", [Running("plan")], AwaitPlan)

  function WithLast(steps: seq<StepView>, state: string, detail: Option<string>): seq<StepView>
    requires steps != []
  {
    var k := |steps| - 1;
    steps[k := steps[k].(state := state, detail := detail)]
  }

  function ExitOf(o: Outcome): Exit
    requires !o.Done?
  {
    if o.Failed? then Raised(o.failure) else CancelRaised
  }

  /** The live workflow receives the outcome it is waiting for. */
  function Resume(inp: RunInput, w: Live, o: Outcome): Live
    requires !w.control.Ended? && w.steps != [] && Fits(Pending(inp, w), o)
  {
    if o.BareCancel? then
      w.(control := Ended(CancelRaised))
    else if o.Failed? then
      Live(w.stage, WithLast(w.steps, "failed", None), Ended(Raised(o.failure)))
    else
      match w.control
      case AwaitPlan =>
        Live("generate_code", WithLast(w.steps, "completed", None) + [Running("generate_code")], AwaitCode(o.value.plan))
      case AwaitCode(plan) =>
        Live("run_sandbox", WithLast(w.steps, "completed", None) + [Running("run_sandbox")], AwaitSandbox(plan, o.value.code))
      case AwaitSandbox(plan, code) =>
        var r := o.value.sandbox;
        if r.Ok() then
          Live("summarize", WithLast(w.steps, "completed", None) + [Running("summarize")], AwaitSummary(plan, code, r))
        else
          var reason := r.FailureReason().value;
          Live("failed", WithLast(w.steps, "failed", Some(reason)),
               Ended(Returned(FailedResult(inp.runId, reason, r, code))))
      case AwaitSummary(plan, code, sbx) =>
        Live("completed", WithLast(w.steps, "completed", None),
             Ended(Returned(CompletedResult(inp.runId, o.value.summary, code, sbx))))
  }

  /** A history whose outcomes answer the commands the workflow issued. */
  predicate Recorded(inp: RunInput, h: seq<Outcome>)
    decreases |h|, 0
  {
    h == [] || (
      var p := h[..|h| - 1];
      && Recorded(inp, p)
      && !After(inp, p).control.Ended?
      && Fits(Pending(inp, After(inp, p)), h[|h| - 1]))
  }

  /** The live workflow once the outcomes of h have been delivered to it one by one. */
  function After(inp: RunInput, h: seq<Outcome>): (w: Live)
    requires Recorded(inp, h)
    ensures w.steps != []
    decreases |h|, 1
  {
    if h == [] then BEGIN else Resume(inp, After(inp, h[..|h| - 1]), h[|h| - 1])
  }

  lemma {:induction false} RecordedPrefix(inp: RunInput, h: seq<Outcome>, k: nat)
    requires Recorded(inp, h) && k <= |h|
    ensures Recorded(inp, h[..k])
    ensures k < |h| ==> !After(inp, h[..k]).control.Ended? && Fits(Pending(inp, After(inp, h[..k])), h[k])
    ensures k < |h| ==> Recorded(inp, h[..k + 1]) && After(inp, h[..k + 1]) == Resume(inp, After(inp, h[..k]), h[k])
    decreases |h|
  {
    if k == |h| {
      assert h[..k] == h;
    } else {
      var p := h[..|h| - 1];
      if k < |p| {
        RecordedPrefix(inp, p, k);
        PrefixOfPrefix(h, |p|, k);
        PrefixOfPrefix(h, |p|, k + 1);
      } else {
        assert h[..k + 1] == h;
      }
    }
  }

  function Completed(name: string): StepView {
    StepView(name, "completed", None)
  }

  lemma AfterPlan(inp: RunInput, h: seq<Outcome>)
    requires Recorded(inp, h) && |h| == 1 && h[0].Done?
    ensures h[0].value.PlanValue?
    ensures After(inp, h) ==
        Live("generate_code", [Completed("plan"), Running("generate_code")], AwaitCode(h[0].value.plan))
  {
    assert h[..0] == [];
  }

  lemma AfterCode(inp: RunInput, h: seq<Outcome>)
    requires Recorded(inp, h) && |h| == 2 && h[1].Done?
    ensures h[0].Done? && h[0].value.PlanValue? && h[1].value.CodeValue?
    ensures After(inp, h) ==
        Live("run_sandbox", [Completed("plan"), Completed("generate_code"), Running("run_sandbox")],
             AwaitSandbox(h[0].value.plan, h[1].value.code))
  {
    if h[0].Done? { AfterPlan(inp, h[..1]); }
    assert h[..1][..0] == [];
  }

  lemma AfterSandbox(inp: RunInput, h: seq<Outcome>)
    requires Recorded(inp, h) && |h| == 3 && h[2].Done?
    ensures h[0].Done? && h[0].value.PlanValue? && h[1].Done? && h[1].value.CodeValue? && h[2].value.SandboxValue?
    ensures var plan, code, r := h[0].value.plan, h[1].value.code, h[2].value.sandbox;
            After(inp, h) ==
              if r.Ok() then
                Live("summarize",
                     [Completed("plan"), Completed("generate_code"), Completed("run_sandbox"), Running("summarize")],
                     AwaitSummary(plan, code, r))
              else
                var reason := r.FailureReason().value;
                Live("failed",
                     [Completed("plan"), Completed("generate_code"), StepView("run_sandbox", "failed", Some(reason))],
                     Ended(Returned(FailedResult(inp.runId, reason, r, code))))
  {
    if h[1].Done? { AfterCode(inp, h[..2]); }
    assert h[..2][..1] == h[..1];
  }

  lemma AfterSummary(inp: RunInput, h: seq<Outcome>)
    requires Recorded(inp, h) && |h| == 4 && h[3].Done?
    ensures h[0].Done? && h[0].value.PlanValue? && h[1].Done? && h[1].value.CodeValue?
    ensures h[2].Done? && h[2].value.SandboxValue? && h[2].value.sandbox.Ok() && h[3].value.SummaryValue?
    ensures After(inp, h) ==
        Live("completed",
             [Completed("plan"), Completed("generate_code"), Completed("run_sandbox"), Completed("summarize")],
             Ended(Returned(CompletedResult(inp.runId, h[3].value.summary, h[1].value.code, h[2].value.sandbox))))
  {
    if h[2].Done? { AfterSandbox(inp, h[..3]); }
    assert h[..3][..2] == h[..2];
  }

  /** After a sandbox result nothing more is recorded if it is not ok, and at most the summary if it is. */
  lemma Concluded(inp: RunInput, h: seq<Outcome>)
    requires Recorded(inp, h) && |h| >= 3 && h[2].Done? && h[2].value.SandboxValue?
    ensures if h[2].value.sandbox.Ok() then |h| <= 4 else |h| == 3
    ensures |h| == 3 ==> h[..3] == h
    ensures Recorded(inp, h[..3]) && (|h| == 4 ==> After(inp, h) == Resume(inp, After(inp, h[..3]), h[3]))
  {
    RecordedPrefix(inp, h, 3);
    AfterSandbox(inp, h[..3]);
    if |h| >= 4 {
      RecordedPrefix(inp, h, 4);
      assert |h| == 4 ==> h[..4] == h;
    }
  }

  /** After the first k outcomes the live workflow is waiting on command c. */
  ghost predicate Issues(inp: RunInput, h: seq<Outcome>, k: nat, c: Command) {
    && k <= |h|
    && Recorded(inp, h[..k])
    && !After(inp, h[..k]).control.Ended?
    && c == Pending(inp, After(inp, h[..k]))
  }

  // ---- the workflow object ---------------------------------------------------------------

  class StepStatus {
    var name: string
    var state: string
    var detail: Option<string>

    constructor (name: string, state: string)
      ensures View() == StepView(name, state, None)
    {
      this.name, this.state, this.detail := name, state, None;
    }

    function View(): StepView
      reads this
    {
      StepView(name, state, detail)
    }
  }

  datatype Await = Resolved(outcome: Outcome) | Blocked

  /** What a call of the coroutine, or of one of its helpers, does: return, raise, or suspend. */
  datatype Progress<+T> = Value(value: T) | Exits(exit: Exit) | Suspends

  class AgentPipelineWorkflow {
    var stage: string
    var steps: seq<StepStatus>
    // The replay context: the outcomes recorded for this run, how many have been consumed, and
    // the commands issued so far.
    const inp: RunInput
    const history: seq<Outcome>
    var cursor: nat
    var commands: seq<Command>

    constructor (inp: RunInput, history: seq<Outcome>)
      ensures this.inp == inp && this.history == history
      ensures stage == "queued" && steps == [] && cursor == 0 && commands == []
      ensures Valid()
    {
      this.inp, this.history := inp, history;
      stage, steps, cursor, commands := "queued", [], 0, [];
    }

    ghost predicate Valid()
      reads this
    {
      && cursor <= |history|
      && forall i, j :: 0 <= i < j < |steps| ==> steps[i] != steps[j]
    }

    ghost function Views(): (vs: seq<StepView>)
      reads this, steps
      ensures |vs| == |steps|
    {
      seq(|steps|, i requires 0 <= i < |steps| reads this, steps => steps[i].View())
    }

    /** The status query. */
    method Status() returns (rs: RunStatus)
      ensures rs == RunStatus(inp.runId, stage, Views())
    {
      var views: seq<StepView> := [];
      for i := 0 to |steps|
        invariant views == Views()[..i]
      {
        views := views + [steps[i].View()];
      }
      rs := RunStatus(inp.runId, stage, views);
    }

    /** Every command issued so far is the one the live workflow issued at that point. */
    ghost predicate InStep()
      reads this
    {
      forall k :: 0 <= k < |commands| ==> Issues(inp, history, k, commands[k])
    }

    /** Issues a command and takes its outcome from the history, or suspends at its end. */
    method ExecuteActivity(c: Command) returns (a: Await)
      requires Valid() && InStep() && |commands| == cursor && Issues(inp, history, cursor, c)
      modifies this`cursor, this`commands
      ensures Valid() && InStep() && commands == old(commands) + [c]
      ensures old(cursor) < |history| ==> cursor == old(cursor) + 1 && a == Resolved(history[old(cursor)])
      ensures old(cursor) == |history| ==> cursor == old(cursor) && a == Blocked
    {
      commands := commands + [c];
      if cursor < |history| {
        a := Resolved(history[cursor]);
        cursor := cursor + 1;
      } else {
        a := Blocked;
      }
    }

    /** The live workflow's steps once an agent step it waited on has been handled. */
    ghost function Handled(w: Live, a: Await): seq<StepView>
      requires w.steps != []
    {
      match a
      case Blocked => w.steps
      case Resolved(BareCancel) => w.steps
      case Resolved(Failed(_)) => WithLast(w.steps, "failed", None)
      case Resolved(Done(_)) => WithLast(w.steps, "completed", None)
    }

    /** Runs one agent step around its awaited activity; w is the live workflow at the await. */
    method Step(name: string, c: Command, ghost w: Live) returns (a: Await)
      requires Valid() && InStep() && |commands| == cursor && Issues(inp, history, cursor, c)
      requires w.stage == name && w.steps == Views() + [Running(name)]
      modifies this
      ensures Valid() && stage == name && Views() == Handled(w, a)
      ensures InStep() && commands == old(commands) + [c]
      ensures old(cursor) < |history| ==> cursor == old(cursor) + 1 && a == Resolved(history[old(cursor)])
      ensures old(cursor) == |history| ==> cursor == old(cursor) && a == Blocked
    {
      stage := name;
      var step := new StepStatus(name, "running");
      steps := steps + [step];
      assert Views() == w.steps;
      a := ExecuteActivity(c);
      match a {
        case Blocked =>
        case Resolved(Done(_)) => step.state := "completed";
        case Resolved(Failed(_)) => step.state := "failed";
        case Resolved(BareCancel) =>
      }
    }

    ghost function SandboxHandled(w: Live, a: Await): seq<StepView>
      requires w.steps != []
    {
      if a.Resolved? && a.outcome.Done? && a.outcome.value.SandboxValue? && !a.outcome.value.sandbox.Ok() then
        WithLast(w.steps, "failed", a.outcome.value.sandbox.FailureReason())
      else
        Handled(w, a)
    }

    /** Runs the sandbox step; the user-code outcome is in the result. */
    method RunSandbox(code: string, ghost w: Live) returns (a: Await)
      requires Valid() && InStep() && |commands| == cursor
      requires Issues(inp, history, cursor, SandboxCommand(SandboxArgs(inp, code)))
      requires w.stage == "run_sandbox" && w.steps == Views() + [Running("run_sandbox")]
      requires cursor < |history| ==> Fits(SandboxCommand(SandboxArgs(inp, code)), history[cursor])
      modifies this
      ensures Valid() && stage == "run_sandbox" && Views() == SandboxHandled(w, a)
      ensures InStep() && commands == old(commands) + [SandboxCommand(SandboxArgs(inp, code))]
      ensures old(cursor) < |history| ==> cursor == old(cursor) + 1 && a == Resolved(history[old(cursor)])
      ensures old(cursor) == |history| ==> cursor == old(cursor) && a == Blocked
    {
      stage := "run_sandbox";
      var step := new StepStatus("run_sandbox", "running");
      steps := steps + [step];
      assert Views() == w.steps;
      a := ExecuteActivity(SandboxCommand(RunSandboxArgs(inp.runId, inp.tenantId, code, inp.limits, inp.sandboxRuntime)));
      match a {
        case Blocked =>
        case Resolved(Failed(_)) => step.state := "failed";
        case Resolved(BareCancel) =>
        case Resolved(Done(value)) =>
          var result := value.sandbox;
          step.state := if result.Ok() then "completed" else "failed";
          if !result.Ok() {
            step.detail := result.FailureReason();
          }
      }
    }

    /**
     * The whole history is consumed, stage and steps are those of the live workflow, and the
     * coroutine ends or suspends exactly as the live workflow does.
     */
    ghost predicate Rebuilt(r: Progress<RunResult>)
      requires Recorded(inp, history)
      reads this, steps
    {
      var w := After(inp, history);
      && Valid() && InStep()
      && cursor == |history|
      && stage == w.stage && Views() == w.steps
      && |commands| == (if w.control.Ended? then |history| else |history| + 1)
      && match r
         case Value(result) => w.control == Ended(Returned(result))
         case Exits(exit) => w.control == Ended(exit) && !exit.Returned?
         case Suspends => !w.control.Ended?
    }

    /** Decides the terminal status from the sandbox result. */
    method Conclude(plan: Plan, code: string, sbx: SandboxResult) returns (r: Progress<RunResult>)
      requires Valid() && InStep() && |commands| == cursor == 3 && Recorded(inp, history)
      requires history[2] == Done(SandboxValue(sbx))
      requires history[0] == Done(PlanValue(plan)) && history[1] == Done(CodeValue(code))
      requires Recorded(inp, history[..3])
      requires Views() == [Completed("plan"), Completed("generate_code"),
                           StepView("run_sandbox", if sbx.Ok() then "completed" else "failed", sbx.FailureReason())]
      modifies this
      ensures Rebuilt(r)
    {
      ghost var h := history;
      AfterSandbox(inp, h[..3]);
      Concluded(inp, h);
      if !sbx.Ok() {
        stage := "failed";
        var reason := sbx.FailureReason();
        return Value(FailedResult(inp.runId, if reason.Some? then reason.value else "sandbox_failed", sbx, code));
      }
      var a := Step("summarize", SummarizeCommand(SummarizeArgs(plan, sbx)), After(inp, h[..3]));
      if a.Blocked? { return Suspends; }
      if !a.outcome.Done? { return Exits(ExitOf(a.outcome)); }
      AfterSummary(inp, h);
      stage := "completed";
      return Value(CompletedResult(inp.runId, a.outcome.value.summary, code, sbx));
    }

    /** The coroutine from the sandbox command on. */
    method Execute(plan: Plan, code: string) returns (r: Progress<RunResult>)
      requires Valid() && InStep() && |commands| == cursor == 2 && Recorded(inp, history)
      requires history[0] == Done(PlanValue(plan)) && history[1] == Done(CodeValue(code))
      requires Recorded(inp, history[..2]) && Views() == [Completed("plan"), Completed("generate_code")]
      modifies this
      ensures Rebuilt(r)
    {
      ghost var h := history;
      assert h[..|h|] == h;
      AfterCode(inp, h[..2]);
      RecordedPrefix(inp, h, 2);
      var a := RunSandbox(code, After(inp, h[..2]));
      if a.Blocked? { return Suspends; }
      RecordedPrefix(inp, h, 3);
      if !a.outcome.Done? { return Exits(ExitOf(a.outcome)); }
      AfterSandbox(inp, h[..3]);
      r := Conclude(plan, code, a.outcome.value.sandbox);
    }

    /** The coroutine from the generate_code command on. */
    method GenerateCode(plan: Plan) returns (r: Progress<RunResult>)
      requires Valid() && InStep() && |commands| == cursor == 1 && Recorded(inp, history)
      requires history[0] == Done(PlanValue(plan))
      requires Recorded(inp, history[..1]) && Views() == [Completed("plan")]
      modifies this
      ensures Rebuilt(r)
    {
      ghost var h := history;
      assert h[..|h|] == h;
      AfterPlan(inp, h[..1]);
      RecordedPrefix(inp, h, 1);
      var a := Step("generate_code", GenerateCommand(plan), After(inp, h[..1]));
      if a.Blocked? { return Suspends; }
      RecordedPrefix(inp, h, 2);
      if !a.outcome.Done? { return Exits(ExitOf(a.outcome)); }
      AfterCode(inp, h[..2]);
      r := Execute(plan, a.outcome.value.code);
    }

    /**
     * The coroutine, executed from the top.  Given any recorded history it rebuilds the live
     * workflow and issues exactly the commands the live workflow issued, in order.
     */
    method Run() returns (r: Progress<RunResult>)
      requires Valid() && cursor == 0 && steps == [] && commands == []
      requires Recorded(inp, history)
      modifies this
      ensures Rebuilt(r)
    {
      ghost var h := history;
      RecordedPrefix(inp, h, 0);
      assert h[..0] == [] && h[..|h|] == h;
      var a := Step("plan", PlanCommand(inp.task), BEGIN);
      if a.Blocked? { return Suspends; }
      RecordedPrefix(inp, h, 1);
      if !a.outcome.Done? { return Exits(ExitOf(a.outcome)); }
      var plan := a.outcome.value.plan;
      AfterPlan(inp, h[..1]);
      r := GenerateCode(plan);
    }
  }
}
