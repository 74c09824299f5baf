// What the API answers about a run: the response built from a status query or from a closed
// run, and its JSON forms.

module Responses {
  import opened Contracts
  import opened Workflow
  import opened Durable
  import Json
  import JsonReader

  datatype SandboxModel = SandboxModel(
    runtime: string, exitCode: int, ok: bool, failureReason: Option<string>, wallMs: int,
    oomKilled: bool, wallClockExceeded: bool, truncated: bool, stdoutTail: string, stderrTail: string)

  datatype RunResultModel = RunResultModel(
    summary: Option<string>, code: Option<string>, sandbox: Option<SandboxModel>)

  datatype ErrorDetail = ErrorDetail(code: string, step: Option<string>, message: string, retryable: bool)

  /** The wire statuses, and their text. */
  datatype Status = PENDING | RUNNING | COMPLETED | FAILED | TIMED_OUT | CANCELLED

  function StatusText(s: Status): string {
    match s
    case PENDING => "PENDING"
    case RUNNING => "RUNNING"
    case COMPLETED => "COMPLETED"
    case FAILED => "FAILED"
    case TIMED_OUT => "TIMED_OUT"
    case CANCELLED => "CANCELLED"
  }

  lemma StatusTextInjective(s: Status, t: Status)
    requires StatusText(s) == StatusText(t)
    ensures s == t
  {
    assert StatusText(s)[0] == StatusText(t)[0] && StatusText(s)[1] == StatusText(t)[1];
  }

  datatype Response = Response(
    runId: string, status: Status, stage: string, currentStep: Option<string>,
    completedSteps: seq<string>, steps: seq<StepView>, result: Option<RunResultModel>, error: Option<ErrorDetail>)

  /** Temporal's status of an execution. */
  datatype ExecutionStatus = RunningStatus | CompletedStatus | FailedStatus | CanceledStatus | TerminatedStatus | TimedOutStatus

  const PIPELINE: seq<string> := ["plan", "generate_code", "run_sandbox", "summarize"]

  function NamesCompleted(steps: seq<StepView>): seq<string> {
    if steps == [] then []
    else (if steps[0].state == "completed" then [steps[0].name] else []) + NamesCompleted(steps[1..])
  }

  function RunningResponse(runId: string, stage: string, steps: seq<StepView>): Response {
    Response(runId, RUNNING, stage, Some(stage), NamesCompleted(steps), steps, None, None)
  }

  function ModelOf(sb: SandboxResult): SandboxModel {
    SandboxModel(sb.runtime, sb.exitCode, sb.Ok(), sb.FailureReason(), sb.wallMs, sb.oomKilled,
                 sb.wallClockExceeded, sb.truncated, sb.stdoutTail, sb.stderrTail)
  }

  function CompletedResponse(runId: string, r: RunResult): Response {
    var sb := if r.sandbox.Some? then Some(ModelOf(r.sandbox.value)) else None;
    var model := RunResultModel(r.summary, r.code, sb);
    if r.status == "completed" then
      Response(runId, COMPLETED, "completed", None, PIPELINE, [], Some(model), None)
    else
      var message := if r.failureReason.Some? && r.failureReason.value != "" then r.failureReason.value else "run failed";
      Response(runId, FAILED, "failed", None, [], [], Some(model),
               Some(ErrorDetail("SANDBOX_FAILURE", Some("run_sandbox"), message, false)))
  }

  /** The response to a run that closed without a result; cause is the text of its failure, if read. */
  function TerminalFailure(runId: string, st: ExecutionStatus, cause: Option<string>): Response {
    var status := match st
                  case TimedOutStatus => TIMED_OUT
                  case CanceledStatus => CANCELLED
                  case _ => FAILED;
    var lowered := match st
                   case TimedOutStatus => "timed_out"
                   case CanceledStatus => "cancelled"
                   case _ => "failed";
    var message := if cause.Some? then cause.value else lowered;
    Response(runId, status, "failed", None, [], [], None, Some(ErrorDetail(StatusText(status), None, message, false)))
  }

  predicate IsTerminal(r: Response) {
    r.status.COMPLETED? || r.status.FAILED? || r.status.TIMED_OUT? || r.status.CANCELLED?
  }

  // ---- resolving a run's status --------------------------------------------------------------------

  /** The status Temporal gives a run. */
  function StatusOf(s: State): ExecutionStatus {
    if !IsClosed(s) then RunningStatus else
      match ClosureOf(s)
      case RunTimedOut => TimedOutStatus
      case Terminated => TerminatedStatus
      case ByWorkflow(Returned(_)) => CompletedStatus
      case ByWorkflow(Raised(f)) => if f.CancelledFailure? then CanceledStatus else FailedStatus
      case ByWorkflow(CancelRaised) => CanceledStatus
  }

  /** A status query is answered by the cached workflow, or by one rebuilt for it from the history. */
  predicate Queryable(c: Config, s: State) {
    s.worker.Up? || Recorded(c.inp, Outcomes(s.events))
  }

  function View(c: Config, s: State): Live
    requires Queryable(c, s)
  {
    if s.worker.Up? then s.worker.live else After(c.inp, Outcomes(s.events))
  }

  /**
   * _resolve_status: the run is described in state s; if it is open then, it is queried in a later
   * state t, in which it may have closed.
   */
  function ResolveStatus(c: Config, s: State, t: State, cause: Option<string>): Response
    requires IsClosed(s) || Queryable(c, t)
  {
    var id := c.inp.runId;
    match StatusOf(s)
    case RunningStatus => RunningResponse(id, View(c, t).stage, View(c, t).steps)
    case CompletedStatus => CompletedResponse(id, ClosureOf(s).exit.result)
    case st => TerminalFailure(id, st, cause)
  }

  // ---- JSON ------------------------------------------------------------------------------------------

  function Text(o: Option<string>): Json.Value {
    if o.Some? then Json.Str(o.value) else Json.Null
  }

  function Texts(ss: seq<string>): (vs: seq<Json.Value>)
    ensures |vs| == |ss|
  {
    seq(|ss|, i requires 0 <= i < |ss| => Json.Str(ss[i]))
  }

  /** A step's payload with its keys in field order, or sorted. */
  function StepJson(v: StepView, sorted: bool): Json.Value {
    var name, state, detail :=
      Json.Field("name", Json.Str(v.name)), Json.Field("state", Json.Str(v.state)), Json.Field("detail", Text(v.detail));
    Json.Obj(if sorted then [detail, name, state] else [name, state, detail])
  }

  function StepsJson(vs: seq<StepView>, sorted: bool): (js: seq<Json.Value>)
    ensures |js| == |vs|
  {
    seq(|vs|, i requires 0 <= i < |vs| => StepJson(vs[i], sorted))
  }

  function SandboxJson(m: SandboxModel, sorted: bool): Json.Value {
    var runtime, exitCode, ok, reason, wallMs :=
      Json.Field("runtime", Json.Str(m.runtime)), Json.Field("exit_code", Json.Int(m.exitCode)),
      Json.Field("ok", Json.Bool(m.ok)), Json.Field("failure_reason", Text(m.failureReason)),
      Json.Field("wall_ms", Json.Int(m.wallMs));
    var oom, exceeded, truncated, out, err :=
      Json.Field("oom_killed", Json.Bool(m.oomKilled)), Json.Field("wall_clock_exceeded", Json.Bool(m.wallClockExceeded)),
      Json.Field("truncated", Json.Bool(m.truncated)), Json.Field("stdout_tail", Json.Str(m.stdoutTail)),
      Json.Field("stderr_tail", Json.Str(m.stderrTail));
    Json.Obj(
      if sorted then [exitCode, reason, ok, oom, runtime, err, out, truncated, exceeded, wallMs]
      else [runtime, exitCode, ok, reason, wallMs, oom, exceeded, truncated, out, err])
  }

  function ResultJson(m: RunResultModel, sorted: bool): Json.Value {
    var summary, code, sandbox :=
      Json.Field("summary", Text(m.summary)), Json.Field("code", Text(m.code)),
      Json.Field("sandbox", if m.sandbox.Some? then SandboxJson(m.sandbox.value, sorted) else Json.Null);
    Json.Obj(if sorted then [code, sandbox, summary] else [summary, code, sandbox])
  }

  function ErrorJson(e: ErrorDetail, sorted: bool): Json.Value {
    var code, step, message, retryable :=
      Json.Field("code", Json.Str(e.code)), Json.Field("step", Text(e.step)),
      Json.Field("message", Json.Str(e.message)), Json.Field("retryable", Json.Bool(e.retryable));
    Json.Obj(if sorted then [code, message, retryable, step] else [code, step, message, retryable])
  }

  /** model_dump of a response; sorted gives the key order of json.dumps(..., sort_keys=True). */
  function Payload(r: Response, sorted: bool): Json.Value {
    var runId, status, stage, current :=
      Json.Field("run_id", Json.Str(r.runId)), Json.Field("status", Json.Str(StatusText(r.status))),
      Json.Field("stage", Json.Str(r.stage)), Json.Field("current_step", Text(r.currentStep));
    var completed, steps := Json.Field("completed_steps", Json.Arr(Texts(r.completedSteps))),
      Json.Field("steps", Json.Arr(StepsJson(r.steps, sorted)));
    var result, error := Json.Field("result", if r.result.Some? then ResultJson(r.result.value, sorted) else Json.Null),
      Json.Field("error", if r.error.Some? then ErrorJson(r.error.value, sorted) else Json.Null);
    Json.Obj(
      if sorted then [completed, current, error, result, runId, stage, status, steps]
      else [runId, status, stage, current, completed, steps, result, error])
  }

  lemma TextsInjective(a: seq<string>, b: seq<string>)
    requires Texts(a) == Texts(b)
    ensures a == b
  {
    assert |a| == |Texts(a)| == |Texts(b)| == |b|;
    forall i | 0 <= i < |a| ensures a[i] == b[i] {
      assert Texts(a)[i] == Texts(b)[i];
    }
  }

  lemma StepsInjective(a: seq<StepView>, b: seq<StepView>, sorted: bool)
    requires StepsJson(a, sorted) == StepsJson(b, sorted)
    ensures a == b
  {
    assert |a| == |StepsJson(a, sorted)| == |StepsJson(b, sorted)| == |b|;
    forall i | 0 <= i < |a| ensures a[i] == b[i] {
      assert StepsJson(a, sorted)[i] == StepsJson(b, sorted)[i];
      StepInjective(a[i], b[i], sorted);
    }
  }

  lemma FieldsEqual(a: seq<Json.Field>, b: seq<Json.Field>, k: nat)
    requires a == b && k < |a|
    ensures a[k].value == b[k].value
  {
  }

  lemma StepInjective(a: StepView, b: StepView, sorted: bool)
    requires StepJson(a, sorted) == StepJson(b, sorted)
    ensures a == b
  {
    var x, y := StepJson(a, sorted).fields, StepJson(b, sorted).fields;
    FieldsEqual(x, y, 0);
    FieldsEqual(x, y, 1);
    FieldsEqual(x, y, 2);
  }

  lemma SandboxInjective(a: SandboxModel, b: SandboxModel)
    requires SandboxJson(a, true) == SandboxJson(b, true)
    ensures a == b
  {
    var x, y := SandboxJson(a, true).fields, SandboxJson(b, true).fields;
    assert x[0] == y[0] && x[1] == y[1] && x[2] == y[2] && x[3] == y[3] && x[4] == y[4];
    assert x[5] == y[5] && x[6] == y[6] && x[7] == y[7] && x[8] == y[8] && x[9] == y[9];
  }

  lemma ResultInjective(a: RunResultModel, b: RunResultModel)
    requires ResultJson(a, true) == ResultJson(b, true)
    ensures a == b
  {
    var x, y := ResultJson(a, true).fields, ResultJson(b, true).fields;
    assert x[0] == y[0] && x[1] == y[1] && x[2] == y[2];
    if a.sandbox.Some? && b.sandbox.Some? {
      SandboxInjective(a.sandbox.value, b.sandbox.value);
    }
  }

  lemma ErrorInjective(a: ErrorDetail, b: ErrorDetail)
    requires ErrorJson(a, true) == ErrorJson(b, true)
    ensures a == b
  {
    var x, y := ErrorJson(a, true).fields, ErrorJson(b, true).fields;
    assert x[0] == y[0] && x[1] == y[1] && x[2] == y[2] && x[3] == y[3];
  }

  /** No two responses have the same payload. */
  lemma PayloadInjective(a: Response, b: Response)
    requires Payload(a, true) == Payload(b, true)
    ensures a == b
  {
    var x, y := Payload(a, true).fields, Payload(b, true).fields;
    assert x[0] == y[0] && x[1] == y[1] && x[2] == y[2] && x[3] == y[3];
    assert x[4] == y[4] && x[5] == y[5] && x[6] == y[6] && x[7] == y[7];
    StatusTextInjective(a.status, b.status);
    TextsInjective(a.completedSteps, b.completedSteps);
    StepsInjective(a.steps, b.steps, true);
    if a.result.Some? && b.result.Some? {
      ResultInjective(a.result.value, b.result.value);
    }
    if a.error.Some? && b.error.Some? {
      ErrorInjective(a.error.value, b.error.value);
    }
  }

  /**
   * The change filter compares printed payloads; that is the same as comparing responses: two
   * responses print the same sorted text only if they are the same.
   */
  lemma {:induction false} SortedTextInjective(a: Response, b: Response)
    requires SortedText(a) == SortedText(b)
    ensures a == b
  {
    JsonReader.DumpsInjective(Payload(a, true), Payload(b, true));
    PayloadInjective(a, b);
  }

  /** json.dumps(payload, sort_keys=True). */
  function SortedText(r: Response): string {
    Json.Dumps(Payload(r, true))
  }

  /** The text is the sorted text of r, and of no other response. */
  ghost predicate PrintsOnly(r: Response, text: string) {
    forall q :: text == SortedText(q) <==> q == r
  }

  method PrintSorted(r: Response) returns (text: string)
    ensures PrintsOnly(r, text)
  {
    text := SortedText(r);
    forall q ensures text == SortedText(q) <==> q == r {
      if text == SortedText(q) {
        SortedTextInjective(q, r);
      }
    }
  }

  lemma PrintsOne(q: Response, r: Response, text: string)
    requires PrintsOnly(q, text) && PrintsOnly(r, text)
    ensures q == r
  {
    assert text == SortedText(q);
  }

  lemma PrintsSame(r: Response, a: string, b: string)
    requires PrintsOnly(r, a) && PrintsOnly(r, b)
    ensures a == b
  {
    assert a == SortedText(r) && b == SortedText(r);
  }
}
