// What a client of the status stream reads: it parses the text as an event stream, the data of each
// event as JSON, and looks fields up by name.

module Client {
  import opened Basics
  import opened Contracts
  import opened Responses
  import opened Stream
  import opened Json
  import opened JsonReader
  import EventStream

  // ---- looking fields up ----------------------------------------------------------------------------

  function Lookup(fs: seq<Field>, name: string): Option<Value> {
    if fs == [] then None
    else if fs[0].name == name then Some(fs[0].value)
    else Lookup(fs[1..], name)
  }

  function Get(v: Value, name: string): Option<Value> {
    if v.Obj? then Lookup(v.fields, name) else None
  }

  predicate Is(v: Value, name: string, value: Value) {
    Get(v, name) == Some(value)
  }

  function OrNull(o: Option<string>): Value {
    if o.Some? then Str(o.value) else Null
  }

  /** A list of texts. */
  predicate Lists(v: Value, ss: seq<string>) {
    v.Arr? && |v.elems| == |ss| && forall i :: 0 <= i < |ss| ==> v.elems[i] == Str(ss[i])
  }

  predicate SaysStep(v: Value, s: StepView) {
    Is(v, "name", Str(s.name)) && Is(v, "state", Str(s.state)) && Is(v, "detail", OrNull(s.detail))
  }

  predicate SaysSteps(v: Value, ss: seq<StepView>) {
    v.Arr? && |v.elems| == |ss| && forall i :: 0 <= i < |ss| ==> SaysStep(v.elems[i], ss[i])
  }

  predicate SaysSandbox(v: Value, m: SandboxModel) {
    && Is(v, "runtime", Str(m.runtime)) && Is(v, "exit_code", Int(m.exitCode)) && Is(v, "ok", Bool(m.ok))
    && Is(v, "failure_reason", OrNull(m.failureReason)) && Is(v, "wall_ms", Int(m.wallMs))
    && Is(v, "oom_killed", Bool(m.oomKilled)) && Is(v, "wall_clock_exceeded", Bool(m.wallClockExceeded))
    && Is(v, "truncated", Bool(m.truncated)) && Is(v, "stdout_tail", Str(m.stdoutTail))
    && Is(v, "stderr_tail", Str(m.stderrTail))
  }

  predicate SaysResult(v: Value, m: RunResultModel) {
    && Is(v, "summary", OrNull(m.summary)) && Is(v, "code", OrNull(m.code))
    && match m.sandbox
       case None => Is(v, "sandbox", Null)
       case Some(sb) => Get(v, "sandbox").Some? && SaysSandbox(Get(v, "sandbox").value, sb)
  }

  predicate SaysError(v: Value, e: ErrorDetail) {
    && Is(v, "code", Str(e.code)) && Is(v, "step", OrNull(e.step))
    && Is(v, "message", Str(e.message)) && Is(v, "retryable", Bool(e.retryable))
  }

  function WireStatus(s: Status): string {
    match s
    case PENDING => "PENDING"
    case RUNNING => "RUNNING"
    case COMPLETED => "COMPLETED"
    case FAILED => "FAILED"
    case TIMED_OUT => "TIMED_OUT"
    case CANCELLED => "CANCELLED"
  }

  predicate SaysHead(v: Value, r: Response) {
    && Is(v, "run_id", Str(r.runId)) && Is(v, "status", Str(WireStatus(r.status)))
    && Is(v, "stage", Str(r.stage)) && Is(v, "current_step", OrNull(r.currentStep))
  }

  predicate SaysTail(v: Value, r: Response) {
    && Get(v, "completed_steps").Some? && Lists(Get(v, "completed_steps").value, r.completedSteps)
    && Get(v, "steps").Some? && SaysSteps(Get(v, "steps").value, r.steps)
    && (match r.result
        case None => Is(v, "result", Null)
        case Some(m) => Get(v, "result").Some? && SaysResult(Get(v, "result").value, m))
    && match r.error
       case None => Is(v, "error", Null)
       case Some(e) => Get(v, "error").Some? && SaysError(Get(v, "error").value, e)
  }

  /** The fields of a JSON value, by name, are those of a response. */
  predicate Says(v: Value, r: Response) {
    SaysHead(v, r) && SaysTail(v, r)
  }

  lemma ListsOnce(v: Value, a: seq<string>, b: seq<string>)
    requires Lists(v, a) && Lists(v, b)
    ensures a == b
  {
    forall i | 0 <= i < |a| ensures a[i] == b[i] {
      assert v.elems[i] == Str(a[i]);
    }
  }

  lemma StepsOnce(v: Value, a: seq<StepView>, b: seq<StepView>)
    requires SaysSteps(v, a) && SaysSteps(v, b)
    ensures a == b
  {
    forall i | 0 <= i < |a| ensures a[i] == b[i] {
      assert SaysStep(v.elems[i], a[i]) && SaysStep(v.elems[i], b[i]);
    }
  }

  lemma ResultOnce(v: Value, a: RunResultModel, b: RunResultModel)
    requires SaysResult(v, a) && SaysResult(v, b)
    ensures a == b
  {
    if a.sandbox.Some? && b.sandbox.Some? {
      var s := Get(v, "sandbox").value;
      assert SaysSandbox(s, a.sandbox.value) && SaysSandbox(s, b.sandbox.value);
    }
  }

  lemma ErrorOnce(v: Value, a: ErrorDetail, b: ErrorDetail)
    requires SaysError(v, a) && SaysError(v, b)
    ensures a == b
  {
  }

  lemma HeadOnce(v: Value, r: Response, q: Response)
    requires SaysHead(v, r) && SaysHead(v, q)
    ensures r.runId == q.runId && r.status == q.status && r.stage == q.stage && r.currentStep == q.currentStep
  {
    WireStatusInjective(r.status, q.status);
  }

  /** A value says one response only: a client gets the response back. */
  lemma SaysDetermines(v: Value, r: Response, q: Response)
    requires Says(v, r) && Says(v, q)
    ensures r == q
  {
    HeadOnce(v, r, q);
    ListsOnce(Get(v, "completed_steps").value, r.completedSteps, q.completedSteps);
    StepsOnce(Get(v, "steps").value, r.steps, q.steps);
    if r.result.Some? && q.result.Some? { ResultOnce(Get(v, "result").value, r.result.value, q.result.value); }
    if r.error.Some? && q.error.Some? { ErrorOnce(Get(v, "error").value, r.error.value, q.error.value); }
  }

  lemma WireStatusInjective(s: Status, t: Status)
    requires WireStatus(s) == WireStatus(t)
    ensures s == t
  {
    assert WireStatus(s)[0] == WireStatus(t)[0] && WireStatus(s)[1] == WireStatus(t)[1];
  }

  // ---- what a payload says ---------------------------------------------------------------------------

  lemma {:induction false} LookupAt(fs: seq<Field>, k: nat)
    requires k < |fs| && forall j :: 0 <= j < k ==> fs[j].name != fs[k].name
    ensures Lookup(fs, fs[k].name) == Some(fs[k].value)
  {
    if k > 0 {
      LookupAt(fs[1..], k - 1);
    }
  }

  lemma StepSays(s: StepView, sorted: bool)
    ensures SaysStep(StepJson(s, sorted), s)
  {
    var fs := StepJson(s, sorted).fields;
    assert |"name"| == 4 && |"state"| == 5 && |"detail"| == 6;
    LookupAt(fs, 0);
    LookupAt(fs, 1);
    LookupAt(fs, 2);
  }

  lemma SandboxNames()
    ensures |"runtime"| == 7 && |"exit_code"| == 9 && |"ok"| == 2 && |"failure_reason"| == 14 && |"wall_ms"| == 7
    ensures |"oom_killed"| == 10 && |"wall_clock_exceeded"| == 19 && |"truncated"| == 9
    ensures |"stdout_tail"| == 11 && |"stderr_tail"| == 11
    ensures "runtime"[0] != "wall_ms"[0] && "exit_code"[0] != "truncated"[0] && "stdout_tail"[3] != "stderr_tail"[3]
  {
  }

  lemma SandboxHead(m: SandboxModel)
    ensures var v := SandboxJson(m, false);
            && Is(v, "runtime", Str(m.runtime)) && Is(v, "exit_code", Int(m.exitCode)) && Is(v, "ok", Bool(m.ok))
            && Is(v, "failure_reason", OrNull(m.failureReason)) && Is(v, "wall_ms", Int(m.wallMs))
  {
    var fs := SandboxJson(m, false).fields;
    SandboxNames();
    LookupAt(fs, 0);
    LookupAt(fs, 1);
    LookupAt(fs, 2);
    LookupAt(fs, 3);
    LookupAt(fs, 4);
  }

  lemma SandboxMiddle(m: SandboxModel)
    ensures var v := SandboxJson(m, false);
            && Is(v, "oom_killed", Bool(m.oomKilled)) && Is(v, "wall_clock_exceeded", Bool(m.wallClockExceeded))
            && Is(v, "truncated", Bool(m.truncated))
  {
    var fs := SandboxJson(m, false).fields;
    SandboxNames();
    LookupAt(fs, 5);
    LookupAt(fs, 6);
    LookupAt(fs, 7);
  }

  lemma SandboxTail(m: SandboxModel)
    ensures var v := SandboxJson(m, false);
            Is(v, "stdout_tail", Str(m.stdoutTail)) && Is(v, "stderr_tail", Str(m.stderrTail))
  {
    var fs := SandboxJson(m, false).fields;
    SandboxNames();
    LookupAt(fs, 8);
    LookupAt(fs, 9);
  }

  lemma SandboxSays(m: SandboxModel)
    ensures SaysSandbox(SandboxJson(m, false), m)
  {
    SandboxHead(m);
    SandboxMiddle(m);
    SandboxTail(m);
  }

  lemma ResultSays(m: RunResultModel)
    ensures SaysResult(ResultJson(m, false), m)
  {
    var fs := ResultJson(m, false).fields;
    assert |"summary"| == |"sandbox"| == 7 && |"code"| == 4 && "summary"[1] != "sandbox"[1];
    LookupAt(fs, 0);
    LookupAt(fs, 1);
    LookupAt(fs, 2);
    if m.sandbox.Some? {
      SandboxSays(m.sandbox.value);
    }
  }

  lemma ErrorSays(e: ErrorDetail)
    ensures SaysError(ErrorJson(e, false), e)
  {
    var fs := ErrorJson(e, false).fields;
    assert |"code"| == |"step"| == 4 && |"message"| == 7 && |"retryable"| == 9 && "code"[0] != "step"[0];
    LookupAt(fs, 0);
    LookupAt(fs, 1);
    LookupAt(fs, 2);
    LookupAt(fs, 3);
  }

  lemma ResponseNames()
    ensures |"run_id"| == 6 && |"status"| == 6 && |"stage"| == 5 && |"current_step"| == 12
    ensures |"completed_steps"| == 15 && |"steps"| == 5 && |"result"| == 6 && |"error"| == 5
    ensures "run_id"[0] == "result"[0] == 'r' && "run_id"[1] != "result"[1] && "status"[0] == 's'
    ensures "stage"[2] == 'a' && "steps"[2] == 'e' && "error"[0] == 'e' && "stage"[0] == "steps"[0] == 's'
  {
  }

  lemma HeadSays(r: Response)
    ensures SaysHead(Payload(r, false), r)
  {
    var fs := Payload(r, false).fields;
    ResponseNames();
    LookupAt(fs, 0);
    LookupAt(fs, 1);
    LookupAt(fs, 2);
    LookupAt(fs, 3);
  }

  /** Where the last four fields of a payload are. */
  lemma TailFields(r: Response)
    ensures var v := Payload(r, false);
            && Get(v, "completed_steps") == Some(Arr(Texts(r.completedSteps)))
            && Get(v, "steps") == Some(Arr(StepsJson(r.steps, false)))
            && Get(v, "result") == Some(if r.result.Some? then ResultJson(r.result.value, false) else Null)
            && Get(v, "error") == Some(if r.error.Some? then ErrorJson(r.error.value, false) else Null)
  {
    var fs := Payload(r, false).fields;
    ResponseNames();
    LookupAt(fs, 4);
    LookupAt(fs, 5);
    LookupAt(fs, 6);
    LookupAt(fs, 7);
  }

  lemma StepsSay(vs: seq<StepView>)
    ensures SaysSteps(Arr(StepsJson(vs, false)), vs)
  {
    forall i | 0 <= i < |vs| ensures SaysStep(StepsJson(vs, false)[i], vs[i]) {
      StepSays(vs[i], false);
    }
  }

  lemma TailSays(r: Response)
    ensures SaysTail(Payload(r, false), r)
  {
    TailFields(r);
    StepsSay(r.steps);
    if r.result.Some? { ResultSays(r.result.value); }
    if r.error.Some? { ErrorSays(r.error.value); }
  }

  /** The payload of an event says its response, under the names of the wire format. */
  lemma PayloadSays(r: Response)
    ensures Says(Payload(r, false), r)
  {
    HeadSays(r);
    TailSays(r);
  }

  // ---- what a stream says ----------------------------------------------------------------------------

  /** The data of an event is one JSON value that says the response. */
  predicate DataSays(data: string, r: Response) {
    var p := ReadValue(data);
    p.Parsed? && p.rest == [] && Says(p.value, r)
  }

  predicate DataCloses(data: string, runId: string, maxDuration: bool) {
    var p := ReadValue(data);
    p.Parsed? && p.rest == [] && Closes(p.value, runId, maxDuration)
  }

  /** The event a client is to receive for an output, by the names of the wire format. */
  predicate Conveys(e: EventStream.Event, runId: string, o: Out) {
    match o
    case Snapshot(r) => e.name == "snapshot" && DataSays(e.data, r)
    case Change(r) => e.name == "step" && DataSays(e.data, r)
    case Terminal(r) =>
      && DataSays(e.data, r)
      && e.name == (if r.status == COMPLETED then "completed" else if r.status == TIMED_OUT then "timed_out" else "failed")
    case Done(maxDuration) => e.name == "done" && DataCloses(e.data, runId, maxDuration)
    case Ping => false
  }

  lemma PrintedSays(r: Response)
    ensures DataSays(Dumps(Payload(r, false)), r)
  {
    TextReadsBack(Payload(r, false));
    PayloadSays(r);
  }

  predicate Closes(v: Value, runId: string, maxDuration: bool) {
    Is(v, "run_id", Str(runId)) && Get(v, "reason") == if maxDuration then Some(Str("max_duration")) else None
  }

  lemma ClosingText(v: Value, runId: string, maxDuration: bool)
    requires Closes(v, runId, maxDuration)
    ensures DataCloses(Dumps(v), runId, maxDuration)
  {
    TextReadsBack(v);
  }

  lemma DoneCloses(runId: string, maxDuration: bool)
    ensures Closes(FrameOf(runId, Done(maxDuration)).payload, runId, maxDuration)
  {
    var fs := FrameOf(runId, Done(maxDuration)).payload.fields;
    LookupAt(fs, 0);
    assert "run_id"[1] != "reason"[1];
    if maxDuration {
      LookupAt(fs, 1);
    } else {
      assert |fs| == 1 && fs[0].name == "run_id" && fs[1..] == [];
      assert Lookup(fs, "reason") == Lookup(fs[1..], "reason") == None;
    }
  }

  lemma EventConveys(runId: string, o: Out)
    requires !o.Ping?
    ensures Conveys(EventOf(runId, o), runId, o)
  {
    match o
    case Snapshot(r) => PrintedSays(r);
    case Change(r) => PrintedSays(r);
    case Terminal(r) => PrintedSays(r);
    case Done(m) =>
      DoneCloses(runId, m);
      ClosingText(FrameOf(runId, o).payload, runId, m);
  }

  /** The outputs of a stream that are events, not keepalives. */
  function Audible(outs: seq<Out>): seq<Out> {
    if outs == [] then [] else (if outs[0].Ping? then [] else [outs[0]]) + Audible(outs[1..])
  }

  /** One event for each output, in order. */
  predicate AllConvey(es: seq<EventStream.Event>, runId: string, os: seq<Out>) {
    |es| == |os| && forall k :: 0 <= k < |es| ==> Conveys(es[k], runId, os[k])
  }

  lemma OneMoreConveys(e: EventStream.Event, es: seq<EventStream.Event>, runId: string, o: Out, os: seq<Out>)
    requires Conveys(e, runId, o) && AllConvey(es, runId, os)
    ensures AllConvey([e] + es, runId, [o] + os)
  {
  }

  lemma EventsStep(runId: string, outs: seq<Out>)
    requires outs != []
    ensures EventsOf(runId, outs) ==
        if outs[0].Ping? then EventsOf(runId, outs[1..]) else [EventOf(runId, outs[0])] + EventsOf(runId, outs[1..])
    ensures Audible(outs) == if outs[0].Ping? then Audible(outs[1..]) else [outs[0]] + Audible(outs[1..])
  {
  }

  lemma {:induction false} EventsConvey(runId: string, outs: seq<Out>)
    ensures AllConvey(EventsOf(runId, outs), runId, Audible(outs))
  {
    if outs != [] {
      EventsConvey(runId, outs[1..]);
      EventsStep(runId, outs);
      if !outs[0].Ping? {
        EventConveys(runId, outs[0]);
        OneMoreConveys(EventOf(runId, outs[0]), EventsOf(runId, outs[1..]), runId, outs[0], Audible(outs[1..]));
      }
    }
  }

  /**
   * A client that parses a stream's text as an event stream and each event's data as JSON gets one
   * event for each output but the keepalives, in order, of the right name and saying the response.
   */
  lemma ClientReadsResponses(runId: string, outs: seq<Out>)
    ensures AllConvey(EventStream.Parse(EventStream.RenderAll(Frames(runId, outs))), runId, Audible(outs))
  {
    ClientSeesEvents(runId, outs, 0);
    EventsConvey(runId, outs);
  }
}
