// Submitting runs: the workflow id is derived from the request, so that the durable server, which
// starts each id at most once, is all the memory idempotent submission needs.

module Submission {
  import opened Contracts
  import opened Basics
  import Decimal
  import Utf8
  import Json
  import JsonReader
  import JsonString

  datatype RunParams = RunParams(sandboxTimeoutS: Option<int>)

  datatype RunRequest = RunRequest(task: string, params: RunParams, tenantId: string, idempotencyKey: Option<string>)

  predicate TenantChar(c: char) {
    'a' <= c <= 'z' || '0' <= c <= '9' || c == '-'
  }

  /** What request validation lets through. */
  predicate Valid(req: RunRequest) {
    && 1 <= |req.task| <= 8192
    && (req.params.sandboxTimeoutS.Some? ==> 1 <= req.params.sandboxTimeoutS.value <= 120)
    && 1 <= |req.tenantId| <= 64 && req.tenantId[0] != '-' && (forall c :: c in req.tenantId ==> TenantChar(c))
    && (req.idempotencyKey.Some? ==> |req.idempotencyKey.value| <= 128)
  }

  /** The server's settings, and the hexadecimal SHA-256 digest. */
  datatype Environment = Environment(
    sha: seq<Utf8.byte> -> string, maxTaskBytes: int, ceilings: ResourceLimits, sandboxRuntime: string)

  // ---- what identifies a submission ---------------------------------------------------------------

  const PARAM := "sandbox_timeout_s"

  function ParamValue(p: RunParams): Json.Value {
    if p.sandboxTimeoutS.Some? then Json.Int(p.sandboxTimeoutS.value) else Json.Null
  }

  /** json.dumps of an object with one field, whose name needs no escaping: `OneFieldIsJson`. */
  function OneField(name: string, v: Json.Value): string {
    "{\"" + name + "\": " + Json.Dumps(v) + "}"
  }

  function ParamsText(p: RunParams): string {
    OneField(PARAM, ParamValue(p))
  }

  function PayloadBytes(req: RunRequest): seq<Utf8.byte> {
    Utf8.Encode(req.task + ParamsText(req.params))
  }

  function TaskDigest(env: Environment, req: RunRequest): string {
    env.sha(PayloadBytes(req))
  }

  function Truncated(digest: string): string {
    if |digest| <= 32 then digest else digest[..32]
  }

  /** The workflow id: under the tenant, the client's key, or else part of the payload's digest. */
  function WorkflowId(env: Environment, req: RunRequest): string {
    var name := if req.idempotencyKey.Some? && req.idempotencyKey.value != "" then req.idempotencyKey.value
                else Truncated(TaskDigest(env, req));
    req.tenantId + ":" + name
  }

  /** A text that opens with a brace and has no other. */
  predicate BraceFirst(d: string) {
    d != [] && d[0] == '{' && forall i :: 1 <= i < |d| ==> d[i] != '{'
  }

  predicate PlainName(s: string) {
    forall i :: 0 <= i < |s| ==> 'a' <= s[i] <= 'z' || s[i] == '_'
  }

  lemma {:induction false} PlainEscapes(s: string)
    requires PlainName(s)
    ensures JsonString.Escape(s) == s
  {
    if s != [] {
      PlainEscapes(s[1..]);
      assert s == [s[0]] + s[1..];
    }
  }

  lemma OneFieldIsJson(name: string, v: Json.Value)
    requires PlainName(name)
    ensures Json.Dumps(Json.Obj([Json.Field(name, v)])) == OneField(name, v)
  {
    var fs := [Json.Field(name, v)];
    PlainEscapes(name);
    assert fs[1..] == [] && Json.FieldsTail([]) == "}";
    assert Json.Dumps(Json.Obj(fs)) == "{" + JsonString.Quote(name) + ": " + Json.Dumps(v) + "}";
    assert "{" + JsonString.Quote(name) + ": " == "{\"" + name + "\": ";
  }

  lemma OneFieldInjective(name: string, v: Json.Value, w: Json.Value)
    requires PlainName(name) && OneField(name, v) == OneField(name, w)
    ensures v == w
  {
    var f, g := Json.Field(name, v), Json.Field(name, w);
    OneFieldIsJson(name, v);
    OneFieldIsJson(name, w);
    JsonReader.DumpsInjective(Json.Obj([f]), Json.Obj([g]));
    assert [f][0] == [g][0];
  }

  lemma OneFieldBrace(name: string, v: Json.Value)
    requires PlainName(name) && '{' !in Json.Dumps(v)
    ensures BraceFirst(OneField(name, v))
  {
    var s, d := OneField(name, v), Json.Dumps(v);
    forall i | 1 <= i < |s| ensures s[i] != '{' {
      if 2 <= i < 2 + |name| {
        assert s[i] == name[i - 2];
      } else if 5 + |name| <= i < |s| - 1 {
        assert s[i] == d[i - 5 - |name|] && d[i - 5 - |name|] in d;
      }
    }
  }

  lemma ParamsBrace(p: RunParams)
    ensures BraceFirst(ParamsText(p))
  {
    NoBraceInValue(p);
    OneFieldBrace(PARAM, ParamValue(p));
  }

  lemma NoBraceInValue(p: RunParams)
    ensures '{' !in Json.Dumps(ParamValue(p))
  {
    if p.sandboxTimeoutS.Some? {
      assert '{' !in Decimal.Str(p.sandboxTimeoutS.value);
    }
  }

  lemma LastBrace(t: string, d: string)
    requires BraceFirst(d)
    ensures var s := t + d; s[|t|] == '{' && forall i :: |t| < i < |s| ==> s[i] != '{'
  {
    var s := t + d;
    forall i | |t| < i < |s| ensures s[i] != '{' {
      assert s[i] == d[i - |t|];
    }
  }

  /** A text splits in one way at its last brace. */
  lemma SplitsAtBrace(t: string, d: string, u: string, e: string)
    requires BraceFirst(d) && BraceFirst(e) && t + d == u + e
    ensures t == u && d == e
  {
    var s := t + d;
    LastBrace(t, d);
    LastBrace(u, e);
    assert s[|t|] == s[|u|] == '{';
    assert |t| == |u|;
    assert s[..|t|] == t && s[..|u|] == u && s[|t|..] == d && s[|u|..] == e;
  }

  /** The payload determines the task and the parameters: the two cannot be confused. */
  lemma {:induction false} PayloadDetermines(a: RunRequest, b: RunRequest)
    requires PayloadBytes(a) == PayloadBytes(b)
    ensures a.task == b.task && a.params == b.params
  {
    Utf8.EncodeInjective(a.task + ParamsText(a.params), b.task + ParamsText(b.params));
    ParamsBrace(a.params);
    ParamsBrace(b.params);
    SplitsAtBrace(a.task, ParamsText(a.params), b.task, ParamsText(b.params));
    OneFieldInjective(PARAM, ParamValue(a.params), ParamValue(b.params));
  }

  // ---- recovering the tenant ------------------------------------------------------------------------

  /** run_id.split(":", 1)[0], when there is a colon. */
  function TenantOf(runId: string): Option<string> {
    if runId == [] then None
    else if runId[0] == ':' then Some([])
    else match TenantOf(runId[1..])
         case None => None
         case Some(t) => Some([runId[0]] + t)
  }

  lemma {:induction false} SplitTenant(tenant: string, name: string)
    requires ':' !in tenant
    ensures TenantOf(tenant + ":" + name) == Some(tenant)
  {
    var id := tenant + ":" + name;
    if tenant != [] {
      assert tenant[0] in tenant;
      assert id[1..] == tenant[1..] + ":" + name;
      SplitTenant(tenant[1..], name);
      assert tenant == [tenant[0]] + tenant[1..];
    }
  }

  /** Activities recover the tenant from the workflow id, whatever is in the key. */
  lemma {:induction false} BindRecoversTenant(env: Environment, req: RunRequest)
    requires Valid(req)
    ensures TenantOf(WorkflowId(env, req)) == Some(req.tenantId)
  {
    assert !TenantChar(':');
    var name := if req.idempotencyKey.Some? && req.idempotencyKey.value != "" then req.idempotencyKey.value
                else Truncated(TaskDigest(env, req));
    SplitTenant(req.tenantId, name);
  }

  /** So tenants never share a workflow id. */
  lemma {:induction false} TenantsAreSeparate(env: Environment, a: RunRequest, b: RunRequest)
    requires Valid(a) && Valid(b) && WorkflowId(env, a) == WorkflowId(env, b)
    ensures a.tenantId == b.tenantId
  {
    BindRecoversTenant(env, a);
    BindRecoversTenant(env, b);
  }

  // ---- one submission ---------------------------------------------------------------------------------

  /** How the call that starts a workflow fares; a lost reply may hide that it took effect. */
  datatype Rpc = Answered | Lost(unavailable: bool, applied: bool)

  datatype Submitted = Submitted(req: RunRequest, rpc: Rpc, memoReadable: bool)

  datatype Reply =
    | Created(runId: string, tenantId: string)      // 201
    | Replayed(runId: string, tenantId: string)     // 200
    | TaskTooLarge                                  // 413
    | IdempotencyConflict                           // 409
    | UpstreamUnavailable                           // 503
    | Unexpected                                    // any other error of the server, re-raised

  predicate Oversized(env: Environment, req: RunRequest) {
    |Utf8.Encode(req.task)| > env.maxTaskBytes
  }

  /** The configured ceilings, with the wall clock lowered on request. */
  function LimitsFor(env: Environment, p: RunParams): ResourceLimits {
    if p.sandboxTimeoutS.Some? then env.ceilings.(wallClockS := Min(p.sandboxTimeoutS.value, env.ceilings.wallClockS))
    else env.ceilings
  }

  function InputFor(env: Environment, req: RunRequest): RunInput {
    RunInput(WorkflowId(env, req), req.tenantId, req.task, LimitsFor(env, req.params), env.sandboxRuntime)
  }

  /** What the server keeps of a started run. */
  datatype Started = Started(inp: RunInput, memo: string)

  /** All that a submission means to the server, and how its calls fare. */
  datatype Call = Call(inp: RunInput, digest: string, oversized: bool, rpc: Rpc, memoReadable: bool)

  function CallFor(env: Environment, sub: Submitted): Call {
    Call(InputFor(env, sub.req), TaskDigest(env, sub.req), Oversized(env, sub.req), sub.rpc, sub.memoReadable)
  }

  /** The runs the server holds after a call. */
  function Next(runs: map<string, Started>, call: Call): map<string, Started> {
    if call.oversized || (call.rpc.Lost? && !call.rpc.applied) || call.inp.runId in runs then runs
    else runs[call.inp.runId := Started(call.inp, call.digest)]
  }

  function ReplyTo(runs: map<string, Started>, call: Call): Reply {
    var id, tenant := call.inp.runId, call.inp.tenantId;
    if call.oversized then TaskTooLarge
    else if call.rpc.Lost? then (if call.rpc.unavailable then UpstreamUnavailable else Unexpected)
    else if id !in runs then Created(id, tenant)
    else if call.memoReadable && runs[id].memo != call.digest then IdempotencyConflict
    else Replayed(id, tenant)
  }

  datatype StartReply = Accepted | AlreadyStarted | RpcError(unavailable: bool)

  /** The durable server, as a client sees it: an id once used is never started again. */
  class TemporalServer {
    var runs: map<string, Started>

    constructor ()
      ensures runs == map[]
    {
      runs := map[];
    }

    method StartWorkflow(inp: RunInput, memo: string, rpc: Rpc) returns (reply: StartReply)
      modifies this
      ensures runs == if (rpc.Lost? && !rpc.applied) || inp.runId in old(runs) then old(runs)
                      else old(runs)[inp.runId := Started(inp, memo)]
      ensures reply == if rpc.Lost? then RpcError(rpc.unavailable)
                       else if inp.runId in old(runs) then AlreadyStarted else Accepted
    {
      var unused := inp.runId !in runs;
      if unused && (rpc.Answered? || rpc.applied) {
        runs := runs[inp.runId := Started(inp, memo)];
      }
      if rpc.Lost? { return RpcError(rpc.unavailable); }
      return if unused then Accepted else AlreadyStarted;
    }

    /** The memo of a run, if it can be described. */
    method DescribeMemo(id: string, readable: bool) returns (memo: Option<string>)
      ensures memo == if readable && id in runs then Some(runs[id].memo) else None
    {
      memo := if readable && id in runs then Some(runs[id].memo) else None;
    }
  }

  class Api {
    const env: Environment
    const temporal: TemporalServer

    constructor (env: Environment, temporal: TemporalServer)
      ensures this.env == env && this.temporal == temporal
    {
      this.env, this.temporal := env, temporal;
    }

    method CreateRun(req: RunRequest, rpc: Rpc, memoReadable: bool) returns (reply: Reply)
      modifies temporal
      ensures var call := CallFor(env, Submitted(req, rpc, memoReadable));
              reply == ReplyTo(old(temporal.runs), call) && temporal.runs == Next(old(temporal.runs), call)
    {
      if |Utf8.Encode(req.task)| > env.maxTaskBytes { return TaskTooLarge; }
      var wid := WorkflowId(env, req);
      var limits := env.ceilings;
      if req.params.sandboxTimeoutS.Some? {
        limits := limits.(wallClockS := Min(req.params.sandboxTimeoutS.value, env.ceilings.wallClockS));
      }
      var runInput := RunInput(wid, req.tenantId, req.task, limits, env.sandboxRuntime);
      var started := temporal.StartWorkflow(runInput, TaskDigest(env, req), rpc);
      match started {
        case RpcError(unavailable) => return if unavailable then UpstreamUnavailable else Unexpected;
        case AlreadyStarted => reply := HandleAlreadyStarted(req, wid, memoReadable);
        case Accepted => return Created(wid, req.tenantId);
      }
    }

    /** Idempotent replay, or a conflict on a reused key. */
    method HandleAlreadyStarted(req: RunRequest, wid: string, memoReadable: bool) returns (reply: Reply)
      requires wid in temporal.runs
      ensures reply == if memoReadable && temporal.runs[wid].memo != TaskDigest(env, req) then IdempotencyConflict
                       else Replayed(wid, req.tenantId)
    {
      var expected := TaskDigest(env, req);
      var stored := temporal.DescribeMemo(wid, memoReadable);
      if stored.Some? && stored.value != expected { return IdempotencyConflict; }
      return Replayed(wid, req.tenantId);
    }
  }

  // ---- any sequence of calls ------------------------------------------------------------------------

  /** The runs held after the first n calls. */
  function RunsAfter(calls: seq<Call>, n: nat): map<string, Started>
    requires n <= |calls|
  {
    if n == 0 then map[] else Next(RunsAfter(calls, n - 1), calls[n - 1])
  }

  /** The reply to the k-th call. */
  function ReplyAt(calls: seq<Call>, k: nat): Reply
    requires k < |calls|
  {
    ReplyTo(RunsAfter(calls, k), calls[k])
  }

  /** Call k is the one that started id. */
  predicate Starts(calls: seq<Call>, k: nat, id: string)
    requires k < |calls|
  {
    id !in RunsAfter(calls, k) && id in RunsAfter(calls, k + 1)
  }

  /** What has been started stays as it was started. */
  lemma {:induction false} RunsPersist(calls: seq<Call>, m: nat, n: nat, id: string)
    requires m <= n <= |calls| && id in RunsAfter(calls, m)
    ensures id in RunsAfter(calls, n) && RunsAfter(calls, n)[id] == RunsAfter(calls, m)[id]
    decreases n
  {
    if m < n {
      RunsPersist(calls, m, n - 1, id);
    }
  }

  /** Each workflow id starts at most once. */
  lemma StartsOnce(calls: seq<Call>, j: nat, k: nat, id: string)
    requires j < |calls| && k < |calls| && Starts(calls, j, id) && Starts(calls, k, id)
    ensures j == k
  {
    if j < k {
      RunsPersist(calls, j + 1, k, id);
    } else if k < j {
      RunsPersist(calls, k + 1, j, id);
    }
  }

  /** Every run the server holds was started, with its own input, by one of the calls. */
  lemma {:induction false} StartedBySomeone(calls: seq<Call>, n: nat, id: string) returns (k: nat)
    requires n <= |calls| && id in RunsAfter(calls, n)
    ensures k < n && Starts(calls, k, id) && calls[k].inp.runId == id
    ensures RunsAfter(calls, n)[id] == Started(calls[k].inp, calls[k].digest)
  {
    if id in RunsAfter(calls, n - 1) {
      k := StartedBySomeone(calls, n - 1, id);
    } else {
      k := n - 1;
    }
  }

  /** Once started, an id is answered with the run of the call that started it, or as a conflict. */
  lemma ReplayOrConflict(calls: seq<Call>, k: nat, i: nat)
    requires k < i < |calls| && Starts(calls, k, calls[i].inp.runId)
    requires !calls[i].oversized && calls[i].rpc.Answered?
    ensures ReplyAt(calls, i) ==
        if calls[i].memoReadable && calls[k].digest != calls[i].digest then IdempotencyConflict
        else Replayed(calls[i].inp.runId, calls[i].inp.tenantId)
  {
    var id := calls[i].inp.runId;
    RunsPersist(calls, k + 1, i, id);
    var k' := StartedBySomeone(calls, i, id);
    StartsOnce(calls, k, k', id);
  }

  /** A success names a run, and the call that started it had the same digest if that was compared. */
  lemma SuccessNamesRun(calls: seq<Call>, i: nat) returns (k: nat)
    requires i < |calls| && (ReplyAt(calls, i).Created? || ReplyAt(calls, i).Replayed?)
    ensures k <= i && Starts(calls, k, ReplyAt(calls, i).runId)
    ensures RunsAfter(calls, i + 1)[ReplyAt(calls, i).runId].inp == calls[k].inp
    ensures ReplyAt(calls, i).Created? <==> k == i
    ensures calls[k].inp.runId == calls[i].inp.runId
    ensures ReplyAt(calls, i).Created? || calls[i].memoReadable ==> calls[k].digest == calls[i].digest
  {
    var id := calls[i].inp.runId;
    k := StartedBySomeone(calls, i + 1, id);
    if k < i {
      RunsPersist(calls, k + 1, i, id);
    }
  }

  // ---- any sequence of submissions ------------------------------------------------------------------

  predicate SamePayload(a: RunRequest, b: RunRequest) {
    a.task == b.task && a.params == b.params
  }

  predicate MadeBy(env: Environment, sub: Submitted, call: Call) {
    Valid(sub.req) && call == CallFor(env, sub)
  }

  /** The calls of valid submissions. */
  predicate Made(env: Environment, subs: seq<Submitted>, calls: seq<Call>) {
    |calls| == |subs| && forall i :: 0 <= i < |subs| ==> MadeBy(env, subs[i], calls[i])
  }

  predicate Separated(env: Environment, a: RunRequest, b: RunRequest) {
    TaskDigest(env, a) == TaskDigest(env, b) ==> PayloadBytes(a) == PayloadBytes(b)
  }

  /** The full digest tells the submitted payloads apart; nothing is asked of truncated ones or of keys. */
  predicate DigestSeparates(env: Environment, subs: seq<Submitted>) {
    forall i, j :: 0 <= i < |subs| && 0 <= j < |subs| ==> Separated(env, subs[i].req, subs[j].req)
  }

  /** Calls with one id are of one tenant, and their digests agree exactly when their payloads do. */
  lemma {:induction false} CallsCompare(env: Environment, subs: seq<Submitted>, calls: seq<Call>, i: nat, k: nat)
    requires Made(env, subs, calls) && DigestSeparates(env, subs) && i < |subs| && k < |subs|
    ensures calls[i].inp.runId == calls[k].inp.runId ==> subs[i].req.tenantId == subs[k].req.tenantId
    ensures calls[i].digest == calls[k].digest <==> SamePayload(subs[i].req, subs[k].req)
    ensures calls[i].memoReadable == subs[i].memoReadable
  {
    assert MadeBy(env, subs[i], calls[i]) && MadeBy(env, subs[k], calls[k]);
    assert Separated(env, subs[i].req, subs[k].req);
    if calls[i].inp.runId == calls[k].inp.runId {
      TenantsAreSeparate(env, subs[i].req, subs[k].req);
    }
    if calls[i].digest == calls[k].digest {
      PayloadDetermines(subs[i].req, subs[k].req);
    }
  }

  /**
   * The run has the request's tenant and task, the configured runtime, and the ceilings with the
   * wall clock it asked for, if lower.
   */
  predicate Honours(env: Environment, req: RunRequest, inp: RunInput) {
    && inp.sandboxRuntime == env.sandboxRuntime && inp.tenantId == req.tenantId && inp.task == req.task
    && inp.limits.(wallClockS := env.ceilings.wallClockS) == env.ceilings
    && inp.limits.wallClockS <= env.ceilings.wallClockS
    && (match req.params.sandboxTimeoutS
        case None => inp.limits.wallClockS == env.ceilings.wallClockS
        case Some(t) => inp.limits.wallClockS <= t && inp.limits.wallClockS in {t, env.ceilings.wallClockS})
  }

  lemma InputHonours(env: Environment, req: RunRequest)
    ensures Honours(env, req, InputFor(env, req))
  {
  }

  /**
   * What a success means.  A 201 names a run this submission started.  A 200 names a run that an
   * earlier submission of the same tenant started; if the memo was read, that one had the same
   * task and parameters too, so the run is the one this submission asks for.
   */
  lemma {:induction false} SuccessNamesOwnRun(env: Environment, subs: seq<Submitted>, calls: seq<Call>, i: nat) returns (k: nat)
    requires Made(env, subs, calls) && DigestSeparates(env, subs) && i < |subs|
    requires ReplyAt(calls, i).Created? || ReplyAt(calls, i).Replayed?
    ensures k <= i && Starts(calls, k, ReplyAt(calls, i).runId)
    ensures RunsAfter(calls, i + 1)[ReplyAt(calls, i).runId].inp == calls[k].inp
    ensures calls[k].inp.runId == ReplyAt(calls, i).runId && Honours(env, subs[k].req, calls[k].inp)
    ensures |Utf8.Encode(subs[k].req.task)| <= env.maxTaskBytes
    ensures ReplyAt(calls, i).Created? <==> k == i
    ensures subs[k].req.tenantId == subs[i].req.tenantId
    ensures ReplyAt(calls, i).Created? || subs[i].memoReadable ==>
        && SamePayload(subs[k].req, subs[i].req)
        && Honours(env, subs[i].req, RunsAfter(calls, i + 1)[ReplyAt(calls, i).runId].inp)
  {
    k := SuccessNamesRun(calls, i);
    CallsCompare(env, subs, calls, k, i);
    InputHonours(env, subs[k].req);
  }

  /**
   * A conflict is reported exactly when it is one: the id was started before by a submission
   * with another task or other parameters, and the memo was read.
   */
  lemma {:induction false} ConflictMeansDifferent(env: Environment, subs: seq<Submitted>, calls: seq<Call>, i: nat, k: nat)
    requires Made(env, subs, calls) && DigestSeparates(env, subs) && k < i < |subs|
    requires Starts(calls, k, calls[i].inp.runId)
    requires !calls[i].oversized && calls[i].rpc.Answered?
    ensures ReplyAt(calls, i) == IdempotencyConflict
        <==> subs[i].memoReadable && !SamePayload(subs[k].req, subs[i].req)
  {
    ReplayOrConflict(calls, k, i);
    CallsCompare(env, subs, calls, k, i);
  }

  /** Sending the same request again never starts a second run: it is answered with the first one. */
  lemma {:induction false} ResubmissionReplays(env: Environment, subs: seq<Submitted>, calls: seq<Call>, i: nat, j: nat)
    requires Made(env, subs, calls) && i < j < |subs| && subs[i].req == subs[j].req
    requires Starts(calls, i, calls[i].inp.runId) && calls[j].rpc.Answered? && !calls[j].oversized
    ensures ReplyAt(calls, j) == Replayed(calls[i].inp.runId, subs[i].req.tenantId)
    ensures RunsAfter(calls, j + 1) == RunsAfter(calls, j)
  {
    assert calls[j].inp == calls[i].inp && calls[j].digest == calls[i].digest;
    ReplayOrConflict(calls, i, j);
  }

  /**
   * Reading the memo is needed: when it cannot be read, a reused key is answered 200 with the id
   * of a run of another task.
   */
  lemma {:induction false} UnreadMemoHidesConflict(env: Environment) returns (subs: seq<Submitted>, calls: seq<Call>)
    requires env.maxTaskBytes >= 1
    ensures Made(env, subs, calls) && |subs| == 2
    ensures ReplyAt(calls, 0).Created? && ReplyAt(calls, 1).Replayed?
    ensures RunsAfter(calls, 2)[ReplyAt(calls, 1).runId].inp.task != subs[1].req.task
  {
    var first := RunRequest("x", RunParams(None), "t", Some("key"));
    var second := first.(task := "y");
    OneByteTask("x");
    OneByteTask("y");
    subs := [Submitted(first, Answered, true), Submitted(second, Answered, false)];
    calls := [CallFor(env, subs[0]), CallFor(env, subs[1])];
    assert calls[0].inp.runId == calls[1].inp.runId == "t" + ":" + "key";
    assert RunsAfter(calls, 0) == map[];
    assert RunsAfter(calls, 1) == map[][calls[0].inp.runId := Started(calls[0].inp, calls[0].digest)];
  }

  lemma OneByteTask(s: string)
    requires |s| == 1 && s[0] as int < 0x80
    ensures |Utf8.Encode(s)| == 1
  {
    assert s[1..] == [];
  }
}
