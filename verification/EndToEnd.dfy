// From a submission's success to the executions of the run it names.

module EndToEnd {
  import opened Contracts
  import opened Basics
  import opened Workflow
  import opened Policies
  import opened Durable
  import opened Bounds
  import opened Verdict
  import opened Codegen
  import opened PythonLiteral
  import opened JsonString
  import opened SandboxActivity
  import Admission
  import FailClosed
  import Issued
  import Submission
  import Utf8

  /** Submission i succeeded, and inp is the input of the run its reply names. */
  predicate Succeeded(
    env: Submission.Environment, subs: seq<Submission.Submitted>, calls: seq<Submission.Call>, i: nat, inp: RunInput)
  {
    && Submission.Made(env, subs, calls) && Submission.DigestSeparates(env, subs) && i < |subs|
    && var reply := Submission.ReplyAt(calls, i);
       && (reply.Created? || reply.Replayed?)
       && reply.runId in Submission.RunsAfter(calls, i + 1)
       && inp == Submission.RunsAfter(calls, i + 1)[reply.runId].inp
  }

  /** The reply is known to be about the submission's own payload. */
  predicate OwnPayload(subs: seq<Submission.Submitted>, calls: seq<Submission.Call>, i: nat)
    requires i < |subs| == |calls|
  {
    Submission.ReplyAt(calls, i).Created? || subs[i].memoReadable
  }

  /** Attempt j of the run was an execution of the sandbox activity. */
  ghost predicate SandboxExecution(c: Config, run: seq<Action>, xs: seq<Execution>, j: nat) {
    && IsRun(c, INIT, run) && Admission.Executed(Final(c, INIT, run), xs)
    && j < |xs| && Final(c, INIT, run).log[j].step == SANDBOX
  }

  /** The resources are those configured, but for a wall clock that may be lower. */
  predicate UnderCeilings(limits: ResourceLimits, ceilings: ResourceLimits) {
    && limits.cpus == ceilings.cpus && limits.memoryMb == ceilings.memoryMb && limits.pids == ceilings.pids
    && limits.outputMaxBytes == ceilings.outputMaxBytes && limits.tmpfsMb == ceilings.tmpfsMb
    && limits.nofile == ceilings.nofile && limits.wallClockS <= ceilings.wallClockS
  }

  /** What every execution of a run is given: the input of the run. */
  lemma ExecutionCarriesInput(c: Config, run: seq<Action>, xs: seq<Execution>, j: nat)
    requires SandboxExecution(c, run, xs, j)
    ensures Issued.CarriesInput(xs[j].args, c.inp, xs[j].args.code)
  {
    Issued.RecordedCommands(c, run);
    var s := Final(c, INIT, run);
    assert Admission.ExecutedAs(s, s.log[j], xs[j]);
    assert Issued.CommandIs(c.inp, Outcomes(s.events), SANDBOX, Commands(s.events)[SANDBOX]);
  }

  /**
   * Whichever success names a run, every execution of its code is for that run and the submission's
   * tenant, in the configured runtime and under the configured ceilings; and if the reply is about
   * the submission's own payload, with the wall clock the submission asked for, or the ceiling's if that is lower.
   */
  lemma SuccessIsConfined(
    env: Submission.Environment, subs: seq<Submission.Submitted>, calls: seq<Submission.Call>, i: nat,
    c: Config, run: seq<Action>, xs: seq<Execution>, j: nat)
    requires Succeeded(env, subs, calls, i, c.inp) && SandboxExecution(c, run, xs, j)
    ensures var args, req := xs[j].args, subs[i].req;
            && args.runId == Submission.ReplyAt(calls, i).runId && args.tenantId == req.tenantId
            && args.runtime == env.sandboxRuntime && UnderCeilings(args.limits, env.ceilings)
            && (OwnPayload(subs, calls, i) ==>
                  args.limits.wallClockS ==
                    if req.params.sandboxTimeoutS.Some? then Min(req.params.sandboxTimeoutS.value, env.ceilings.wallClockS)
                    else env.ceilings.wallClockS)
  {
    ExecutionCarriesInput(c, run, xs, j);
    var k := Submission.SuccessNamesOwnRun(env, subs, calls, i);
  }

  /** A task within the byte limit is all a started run can have. */
  lemma SuccessWithinLimit(
    env: Submission.Environment, subs: seq<Submission.Submitted>, calls: seq<Submission.Call>, i: nat, inp: RunInput)
    requires Succeeded(env, subs, calls, i, inp)
    ensures |Utf8.Encode(inp.task)| <= env.maxTaskBytes
    ensures OwnPayload(subs, calls, i) ==> inp.task == subs[i].req.task
  {
    var k := Submission.SuccessNamesOwnRun(env, subs, calls, i);
  }

  /**
   * So no execution of a run that a success names is ever refused for its size, if the code ceiling
   * leaves room for six characters for each byte of the task limit.
   */
  lemma SuccessNeverTooLarge(
    env: Submission.Environment, subs: seq<Submission.Submitted>, calls: seq<Submission.Call>, i: nat,
    c: Config, run: seq<Action>, low: string, xs: seq<Execution>, j: nat)
    requires Succeeded(env, subs, calls, i, c.inp) && SandboxExecution(c, run, xs, j)
    requires Admission.AgentsRan(c.inp, low, Outcomes(Final(c, INIT, run).events))
    requires 6 * env.maxTaskBytes + LONGEST_FIXED <= xs[j].w.maxCodeBytes
    ensures |xs[j].args.code| <= xs[j].w.maxCodeBytes
    ensures Final(c, INIT, run).log[j].exit != Some(Errored(ApplicationFailure("PayloadTooLarge", true)))
  {
    SuccessWithinLimit(env, subs, calls, i, c.inp);
    Admission.AcceptedNeverTooLarge(c, run, low, xs, j, env.maxTaskBytes);
    Admission.ExecutedCode(c, run, low, xs, j);
    AcceptedTaskFits(low, c.inp.task, env.maxTaskBytes, xs[j].w.maxCodeBytes);
  }

  /** Nothing a success names runs outside the configured runtime, nor in gVisor without its confirmation. */
  lemma SuccessLaunchesConfirmed(
    env: Submission.Environment, subs: seq<Submission.Submitted>, calls: seq<Submission.Call>, i: nat,
    c: Config, run: seq<Action>, xs: seq<Execution>, j: nat)
    requires Succeeded(env, subs, calls, i, c.inp) && SandboxExecution(c, run, xs, j)
    requires env.sandboxRuntime == "runsc" && Launched(xs[j].args, xs[j].w)
    ensures xs[j].args.runtime == "runsc" && xs[j].w.preflight.PreflightPasses?
  {
    SuccessIsConfined(env, subs, calls, i, c, run, xs, j);
    FailClosed.LaunchedIff(xs[j].args, xs[j].w);
    assert "runsc" != "runc";
  }

  /**
   * The code of every execution is decided by the run's task: if that mentions no directive, Python
   * reads the TASK of the code as the task's UTF-16 code units and the rest is the fixed template;
   * otherwise it is the program of the first directive mentioned.
   */
  lemma ExecutedProgram(c: Config, run: seq<Action>, low: string, xs: seq<Execution>, j: nat)
    requires SandboxExecution(c, run, xs, j)
    requires Admission.AgentsRan(c.inp, low, Outcomes(Final(c, INIT, run).events))
    ensures var code := xs[j].args.code;
            if MentionsNone(low) then HEAD <= code && ReadLiteral(code[|HEAD|..]) == Read(Utf16(c.inp.task), TAIL)
            else exists k, d :: FirstMentioned(low, k, d) && d in FIXED_LENGTH && |code| == FIXED_LENGTH[d]
  {
    Admission.ExecutedCode(c, run, low, xs, j);
    ProgramIs(low, c.inp.task);
    TaskLiteralReadsBack(c.inp.task);
  }
}
