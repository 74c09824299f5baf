// The values shared by the API, the workflow, the activities and the sandbox.

module Contracts {
  import Decimal

  datatype Option<+T> = None | Some(value: T)

  datatype ResourceLimits = ResourceLimits(
    cpus: real, memoryMb: int, pids: int, wallClockS: int, outputMaxBytes: int, tmpfsMb: int, nofile: int)

  datatype RunInput = RunInput(
    runId: string, tenantId: string, task: string, limits: ResourceLimits, sandboxRuntime: string)

  datatype Plan = Plan(task: string, directive: string, steps: seq<string>)

  datatype RunSandboxArgs = RunSandboxArgs(
    runId: string, tenantId: string, code: string, limits: ResourceLimits, runtime: string)

  datatype SandboxResult = SandboxResult(
    runtime: string, exitCode: int, stdoutTail: string, stderrTail: string, wallMs: int,
    oomKilled: bool, wallClockExceeded: bool, imageDigest: Option<string>, truncated: bool)
  {
    predicate Ok() {
      exitCode == 0 && !oomKilled && !wallClockExceeded
    }

    function FailureReason(): Option<string> {
      if Ok() then None
      else if wallClockExceeded then Some("wall_clock_exceeded")
      else if oomKilled then Some("oom_killed")
      else Some("nonzero_exit:" + Decimal.Str(exitCode))
    }
  }

  datatype SummarizeArgs = SummarizeArgs(plan: Plan, sandbox: SandboxResult)

  /** The value of a StepStatus object at one moment. */
  datatype StepView = StepView(name: string, state: string, detail: Option<string>)

  datatype RunStatus = RunStatus(runId: string, stage: string, steps: seq<StepView>)

  datatype RunResult = RunResult(
    runId: string, status: string, summary: Option<string>, code: Option<string>,
    sandbox: Option<SandboxResult>, failureReason: Option<string>)

  function CompletedResult(runId: string, summary: string, code: string, sandbox: SandboxResult): RunResult {
    RunResult(runId, "completed", Some(summary), Some(code), Some(sandbox), None)
  }

  function FailedResult(runId: string, reason: string, sandbox: SandboxResult, code: string): RunResult {
    RunResult(runId, "failed", None, Some(code), Some(sandbox), Some(reason))
  }

  /**
   * A failure reason names exactly one cause, the deadline before the memory kill before the
   * exit code; two results that failed with the same reason failed for the same cause, and for
   * a nonzero exit with the same code.
   */
  lemma ReasonNamesOneCause(r: SandboxResult, s: SandboxResult)
    requires !r.Ok() && !s.Ok()
    ensures r.FailureReason().Some?
    ensures r.FailureReason() == s.FailureReason() <==>
            && r.wallClockExceeded == s.wallClockExceeded
            && (!r.wallClockExceeded ==> r.oomKilled == s.oomKilled)
            && (!r.wallClockExceeded && !r.oomKilled ==> r.exitCode == s.exitCode)
  {
    var p := "nonzero_exit:";
    var a, b := p + Decimal.Str(r.exitCode), p + Decimal.Str(s.exitCode);
    assert a[0] == 'n' && b[0] == 'n';
    assert "wall_clock_exceeded"[0] == 'w' && "oom_killed"[0] == 'o';
    if a == b {
      assert a[|p|..] == Decimal.Str(r.exitCode) && b[|p|..] == Decimal.Str(s.exitCode);
      Decimal.StrInjective(r.exitCode, s.exitCode);
    }
  }
}
