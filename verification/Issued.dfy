// What the workflow sends to its activities, field by field, in every run.

module Issued {
  import opened Contracts
  import opened Workflow
  import opened Policies
  import opened Durable
  import opened Bounds

  /** The sandbox command carries the run's input and the generated code. */
  predicate CarriesInput(args: RunSandboxArgs, inp: RunInput, code: string) {
    && args.runId == inp.runId && args.tenantId == inp.tenantId && args.code == code
    && args.limits == inp.limits && args.runtime == inp.sandboxRuntime
  }

  predicate Planned(h: seq<Outcome>) {
    |h| > 0 && h[0].Done? && h[0].value.PlanValue?
  }

  predicate Coded(h: seq<Outcome>) {
    Planned(h) && |h| > 1 && h[1].Done? && h[1].value.CodeValue?
  }

  predicate Sandboxed(h: seq<Outcome>) {
    Coded(h) && |h| > 2 && h[2].Done? && h[2].value.SandboxValue?
  }

  /** The k-th command, given the outcomes recorded before it. */
  predicate CommandIs(inp: RunInput, h: seq<Outcome>, k: nat, cmd: Command) {
    match k
    case 0 => cmd.PlanCommand? && cmd.task == inp.task
    case 1 => Planned(h) && cmd.GenerateCommand? && cmd.plan == h[0].value.plan
    case 2 => Coded(h) && cmd.SandboxCommand? && CarriesInput(cmd.args, inp, h[1].value.code)
    case 3 =>
      && Sandboxed(h) && cmd.SummarizeCommand?
      && cmd.sargs.plan == h[0].value.plan && cmd.sargs.sandbox == h[2].value.sandbox
    case _ => false
  }

  lemma IssuedIs(inp: RunInput, h: seq<Outcome>, k: nat, cmd: Command)
    requires Issues(inp, h, k, cmd)
    ensures CommandIs(inp, h, k, cmd)
  {
    var p := h[..k];
    AtMostFour(inp, p);
    if k == 1 {
      AfterPlan(inp, p);
    } else if k == 2 {
      AfterCode(inp, p);
    } else if k == 3 {
      AfterSandbox(inp, p);
    }
  }

  /**
   * In every run the recorded commands are at most four: plan with the run's task, generate_code with
   * the recorded plan, run_sandbox with the run's id, tenant, limits and runtime and the recorded
   * code, and summarize with the recorded plan and sandbox result.
   */
  lemma RecordedCommands(c: Config, run: seq<Action>)
    requires IsRun(c, INIT, run)
    ensures var h, cs := Outcomes(Final(c, INIT, run).events), Commands(Final(c, INIT, run).events);
            |cs| <= 4 && forall k :: 0 <= k < |cs| ==> CommandIs(c.inp, h, k, cs[k])
  {
    var s := Final(c, INIT, run);
    var h, cs := Outcomes(s.events), Commands(s.events);
    InvInit(c);
    InvRun(c, INIT, run);
    forall k | 0 <= k < |cs| ensures CommandIs(c.inp, h, k, cs[k]) {
      IssuedIs(c.inp, h, k, cs[k]);
    }
    assert |cs| > 4 ==> CommandIs(c.inp, h, 4, cs[4]);
  }
}
