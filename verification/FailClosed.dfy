// What stands between untrusted code and its launch, stated on the attempt's arguments and
// surroundings alone, and what a refusal means for the rest of the run.

module FailClosed {
  import opened Contracts
  import opened Workflow
  import opened Policies
  import opened Durable
  import opened Bounds
  import opened Responses
  import opened Supervisor
  import opened SandboxActivity
  import opened Verdict
  import opened Admission
  import Answers

  // ---- one attempt -----------------------------------------------------------------------------------

  /** The code fits, and the runtime needs no confirmation or has it. */
  predicate MayLaunch(args: RunSandboxArgs, w: Surroundings) {
    && |args.code| <= w.maxCodeBytes
    && (args.runtime == "runc" || (args.runtime == "runsc" && w.preflight.PreflightPasses?))
  }

  /** The runtime is one the activity knows and cannot confirm. */
  predicate Refused(args: RunSandboxArgs, w: Surroundings) {
    && |args.code| <= w.maxCodeBytes
    && ((args.runtime == "runsc" && w.preflight.PreflightFails?) || args.runtime == "firecracker")
  }

  /** Code is launched exactly when it fits, its runtime may be used, and the launch itself succeeds. */
  lemma LaunchedIff(args: RunSandboxArgs, w: Surroundings)
    ensures Launched(args, w) <==> MayLaunch(args, w) && w.script.launch.Launches?
  {
  }

  predicate RaisesAtOnce(args: RunSandboxArgs, w: Surroundings, errorType: string, nonRetryable: bool, took: int) {
    && ActivityExit(args, w) == Errored(ApplicationFailure(errorType, nonRetryable))
    && AllKills(args, w) == [] && !LeavesContainer(args, w) && AttemptMs(args, w) == took
  }

  /**
   * An attempt that may not launch raises at once, kills nothing, leaves nothing and takes no more
   * than its preflight: a refused runtime and oversized code are not to be retried, a runtime nobody
   * knows is a policy violation too, and a preflight that could not be made raises what docker did.
   */
  lemma NothingUnconfirmedRuns(args: RunSandboxArgs, w: Surroundings)
    ensures Refused(args, w) ==>
        RaisesAtOnce(args, w, "SandboxPolicyViolation", true, if args.runtime == "runsc" then w.preflight.took else 0)
    ensures |args.code| > w.maxCodeBytes ==> RaisesAtOnce(args, w, "PayloadTooLarge", true, 0)
    ensures |args.code| <= w.maxCodeBytes && args.runtime !in {"runc", "runsc", "firecracker"} ==>
        RaisesAtOnce(args, w, "SandboxPolicyViolation", false, 0)
    ensures |args.code| <= w.maxCodeBytes && args.runtime == "runsc" && w.preflight.PreflightRaises? ==>
        RaisesAtOnce(args, w, w.preflight.errorType, false, w.preflight.took)
    ensures !MayLaunch(args, w) ==> !Launched(args, w) && !LeavesContainer(args, w) && !ActivityExit(args, w).Succeeded?
  {
  }

  // ---- any run ---------------------------------------------------------------------------------------

  /** The attempt cannot launch, and another one of the same run could not either. */
  predicate Barred(args: RunSandboxArgs, w: Surroundings) {
    |args.code| > w.maxCodeBytes || Refused(args, w) || args.runtime !in {"runc", "runsc", "firecracker"}
  }

  /** Attempt i of a run was an execution of the sandbox activity, and reported. */
  ghost predicate Attempted(s: State, xs: seq<Execution>, i: nat) {
    && Executed(s, xs) && i < |xs| && s.log[i].step == SANDBOX
    && s.log[i].exit.Some? && Reported(s.log[i].exit.value)
  }

  /** A policy violation, or code that is too large. */
  predicate IsBar(f: Failure) {
    f.ApplicationFailure? && (f.errorType == "SandboxPolicyViolation" || f.errorType == "PayloadTooLarge")
  }

  lemma BarredRaises(args: RunSandboxArgs, w: Surroundings)
    requires Barred(args, w)
    ensures ActivityExit(args, w).Errored? && IsBar(ActivityExit(args, w).failure)
  {
    NothingUnconfirmedRuns(args, w);
  }

  lemma BarIsNotRetried(c: Config, a: Attempt)
    requires a.step == SANDBOX && a.exit.Some? && a.exit.value.Errored? && IsBar(a.exit.value.failure)
    ensures !WasRetried(c, a)
  {
  }

  /** Failing the sandbox step is the end of a run: nothing follows, and no summary is ever made. */
  lemma BarIsLast(c: Config, run: seq<Action>, xs: seq<Execution>, i: nat)
    requires IsRun(c, INIT, run) && Attempted(Final(c, INIT, run), xs, i) && Barred(xs[i].args, xs[i].w)
    ensures var s := Final(c, INIT, run);
            var h := Outcomes(s.events);
            i == |s.log| - 1 && |h| == 3 && h[2].Failed? && IsBar(h[2].failure)
            && s.log[i].exit == Some(Errored(h[2].failure))
  {
    var s := Final(c, INIT, run);
    assert ExecutedAs(s, s.log[i], xs[i]);
    BarredRaises(xs[i].args, xs[i].w);
    BarIsNotRetried(c, s.log[i]);
    UnretriedFailureIsLast(c, run, i);
  }

  /**
   * When an attempt that reported was barred, no attempt of any activity follows it in the run, and
   * the run is never answered COMPLETED: once its workflow has ended the answer is FAILED.
   */
  lemma BarredNeverCompletes(c: Config, run: seq<Action>, xs: seq<Execution>, i: nat, t: State, cause: Option<string>)
    requires IsRun(c, INIT, run) && Attempted(Final(c, INIT, run), xs, i) && Barred(xs[i].args, xs[i].w)
    requires IsClosed(Final(c, INIT, run)) || Queryable(c, t)
    ensures i == |Final(c, INIT, run).log| - 1
    ensures var s := Final(c, INIT, run);
            var r := ResolveStatus(c, s, t, cause);
            && (r.status == FAILED || r.status == TIMED_OUT || r.status == RUNNING)
            && r.result == None
            && (r.status == TIMED_OUT <==> Answers.TimedOut(s))
            && (r.status == RUNNING <==> !IsClosed(s))
  {
    var s := Final(c, INIT, run);
    BarIsLast(c, run, xs, i);
    if IsClosed(s) {
      Answers.StatusIff(c, run, t, cause);
      Answers.AnswerIs(c, run, t, cause);
      Answers.EndingsAreAll(c, run);
    }
  }

  /** A run answered COMPLETED had an attempt that was free to launch, and whose process exited with 0. */
  lemma CompletedWasConfirmed(c: Config, run: seq<Action>, xs: seq<Execution>, t: State, cause: Option<string>) returns (i: nat)
    requires IsRun(c, INIT, run) && Executed(Final(c, INIT, run), xs)
    requires IsClosed(Final(c, INIT, run)) || Queryable(c, t)
    requires ResolveStatus(c, Final(c, INIT, run), t, cause).status == COMPLETED
    ensures SandboxReturned(Final(c, INIT, run), i) && i < |xs|
    ensures MayLaunch(xs[i].args, xs[i].w) && xs[i].Ending() == Exited(0)
  {
    var s := Final(c, INIT, run);
    ExecutedRan(s, xs);
    CompletedIff(c, run, xs, t, cause);
    i :| ExitedWithZero(s, xs, i);
    assert ProducedBy(s.log[i], xs[i]);
    EndingDecides(xs[i]);
    LaunchedIff(xs[i].args, xs[i].w);
  }
}
