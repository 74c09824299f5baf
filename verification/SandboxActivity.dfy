// The run_sandbox activity: the size guard, the choice of runner, the fail-closed preflight, the
// supervised execution, teardown on cancellation, and the translation of what went wrong into
// failures Temporal retries or does not.

module SandboxActivity {
  import opened Basics
  import opened Contracts
  import opened Workflow
  import opened Durable
  import opened Policies
  import Utf8
  import opened CappedReader
  import opened Supervisor

  datatype Preflight =
    | PreflightPasses(took: nat)
    | PreflightFails(took: nat)
    | PreflightRaises(took: nat, errorType: string)
    | PreflightCancelled(took: nat)

  /** What the chosen runner's preflight does; runc needs none, firecracker always refuses. */
  function PreflightOf(runtime: string, p: Preflight): Preflight {
    if runtime == "runc" then PreflightPasses(0)
    else if runtime == "firecracker" then PreflightFails(0)
    else p
  }

  predicate KnownRuntime(runtime: string) {
    runtime == "runsc" || runtime == "runc" || runtime == "firecracker"
  }

  const TOO_LARGE := ApplicationFailure("PayloadTooLarge", true)
  /** SandboxPolicyViolation raised bare by get_runner, and wrapped by the activity. */
  const BARE_VIOLATION := ApplicationFailure("SandboxPolicyViolation", false)
  const WRAPPED_VIOLATION := ApplicationFailure("SandboxPolicyViolation", true)
  const INFRA_FAILURE := ApplicationFailure("SandboxInfraError", false)

  /** Everything outside the activity's control. */
  datatype Surroundings = Surroundings(
    maxCodeBytes: int, digest: string, heartbeatMs: Interval, lower: string -> string,
    preflight: Preflight, script: Script, finalKill: Kill)

  function Translate(e: RunnerExit): AttemptExit {
    match e
    case Result(r) => Succeeded(SandboxValue(r))
    case PolicyViolation => Errored(WRAPPED_VIOLATION)
    case InfraError => Errored(INFRA_FAILURE)
    case CancelledError => Errored(CancelledFailure)
    case OtherError(t) => Errored(ApplicationFailure(t, false))
  }

  // ---- what an attempt does -----------------------------------------------------------------------

  /** The attempt gets as far as its preflight. */
  predicate Admitted(args: RunSandboxArgs, w: Surroundings) {
    |args.code| <= w.maxCodeBytes && KnownRuntime(args.runtime)
  }

  predicate Cleared(args: RunSandboxArgs, w: Surroundings) {
    Admitted(args, w) && PreflightOf(args.runtime, w.preflight).PreflightPasses?
  }

  predicate Launched(args: RunSandboxArgs, w: Surroundings) {
    Cleared(args, w) && w.script.launch.Launches?
  }

  /** How the watch of a launched attempt ends. */
  function EndingOf(args: RunSandboxArgs, w: Surroundings): Ending {
    WatchOf(w.heartbeatMs, args.limits, w.script).ending
  }

  /** What the preflight and the run raise or return, before the activity's own teardown. */
  function RunnerOutcome(args: RunSandboxArgs, w: Surroundings): RunnerExit {
    match PreflightOf(args.runtime, w.preflight)
    case PreflightFails(_) => PolicyViolation
    case PreflightRaises(_, t) => OtherError(t)
    case PreflightCancelled(_) => CancelledError
    case PreflightPasses(_) => RunExit(args.runtime, w.lower, w.heartbeatMs, args.limits, w.script)
  }

  /** The outcome of the attempt. */
  function ActivityExit(args: RunSandboxArgs, w: Surroundings): AttemptExit {
    if |args.code| > w.maxCodeBytes then Errored(TOO_LARGE)
    else if !KnownRuntime(args.runtime) then Errored(BARE_VIOLATION)
    else
      var exit := RunnerOutcome(args, w);
      Translate(if exit.CancelledError? && Raises(w.finalKill).Some? then Raises(w.finalKill).value else exit)
  }

  /** The kills made for the attempt, in order. */
  function AllKills(args: RunSandboxArgs, w: Surroundings): seq<Kill> {
    if !Admitted(args, w) then [] else
      (if Cleared(args, w) then KillsMade(w.heartbeatMs, args.limits, w.script) else [])
      + (if RunnerOutcome(args, w).CancelledError? then [w.finalKill] else [])
  }

  /** The attempt's container outlives it. */
  predicate LeavesContainer(args: RunSandboxArgs, w: Surroundings) {
    && Cleared(args, w) && Remains(w.heartbeatMs, args.limits, w.script)
    && !(RunnerOutcome(args, w).CancelledError? && Removes(w.finalKill))
  }

  /** How long the attempt takes. */
  function AttemptMs(args: RunSandboxArgs, w: Surroundings): int {
    if !Admitted(args, w) then 0 else
      PreflightOf(args.runtime, w.preflight).took
      + (if Cleared(args, w) then RunMs(w.heartbeatMs, args.limits, w.script) else 0)
      + (if RunnerOutcome(args, w).CancelledError? then w.finalKill.took else 0)
  }

  /**
   * One attempt of the activity: its outcome, its time and what it leaves in docker are those its
   * surroundings determine.
   */
  method RunSandbox(args: RunSandboxArgs, attempt: nat, docker: Docker, w: Surroundings)
    returns (x: AttemptExit, ms: int)
    requires Deliverable(w.script)
    requires ContainerName(w.digest, attempt) !in docker.containers
    modifies docker
    ensures x == ActivityExit(args, w) && ms == AttemptMs(args, w)
    ensures docker.containers ==
      if LeavesContainer(args, w) then old(docker.containers) + {ContainerName(w.digest, attempt)}
      else old(docker.containers)
  {
    if |args.code| > w.maxCodeBytes {
      return Errored(TOO_LARGE), 0;
    }
    if !KnownRuntime(args.runtime) {
      return Errored(BARE_VIOLATION), 0;
    }
    var name := ContainerName(w.digest, attempt);
    var runner := new GvisorRunner(args.runtime, docker, w.heartbeatMs, w.lower);
    var exit := CancelledError;
    var preflight := PreflightOf(args.runtime, w.preflight);
    match preflight {
      case PreflightFails(_) => exit := PolicyViolation;
      case PreflightRaises(_, errorType) => exit := OtherError(errorType);
      case PreflightCancelled(_) =>
      case PreflightPasses(_) => exit := runner.RunContainer(name, args.limits, w.script);
    }
    if exit.CancelledError? {
      var raised := runner.KillContainer(name, w.finalKill);
      if raised.Some? { exit := raised.value; }
    }
    x, ms := Translate(exit), preflight.took + runner.clock;
  }

  // ---- what is left in docker ---------------------------------------------------------------------

  /**
   * A container outlives its attempt exactly when it was launched, its process was not seen to
   * exit, and none of the kills made for it removed it.
   */
  lemma LeavesIff(args: RunSandboxArgs, w: Surroundings)
    ensures LeavesContainer(args, w) <==>
        Launched(args, w) && !EndingOf(args, w).Exited? && forall k :: k in AllKills(args, w) ==> !Removes(k)
  {
    RemainsIff(w.heartbeatMs, args.limits, w.script);
    var made, all := KillsMade(w.heartbeatMs, args.limits, w.script), AllKills(args, w);
    if Cleared(args, w) {
      assert all[..|made|] == made;
      assert forall k :: k in made ==> k in all;
      assert RunnerOutcome(args, w).CancelledError? ==> all[|made|] == w.finalKill;
      assert forall k :: k in all ==> k in made || (RunnerOutcome(args, w).CancelledError? && k == w.finalKill);
    }
  }

  /** So nothing is left behind if every kill made takes effect: one is always made, unless the process exited. */
  lemma EffectiveKillsSuffice(args: RunSandboxArgs, w: Surroundings)
    requires forall k :: k in AllKills(args, w) ==> Removes(k)
    ensures !LeavesContainer(args, w)
  {
    LeavesIff(args, w);
    if Launched(args, w) && !EndingOf(args, w).Exited? {
      var all := AllKills(args, w);
      assert all != [];
      assert all[0] in all;
    }
  }

  /**
   * A result can be returned while the container lives on: exactly when the deadline passed and
   * the kill failed or timed out without effect.
   */
  lemma ResultLeavesContainer(args: RunSandboxArgs, w: Surroundings)
    ensures ActivityExit(args, w).Succeeded? && LeavesContainer(args, w) <==>
        && Launched(args, w) && EndingOf(args, w).DeadlineHit?
        && w.script.deadlineKill.KillFails? && !w.script.deadlineKill.removed && !DrainsCancelled(w.script)
  {
  }

  // ---- where the time goes --------------------------------------------------------------------------

  function TotalTook(kills: seq<Kill>): nat {
    if kills == [] then 0 else kills[0].took + TotalTook(kills[1..])
  }

  lemma {:induction false} TotalAppend(a: seq<Kill>, k: Kill)
    ensures TotalTook(a + [k]) == TotalTook(a) + k.took
  {
    if a == [] {
      assert TotalTook([k][1..]) == 0;
    } else {
      assert (a + [k])[1..] == a[1..] + [k];
      TotalAppend(a[1..], k);
    }
  }

  /** The runner gets to collect the output: the process exited, or the kill at the deadline raised nothing. */
  predicate Collects(args: RunSandboxArgs, w: Surroundings) {
    Launched(args, w) && !EndingOf(args, w).Interrupted?
      && (EndingOf(args, w).DeadlineHit? ==> !w.script.deadlineKill.KillCancelled? && !w.script.deadlineKill.KillRaises?)
  }

  /** The drains awaited, one after the other. */
  function DrainsTook(s: Script): nat {
    if s.out.DrainCancelled? then s.out.took else s.out.took + s.err.took
  }

  lemma RunnerTime(h: Interval, limits: ResourceLimits, s: Script)
    requires s.launch.Launches?
    ensures var e := WatchOf(h, limits, s).ending;
            RunMs(h, limits, s) == s.digestTook + WatchOf(h, limits, s).took + TotalTook(KillsMade(h, limits, s))
              + (if e.Exited? || (e.DeadlineHit? && Raises(s.deadlineKill).None?) then DrainsTook(s) else 0)
  {
    WatchDeadline(h, limits, s);
    TotalAppend([], s.deadlineKill);
    TotalAppend([], s.cancelKill);
    TotalAppend([s.deadlineKill], s.cancelKill);
    assert [] + [s.deadlineKill] == [s.deadlineKill] && [] + [s.cancelKill] == [s.cancelKill];
  }

  /**
   * A launched attempt takes the time of its preflight and of inspecting the image, of its watch, of
   * every kill made for it, and of the drains if it gets to collect the output: nothing it awaits is
   * missed, and nothing runs beside something else.
   */
  lemma TimeAddsUp(args: RunSandboxArgs, w: Surroundings)
    requires Launched(args, w)
    ensures AttemptMs(args, w) ==
        (if args.runtime == "runsc" then w.preflight.took else 0) + w.script.digestTook
        + WatchOf(w.heartbeatMs, args.limits, w.script).took + TotalTook(AllKills(args, w))
        + (if Collects(args, w) then DrainsTook(w.script) else 0)
  {
    var made := KillsMade(w.heartbeatMs, args.limits, w.script);
    RunnerTime(w.heartbeatMs, args.limits, w.script);
    TotalAppend(made, w.finalKill);
    assert made + [] == made;
    assert "runsc" != "runc";
  }

  // ---- the result and the execution ---------------------------------------------------------------

  /** What a result says about the ending of its execution. */
  predicate Reports(r: SandboxResult, e: Ending) {
    match e
    case Exited(rc) => r.exitCode == rc && r.oomKilled == (rc == 137) && !r.wallClockExceeded
    case DeadlineHit => r.exitCode == 124 && !r.oomKilled && r.wallClockExceeded
    case Interrupted => false
  }

  /** A result is returned only by a launched execution, and reports how that ended. */
  lemma ResultReportsEnding(args: RunSandboxArgs, w: Surroundings)
    requires ActivityExit(args, w).Succeeded?
    ensures Launched(args, w) && ActivityExit(args, w).value.SandboxValue?
    ensures Reports(ActivityExit(args, w).value.sandbox, EndingOf(args, w))
  {
  }

  /** t is the last n bytes of s, or all of s if it has no more than that. */
  predicate IsTail(t: seq<Utf8.byte>, s: seq<Utf8.byte>, n: int) {
    |t| == Min(|s|, Max(n, 0)) && t == s[|s| - |t|..]
  }

  /** What a result tells of one stream: the text of its last bytes, if they were collected in time. */
  ghost predicate TellsOf(text: string, dr: Drain, cap: int) {
    if dr.DrainFinishes? then exists t :: IsTail(t, UntilEof(dr.chunks), cap) && text == Utf8.Decode(t)
    else text == ""
  }

  predicate Overflows(dr: Drain, cap: int) {
    dr.DrainFinishes? && |UntilEof(dr.chunks)| > cap
  }

  lemma DrainTells(dr: Drain, cap: int)
    ensures TellsOf(Utf8.Decode(DrainTail(dr, cap)), dr, cap) && (DrainFlag(dr, cap) <==> Overflows(dr, cap))
  {
    if dr.DrainFinishes? {
      assert IsTail(DrainTail(dr, cap), UntilEof(dr.chunks), cap);
    }
  }

  /** A result is the one its execution's ending and drains make. */
  lemma ResultIs(args: RunSandboxArgs, w: Surroundings)
    requires ActivityExit(args, w).Succeeded?
    ensures ActivityExit(args, w).value.SandboxValue? && !EndingOf(args, w).Interrupted?
    ensures var r := WatchOf(w.heartbeatMs, args.limits, w.script);
            ActivityExit(args, w).value.sandbox == ResultFor(args.runtime, w.script, args.limits.outputMaxBytes, r.ending,
                                                             if r.ending.DeadlineHit? then r.elapsed else r.took)
  {
  }

  /**
   * What else a result says: each tail is the text of the last bytes of its own stream, if that was
   * collected in time, and is empty otherwise; the flag is up exactly when one of the streams that
   * were collected exceeded the cap; the time is that of the watch's last deadline check, which is
   * not before the deadline, or the time at which the process was seen to exit.
   */
  lemma ResultSays(args: RunSandboxArgs, w: Surroundings)
    requires ActivityExit(args, w).Succeeded?
    ensures ActivityExit(args, w).value.SandboxValue?
    ensures var r, s, cap := ActivityExit(args, w).value.sandbox, w.script, args.limits.outputMaxBytes;
            var watch := WatchOf(w.heartbeatMs, args.limits, s);
            && r.runtime == args.runtime && r.imageDigest == s.imageDigest
            && TellsOf(r.stdoutTail, s.out, cap) && TellsOf(r.stderrTail, s.err, cap)
            && (r.truncated <==> Overflows(s.out, cap) || Overflows(s.err, cap))
            && (if r.wallClockExceeded then r.wallMs == watch.elapsed >= 1000 * args.limits.wallClockS
                else r.wallMs == watch.took && watch.elapsed < 1000 * args.limits.wallClockS)
  {
    var s, cap := w.script, args.limits.outputMaxBytes;
    ResultIs(args, w);
    DrainTells(s.out, cap);
    DrainTells(s.err, cap);
    WatchDeadline(w.heartbeatMs, args.limits, s);
  }

  /**
   * What becomes of a process that exited with its output collected: it is a result exactly when
   * the exit code is no launch code or the text on standard error has no launch signature, and
   * otherwise a policy violation or an infrastructure error, as the text names the runtime or not.
   */
  lemma ProcessExitIs(args: RunSandboxArgs, w: Surroundings, rc: int)
    requires Launched(args, w) && EndingOf(args, w) == Exited(rc) && !DrainsCancelled(w.script)
    ensures var x, text := ActivityExit(args, w), ErrorText(w.lower, args.limits, w.script);
            var names := Contains(text, "unknown runtime") || Contains(text, args.runtime);
            && (x.Succeeded? <==> rc !in LAUNCH_RCS || !Signed(text))
            && (x == Errored(WRAPPED_VIOLATION) <==> rc in LAUNCH_RCS && Signed(text) && names)
            && (x == Errored(INFRA_FAILURE) <==> rc in LAUNCH_RCS && Signed(text) && !names)
  {
    ClassifyIs(args.runtime, rc, ErrorText(w.lower, args.limits, w.script));
  }

  // ---- what Temporal makes of it ------------------------------------------------------------------

  /** An error type that the retry policy does not rule out. */
  predicate Transient(errorType: string) {
    errorType != "SandboxPolicyViolation" && errorType != "PayloadTooLarge"
  }

  /** The docker command that raised, if one did: the preflight, the launch, or the last kill. */
  function CommandError(args: RunSandboxArgs, w: Surroundings): Option<string> {
    var pre, kills := PreflightOf(args.runtime, w.preflight), AllKills(args, w);
    if Admitted(args, w) && pre.PreflightRaises? then Some(pre.errorType)
    else if Cleared(args, w) && w.script.launch.LaunchRaises? then Some(w.script.launch.errorType)
    else if kills != [] && kills[|kills| - 1].KillRaises? then Some(kills[|kills| - 1].errorType)
    else None
  }

  /** The process exited as a failed launch would, without naming the runtime. */
  predicate LooksLikeFailedLaunch(args: RunSandboxArgs, w: Surroundings) {
    && Launched(args, w) && EndingOf(args, w).Exited? && !DrainsCancelled(w.script)
    && Classify(args.runtime, EndingOf(args, w).rc, ErrorText(w.lower, args.limits, w.script)).LaunchFailed?
  }

  /**
   * Temporal retries an attempt that reported exactly when attempts remain and a docker command
   * raised, or the process exited like a failed launch.  A result, a policy violation, an
   * oversized payload and a cancellation are never retried.
   */
  lemma {:induction false} RetriedIff(c: Settings, args: RunSandboxArgs, w: Surroundings, n: nat)
    ensures var x := ActivityExit(args, w);
            x.Errored? && Retries(SandboxRetry(c), x.failure, n) <==>
              && (c.maxAttempts == 0 || n < c.maxAttempts)
              && (LooksLikeFailedLaunch(args, w)
                  || (CommandError(args, w).Some? && Transient(CommandError(args, w).value)))
  {
    if Cleared(args, w) {
      CancelledTearsDown(args.runtime, w.lower, w.heartbeatMs, args.limits, w.script);
      LastKill(args, w);
    }
  }

  /** The last kill of a cleared attempt. */
  lemma LastKill(args: RunSandboxArgs, w: Surroundings)
    requires Cleared(args, w)
    ensures var kills, s := AllKills(args, w), w.script;
            if RunnerOutcome(args, w).CancelledError? then kills != [] && kills[|kills| - 1] == w.finalKill
            else if s.launch.Launches? && TearsDown(w.heartbeatMs, args.limits, s) then
              kills != [] && kills[|kills| - 1] == s.cancelKill
            else if s.launch.Launches? && EndingOf(args, w).DeadlineHit? then kills == [s.deadlineKill]
            else kills == []
  {
  }
}
