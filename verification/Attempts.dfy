// Attempts of the sandbox activity against Temporal's timeouts and retries: when an attempt can
// still report, and the executions for which the retry policy does something other than intended.

module Attempts {
  import opened Basics
  import opened Contracts
  import opened Workflow
  import opened Durable
  import opened Policies
  import Utf8
  import opened CappedReader
  import opened Supervisor
  import opened SandboxActivity

  // ---- when a report counts -------------------------------------------------------------------------

  /** Milliseconds in whole seconds, rounded up. */
  function Seconds(ms: int): nat {
    if ms <= 0 then 0 else (ms + 999) / 1000
  }

  function Shifted(ts: seq<int>, start: int): (us: seq<int>)
    ensures |us| == |ts| && forall i :: 0 <= i < |ts| ==> us[i] == ts[i] + start
  {
    seq(|ts|, i requires 0 <= i < |ts| => ts[i] + start)
  }

  /** When the watch of an attempt begins, counted from the attempt's start. */
  function WatchStart(args: RunSandboxArgs, w: Surroundings): nat {
    PreflightOf(args.runtime, w.preflight).took + w.script.digestTook
  }

  function Heard(start: int, beats: seq<int>, end: int): seq<int> {
    [0] + Shifted(beats, start) + [end]
  }

  /** When Temporal hears from an attempt: at its start, its heartbeats and its report. */
  function HeardAt(args: RunSandboxArgs, w: Surroundings): seq<int> {
    var beats := if Launched(args, w) then WatchOf(w.heartbeatMs, args.limits, w.script).beats else [];
    Heard(WatchStart(args, w), beats, AttemptMs(args, w))
  }

  /** The longest stretch between successive times. */
  function LongestGap(ts: seq<int>): int {
    if |ts| < 2 then 0 else Max(ts[1] - ts[0], LongestGap(ts[1..]))
  }

  lemma {:induction false} LongestGapIff(ts: seq<int>, b: nat)
    ensures LongestGap(ts) <= b <==> forall i :: 0 <= i < |ts| - 1 ==> ts[i + 1] - ts[i] <= b
  {
    if |ts| >= 2 {
      LongestGapIff(ts[1..], b);
      assert forall i :: 0 <= i < |ts| - 2 ==> ts[1..][i + 1] - ts[1..][i] == ts[i + 2] - ts[i + 1];
      if forall i :: 0 <= i < |ts| - 2 ==> ts[1..][i + 1] - ts[1..][i] <= b {
        forall i | 1 <= i < |ts| - 1 ensures ts[i + 1] - ts[i] <= b {
          assert ts[i + 1] - ts[i] == ts[1..][i] - ts[1..][i - 1];
        }
      }
    }
  }

  /** The longest stretch in which an attempt is not heard from. */
  function Silence(args: RunSandboxArgs, w: Surroundings): int {
    LongestGap(HeardAt(args, w))
  }

  /** The attempt fits start-to-close, and its silences fit the heartbeat timeout. */
  predicate Counts(c: Settings, args: RunSandboxArgs, w: Surroundings) {
    AttemptMs(args, w) <= 1000 * c.sandboxStartToCloseS && Silence(args, w) <= 1000 * c.sandboxHeartbeatS
  }

  lemma SecondsIff(ms: int, s: nat)
    ensures Seconds(ms) <= s <==> ms <= 1000 * s
  {
  }

  lemma ReportLimits(c: Config, s: State, x: AttemptExit, ran: nat, silence: nat)
    requires Current(s) == SANDBOX && Reported(x) && s.activity.Executing?
    ensures Enabled(c, s, Finish(x, ran, silence)) <==>
        && Enabled(c, s, Finish(x, 0, 0))
        && ran <= c.settings.sandboxStartToCloseS && silence <= c.settings.sandboxHeartbeatS
  {
  }

  /** Temporal accepts the report of an attempt, if the run is otherwise ready for it, exactly when it counts. */
  lemma ReportsInTimeIff(c: Config, s: State, args: RunSandboxArgs, w: Surroundings)
    requires Current(s) == SANDBOX && s.activity.Executing?
    ensures Enabled(c, s, Finish(ActivityExit(args, w), Seconds(AttemptMs(args, w)), Seconds(Silence(args, w)))) <==>
        Enabled(c, s, Finish(ActivityExit(args, w), 0, 0)) && Counts(c.settings, args, w)
  {
    var x, ms, silence := ActivityExit(args, w), AttemptMs(args, w), Silence(args, w);
    NeverATimeout(args, w);
    ReportLimits(c, s, x, Seconds(ms), Seconds(silence));
    SecondsIff(ms, c.settings.sandboxStartToCloseS);
    SecondsIff(silence, c.settings.sandboxHeartbeatS);
  }

  lemma NeverATimeout(args: RunSandboxArgs, w: Surroundings)
    ensures Reported(ActivityExit(args, w))
  {
  }

  /** An attempt whose report does not count is timed out, and retried exactly while attempts remain. */
  lemma TimedOutIsRetried(c: Config, s: State, n: nat, kind: TimeoutKind, ran: nat, silence: nat)
    requires !IsClosed(s) && s.activity == Executing(n) && Current(s) == SANDBOX && Commands(s.events) != []
    requires !kind.ScheduleToStart? && ran <= c.settings.sandboxStartToCloseS
    ensures var a := Finish(Errored(TimeoutFailure(kind)), ran, silence);
            && Enabled(c, s, a)
            && (Apply(c, s, a).activity == Waiting(n + 1) <==> c.settings.maxAttempts == 0 || n < c.settings.maxAttempts)
  {
  }

  // ---- code that outlives its first interval ------------------------------------------------------

  lemma {:induction false} BeatsGrow(s: Script, w: int, h: nat, elapsed: int, k: nat, beats: seq<int>)
    requires h > 0
    ensures beats <= WatchFrom(s, w, h, elapsed, k, beats).beats
    decreases w - elapsed
  {
    if elapsed < w {
      WatchStep(s, w, h, elapsed, k, beats);
      if WaitAt(s, k).WakesUp? {
        SliceFacts(h, w - elapsed);
        var next := NextCheck(s, w, h, elapsed, k);
        BeatsGrow(s, w, h, next, k + 1, beats + [next]);
      }
    }
  }

  /** A launched process still running when the first whole heartbeat interval is over. */
  predicate OutlivesFirstInterval(args: RunSandboxArgs, w: Surroundings) {
    && Launched(args, w) && WaitAt(w.script, 0).WakesUp?
    && w.script.firstLate + w.heartbeatMs <= 1000 * args.limits.wallClockS
  }

  /**
   * The heartbeat interval and the heartbeat timeout are one setting.  The time to the first
   * heartbeat is within it exactly if nothing before that heartbeat took any time: no command of
   * docker, and no late wake-up.
   */
  lemma FirstHeartbeatIff(args: RunSandboxArgs, w: Surroundings)
    requires OutlivesFirstInterval(args, w)
    ensures var delay := WatchStart(args, w) + w.script.firstLate + WaitAt(w.script, 0).late;
            && |HeardAt(args, w)| > 2 && HeardAt(args, w)[1] - HeardAt(args, w)[0] == delay + w.heartbeatMs
            && (HeardAt(args, w)[1] - HeardAt(args, w)[0] <= w.heartbeatMs <==> delay == 0)
  {
    var s, h, wall := w.script, w.heartbeatMs, 1000 * args.limits.wallClockS;
    var next := NextCheck(s, wall, h, s.firstLate, 0);
    WatchStep(s, wall, h, s.firstLate, 0, []);
    BeatsGrow(s, wall, h, next, 1, [next]);
    assert [] + [next] == [next];
  }

  /** So code that outlives its first interval loses its outcome whenever anything before took time. */
  lemma FirstIntervalLosesOutcome(c: Settings, args: RunSandboxArgs, w: Surroundings)
    requires OutlivesFirstInterval(args, w) && w.heartbeatMs == 1000 * c.sandboxHeartbeatS
    requires WatchStart(args, w) + w.script.firstLate + WaitAt(w.script, 0).late > 0
    ensures !Counts(c, args, w)
  {
    FirstHeartbeatIff(args, w);
    LongestGapIff(HeardAt(args, w), 1000 * c.sandboxHeartbeatS);
  }

  // ---- settings under which outcomes survive --------------------------------------------------------

  /** The longest an attempt can take. */
  function AttemptBound(wallClockS: int, d: nat): int {
    COMMAND_TIMEOUT + d + RunBound(wallClockS, d) + KILL_TIMEOUT + d
  }

  lemma AttemptIsBounded(args: RunSandboxArgs, w: Surroundings, d: nat)
    requires WithinLateness(w.script, d)
    requires w.preflight.took <= COMMAND_TIMEOUT + d && w.finalKill.took <= KILL_TIMEOUT + d
    ensures 0 <= AttemptMs(args, w) <= AttemptBound(args.limits.wallClockS, d)
  {
    RunIsBounded(w.heartbeatMs, args.limits, w.script, d);
  }

  /** Every command keeps its timeout and no wake-up is late. */
  predicate Punctual(w: Surroundings) {
    WithinLateness(w.script, 0) && w.preflight.took <= COMMAND_TIMEOUT
  }

  /** An attempt under these settings and wall-clock limit that returns a result, with nothing late. */
  predicate PunctualResult(c: Settings, wallClockS: int, args: RunSandboxArgs, w: Surroundings) {
    && Punctual(w) && ActivityExit(args, w).Succeeded?
    && args.limits.wallClockS == wallClockS && w.heartbeatMs == 1000 * c.sandboxHeartbeatS
  }

  /** Every such result counts. */
  ghost predicate OutcomesSurvive(c: Settings, wallClockS: int) {
    forall args: RunSandboxArgs, w: Surroundings :: PunctualResult(c, wallClockS, args, w) ==> Counts(c, args, w)
  }

  /** In whole seconds a punctual watch never overruns its deadline. */
  lemma {:induction false} PunctualWatch(s: Script, w: int, h: nat, elapsed: int, k: nat, beats: seq<int>)
    requires h > 0 && WithinLateness(s, 0) && elapsed <= Max(w, 0)
    ensures var r := WatchFrom(s, 1000 * w, 1000 * h, 1000 * elapsed, k, beats);
            r.took <= Max(1000 * w, 0) && (s.waits == [] ==> r.ending == DeadlineHit && r.took == Max(1000 * w, 1000 * elapsed))
    decreases w - elapsed
  {
    if elapsed < w {
      WatchStep(s, 1000 * w, 1000 * h, 1000 * elapsed, k, beats);
      LateBound(s, 0, k);
      var next := elapsed + Min(h, w - elapsed);
      assert NextCheck(s, 1000 * w, 1000 * h, 1000 * elapsed, k) == 1000 * next;
      if WaitAt(s, k).WakesUp? {
        PunctualWatch(s, w, h, next, k + 1, beats + [1000 * next]);
      }
    }
  }

  /** An attempt's time, by the parts of one that returns. */
  predicate TakesItsParts(w: Surroundings, start: int, r: Watched, end: int) {
    var s := w.script;
    !r.ending.Interrupted?
    && end == start + r.took + s.out.took + s.err.took + (if r.ending.DeadlineHit? then s.deadlineKill.took else 0)
  }

  lemma ResultTime(args: RunSandboxArgs, w: Surroundings)
    requires ActivityExit(args, w).Succeeded?
    ensures Launched(args, w)
    ensures TakesItsParts(w, WatchStart(args, w), WatchOf(w.heartbeatMs, args.limits, w.script), AttemptMs(args, w))
  {
    CancelledTearsDown(args.runtime, w.lower, w.heartbeatMs, args.limits, w.script);
  }

  lemma StartFits(args: RunSandboxArgs, w: Surroundings)
    requires Punctual(w)
    ensures 0 <= WatchStart(args, w) <= 2 * COMMAND_TIMEOUT
  {
  }

  lemma PartsFit(w: Surroundings, start: int, r: Watched, end: int)
    requires Punctual(w) && TakesItsParts(w, start, r, end)
    ensures end <= start + r.took + (if r.ending.DeadlineHit? then 20000 else 10000)
  {
  }

  /** A punctual attempt that returns takes at most the commands' 30 s, the limit and 20 s for kill and drains. */
  lemma ResultFits(c: Settings, wallClockS: int, args: RunSandboxArgs, w: Surroundings)
    requires PunctualResult(c, wallClockS, args, w)
    ensures AttemptMs(args, w) <= 50000 + Max(1000 * wallClockS, 0)
  {
    var r, start, end := WatchOf(w.heartbeatMs, args.limits, w.script), WatchStart(args, w), AttemptMs(args, w);
    ResultTime(args, w);
    StartFits(args, w);
    PartsFit(w, start, r, end);
    PunctualWatch(w.script, wallClockS, c.sandboxHeartbeatS, 0, 0, []);
  }

  /** What is heard from a short punctual watch, of at most one heartbeat. */
  lemma HeardShortly(wallClockS: int, heartbeatS: nat, start: int, r: Watched, end: int)
    requires 0 <= start <= 2 * COMMAND_TIMEOUT && end <= start + r.took + (if r.ending.DeadlineHit? then 20000 else 10000)
    requires (if wallClockS <= 0 then 50 else 40 + wallClockS) <= heartbeatS
    requires var wall := 1000 * wallClockS;
      || (wall <= 0 && r == Watched(DeadlineHit, 0, 0, [], 0))
      || (wall > 0 && r == Watched(DeadlineHit, wall, 1, [wall], wall))
      || (wall > 0 && r.beats == [] && r.took <= wall && !r.ending.DeadlineHit?)
    ensures LongestGap(Heard(start, r.beats, end)) <= 1000 * heartbeatS
  {
    LongestGapIff(Heard(start, r.beats, end), 1000 * heartbeatS);
  }

  /** If the interval leaves room for all of it, a returning attempt is heard from in time. */
  lemma ResultIsHeard(c: Settings, wallClockS: int, args: RunSandboxArgs, w: Surroundings)
    requires PunctualResult(c, wallClockS, args, w)
    requires (if wallClockS <= 0 then 50 else 40 + wallClockS) <= c.sandboxHeartbeatS
    ensures Silence(args, w) <= 1000 * c.sandboxHeartbeatS
  {
    var r, start, end := WatchOf(w.heartbeatMs, args.limits, w.script), WatchStart(args, w), AttemptMs(args, w);
    ResultTime(args, w);
    StartFits(args, w);
    PartsFit(w, start, r, end);
    ShortWatch(w.script, 1000 * wallClockS, w.heartbeatMs);
    HeardShortly(wallClockS, c.sandboxHeartbeatS, start, r, end);
  }

  /** A punctual watch with a limit shorter than the interval makes at most one wait. */
  lemma ShortWatch(s: Script, w: int, h: nat)
    requires h > 0 && w % 1000 == 0 && h > w && WithinLateness(s, 0)
    ensures var r := WatchFrom(s, w, h, s.firstLate, 0, []);
            if w <= 0 then r == Watched(DeadlineHit, 0, 0, [], 0)
            else if WaitAt(s, 0).WakesUp? then r == Watched(DeadlineHit, w, 1, [w], w)
            else r.beats == [] && r.took <= w && !r.ending.DeadlineHit?
  {
    LateBound(s, 0, 0);
    if w > 0 {
      WatchStep(s, w, h, 0, 0, []);
    }
  }

  /** Code that runs into its deadline while every docker command and drain takes all the time it may. */
  function SlowScript(kill: Kill): Script {
    Script(COMMAND_TIMEOUT, None, Launches, 0, [],
           kill, DrainTimesOut([], DRAIN_TIMEOUT), DrainTimesOut([], DRAIN_TIMEOUT), KillCompletes(0))
  }

  /** Code that exits with 0 at the end of its first wait, as slowly. */
  function LateExitScript(after: nat): Script {
    Script(COMMAND_TIMEOUT, None, Launches, 0, [ProcessExits(after, 0, 0)],
           KillCompletes(0), DrainTimesOut([], DRAIN_TIMEOUT), DrainTimesOut([], DRAIN_TIMEOUT), KillCompletes(0))
  }

  function ArgsFor(wallClockS: int): RunSandboxArgs {
    RunSandboxArgs("", "", "", DEFAULT_LIMITS.(wallClockS := wallClockS), "runsc")
  }

  function SlowSurroundings(h: Interval, s: Script, lower: string -> string): Surroundings {
    Surroundings(DEFAULT_CODE_BYTES, "", h, lower, PreflightPasses(COMMAND_TIMEOUT), s, KillCompletes(0))
  }

  lemma SlowDeadline(wallClockS: int, heartbeatS: nat, removed: bool, lower: string -> string)
    requires heartbeatS > 0
    ensures var h: Interval := 1000 * heartbeatS;
            var args, w := ArgsFor(wallClockS), SlowSurroundings(h, SlowScript(KillFails(KILL_TIMEOUT, removed)), lower);
            && Punctual(w) && Launched(args, w) && EndingOf(args, w).DeadlineHit? && ActivityExit(args, w).Succeeded?
            && AttemptMs(args, w) == 50000 + Max(1000 * wallClockS, 0)
            && (wallClockS <= 0 ==> HeardAt(args, w) == [0, 50000])
  {
    PunctualWatch(SlowScript(KillFails(KILL_TIMEOUT, removed)), wallClockS, heartbeatS, 0, 0, []);
  }

  lemma LateExit(wallClockS: int, h: Interval, lower: string -> string)
    requires wallClockS > 0
    ensures var slice := Min(h, 1000 * wallClockS);
            var args, w := ArgsFor(wallClockS), SlowSurroundings(h, LateExitScript(slice), lower);
            && Punctual(w) && ActivityExit(args, w).Succeeded?
            && AttemptMs(args, w) == 40000 + slice && HeardAt(args, w) == [0, 40000 + slice]
  {
    var slice := Min(h, 1000 * wallClockS);
    WatchStep(LateExitScript(slice), 1000 * wallClockS, h, 0, 0, []);
  }

  /**
   * The settings under which no outcome is lost to a timeout, without lateness: start-to-close
   * must exceed the wall-clock limit by the 50 s that docker commands and drains may take, and the
   * heartbeat interval must exceed it by 40 s, since an attempt may end before its first heartbeat.
   */
  lemma OutcomesSurviveIff(c: Settings, wallClockS: int)
    requires c.sandboxHeartbeatS > 0
    ensures OutcomesSurvive(c, wallClockS) <==>
        && 50 + Max(wallClockS, 0) <= c.sandboxStartToCloseS
        && (if wallClockS <= 0 then 50 else 40 + wallClockS) <= c.sandboxHeartbeatS
  {
    if (50 + Max(wallClockS, 0) <= c.sandboxStartToCloseS
        && (if wallClockS <= 0 then 50 else 40 + wallClockS) <= c.sandboxHeartbeatS) {
      forall args: RunSandboxArgs, w: Surroundings | PunctualResult(c, wallClockS, args, w) ensures Counts(c, args, w) {
        ResultFits(c, wallClockS, args, w);
        ResultIsHeard(c, wallClockS, args, w);
      }
    } else {
      OutcomeIsLost(c, wallClockS);
    }
  }

  /** Otherwise there is an outcome that does not count. */
  lemma OutcomeIsLost(c: Settings, wallClockS: int)
    requires c.sandboxHeartbeatS > 0
    requires 50 + Max(wallClockS, 0) > c.sandboxStartToCloseS
        || (if wallClockS <= 0 then 50 else 40 + wallClockS) > c.sandboxHeartbeatS
    ensures !OutcomesSurvive(c, wallClockS)
  {
    var h: Interval, lower := 1000 * c.sandboxHeartbeatS, (s: string) => s;
    var args := ArgsFor(wallClockS);
    if 50 + Max(wallClockS, 0) > c.sandboxStartToCloseS || wallClockS <= 0 {
      var w := SlowSurroundings(h, SlowScript(KillFails(KILL_TIMEOUT, true)), lower);
      SlowDeadline(wallClockS, c.sandboxHeartbeatS, true, lower);
      LongestGapIff(HeardAt(args, w), h);
      assert PunctualResult(c, wallClockS, args, w) && !Counts(c, args, w);
    } else {
      var w := SlowSurroundings(h, LateExitScript(Min(h, 1000 * wallClockS)), lower);
      LateExit(wallClockS, h, lower);
      LongestGapIff(HeardAt(args, w), h);
      assert PunctualResult(c, wallClockS, args, w) && !Counts(c, args, w);
    }
  }

  /** The ceilings of the default configuration. */
  const DEFAULT_LIMITS := ResourceLimits(1.0, 256, 128, 30, 1048576, 64, 256)

  const DEFAULT_CODE_BYTES := 262144

  /**
   * The defaults are not among those settings.  With nothing late, the outcome of code that hit its
   * deadline can take 80 s to report, beyond start-to-close.
   */
  lemma DeadlineOutcomeIsLost(lower: string -> string) returns (args: RunSandboxArgs, w: Surroundings)
    ensures !OutcomesSurvive(DEFAULTS, DEFAULT_LIMITS.wallClockS)
    ensures args.limits == DEFAULT_LIMITS && PunctualResult(DEFAULTS, DEFAULT_LIMITS.wallClockS, args, w)
    ensures Launched(args, w) && EndingOf(args, w).DeadlineHit?
    ensures AttemptMs(args, w) == 80000 > 1000 * DEFAULTS.sandboxStartToCloseS
  {
    OutcomesSurviveIff(DEFAULTS, 30);
    args, w := ArgsFor(30), SlowSurroundings(10000, SlowScript(KillFails(KILL_TIMEOUT, true)), lower);
    SlowDeadline(30, 10, true, lower);
  }

  /** A preflight and an image inspection of a second each, and everything else at once. */
  function OrdinaryScript(): Script {
    Script(1000, None, Launches, 0, [], KillCompletes(0), DrainFinishes([], 0), DrainFinishes([], 0), KillCompletes(0))
  }

  function OrdinarySurroundings(lower: string -> string): Surroundings {
    Surroundings(DEFAULT_CODE_BYTES, "", 10000, lower, PreflightPasses(1000), OrdinaryScript(), KillCompletes(0))
  }

  /**
   * It takes nothing slow to lose an outcome.  In any state in which a sandbox attempt with attempts
   * to come executes code that runs into its deadline, if the preflight and the image inspection
   * take a second each and nothing else takes any, the attempt is over in 32 s; but its result is
   * refused for want of a heartbeat, and the code, whose outcome was final, is run again.
   */
  lemma DeadlineOutcomeIsRetried(c: Config, s: State, n: nat, args: RunSandboxArgs, lower: string -> string)
    returns (w: Surroundings)
    requires c.settings == DEFAULTS && n < DEFAULTS.maxAttempts
    requires !IsClosed(s) && s.activity == Executing(n) && Current(s) == SANDBOX
    requires Commands(s.events) != [] && Commands(s.events)[|Commands(s.events)| - 1] == SandboxCommand(args)
    requires args.runtime == "runsc" && args.limits == DEFAULT_LIMITS && |args.code| <= DEFAULT_CODE_BYTES
    ensures PunctualResult(DEFAULTS, DEFAULT_LIMITS.wallClockS, args, w) && EndingOf(args, w).DeadlineHit?
    ensures AttemptMs(args, w) == 32000
    ensures !Enabled(c, s, Finish(ActivityExit(args, w), Seconds(AttemptMs(args, w)), Seconds(Silence(args, w))))
    ensures var timeout := Finish(Errored(TimeoutFailure(Heartbeat)), 10, 10);
            Enabled(c, s, timeout) && Apply(c, s, timeout).activity == Waiting(n + 1)
  {
    w := OrdinarySurroundings(lower);
    OrdinaryDeadline(args, lower);
    ReportsInTimeIff(c, s, args, w);
    TimedOutIsRetried(c, s, n, Heartbeat, 10, 10);
  }

  lemma OrdinaryDeadline(args: RunSandboxArgs, lower: string -> string)
    requires args.runtime == "runsc" && args.limits == DEFAULT_LIMITS && |args.code| <= DEFAULT_CODE_BYTES
    ensures var w := OrdinarySurroundings(lower);
            && PunctualResult(DEFAULTS, DEFAULT_LIMITS.wallClockS, args, w) && EndingOf(args, w).DeadlineHit?
            && AttemptMs(args, w) == 32000 && !Counts(DEFAULTS, args, w)
  {
    var w := OrdinarySurroundings(lower);
    PunctualWatch(w.script, 30, 10, 0, 0, []);
    FirstIntervalLosesOutcome(DEFAULTS, args, w);
  }

  // ---- a container left behind a result -------------------------------------------------------------

  /** A kill that times out leaves the container of code that hit its deadline, and its result is returned. */
  lemma ContainerCanBeLeft(lower: string -> string) returns (args: RunSandboxArgs, w: Surroundings)
    ensures args.limits == DEFAULT_LIMITS && Punctual(w)
    ensures EndingOf(args, w).DeadlineHit? && ActivityExit(args, w).Succeeded? && LeavesContainer(args, w)
  {
    args, w := ArgsFor(30), SlowSurroundings(10000, SlowScript(KillFails(KILL_TIMEOUT, false)), lower);
    SlowDeadline(30, 10, false, lower);
    ResultLeavesContainer(args, w);
  }

  // ---- exits that look like failed launches -------------------------------------------------------

  /** A launched process that exits at once with rc, having written text to standard error. */
  function ExitScript(rc: int, text: string): Script {
    Script(0, None, Launches, 0, [ProcessExits(0, 0, rc)],
           KillCompletes(0), DrainFinishes([], 0), DrainFinishes([Utf8.Encode(text)], 0), KillCompletes(0))
  }

  function ExitArgs(runtime: string, text: string): RunSandboxArgs {
    RunSandboxArgs("", "", "", DEFAULT_LIMITS.(outputMaxBytes := |Utf8.Encode(text)|), runtime)
  }

  function ExitSurroundings(rc: int, text: string, lower: string -> string): Surroundings {
    Surroundings(DEFAULT_CODE_BYTES, "", 10000, lower, PreflightPasses(0), ExitScript(rc, text), KillCompletes(0))
  }

  lemma OneChunk(e: seq<Utf8.byte>)
    ensures UntilEof([e]) == e
  {
    var none: seq<seq<Utf8.byte>> := [];
    assert [e][1..] == none;
    assert e != [] ==> UntilEof([e]) == e + UntilEof(none);
  }

  lemma ExitFacts(runtime: string, rc: int, text: string, lower: string -> string)
    requires runtime == "runsc" || runtime == "runc"
    ensures var args, w := ExitArgs(runtime, text), ExitSurroundings(rc, text, lower);
            && Launched(args, w) && EndingOf(args, w) == Exited(rc) && !DrainsCancelled(w.script)
            && ErrorText(lower, args.limits, w.script) == lower(text)
  {
    var e := Utf8.Encode(text);
    OneChunk(e);
    Utf8.DecodeEncode(text);
  }

  /** A text that begins like docker's own errors. */
  lemma SignedPrefix(rest: string)
    ensures Signed("docker:" + rest)
  {
    var g := LAUNCH_SIGNATURES[0];
    assert g == "docker:" && g <= g + rest;
    assert g in LAUNCH_SIGNATURES && Contains(g + rest, g);
  }

  /**
   * User code can pass for a failed launch: a launched process that exits with 125 having printed
   * a launch signature makes the attempt raise, and be retried, although its outcome was final.
   */
  lemma UserExitIsRetried(c: Settings, runtime: string, text: string, lower: string -> string, n: nat)
    returns (args: RunSandboxArgs, w: Surroundings)
    requires runtime == "runsc" || runtime == "runc"
    requires lower(text) == text && Signed(text)
    requires !Contains(text, "unknown runtime") && !Contains(text, runtime)
    requires c.maxAttempts == 0 || n < c.maxAttempts
    ensures Launched(args, w) && EndingOf(args, w) == Exited(125)
    ensures ActivityExit(args, w) == Errored(INFRA_FAILURE) && Retries(SandboxRetry(c), INFRA_FAILURE, n)
  {
    args, w := ExitArgs(runtime, text), ExitSurroundings(125, text, lower);
    ExitFacts(runtime, 125, text, lower);
    ProcessExitIs(args, w, 125);
  }

  /** "docker:" is such a text. */
  lemma DockerIsSuchAText()
    ensures Signed("docker:") && !Contains("docker:", "unknown runtime")
    ensures !Contains("docker:", "runsc") && !Contains("docker:", "runc")
  {
    assert LAUNCH_SIGNATURES[0] == "docker:" && Contains("docker:", LAUNCH_SIGNATURES[0]);
    NoRun("docker:");
    NotInShorter("docker:", "unknown runtime");
  }

  lemma NoRun(s: string)
    requires 'u' !in s
    ensures !Contains(s, "runsc") && !Contains(s, "runc")
  {
    ContainsIff(s, "runsc");
    ContainsIff(s, "runc");
    forall i | 0 <= i <= |s| ensures !("runsc" <= s[i..]) && !("runc" <= s[i..]) {
      assert i + 1 < |s| ==> s[i..][1] == s[i + 1] && s[i + 1] in s;
      assert "runsc"[1] == 'u' && "runc"[1] == 'u';
    }
  }

  /**
   * A failed launch is not always retried: one whose message names the runtime is taken for a
   * policy violation, whatever the cause.
   */
  lemma NamedRuntimeIsNotRetried(c: Settings, runtime: string, lower: string -> string, n: nat)
    returns (args: RunSandboxArgs, w: Surroundings)
    requires runtime == "runsc" || runtime == "runc"
    requires lower("docker:" + runtime) == "docker:" + runtime
    ensures Launched(args, w) && EndingOf(args, w) == Exited(125)
    ensures ActivityExit(args, w) == Errored(WRAPPED_VIOLATION) && !Retries(SandboxRetry(c), WRAPPED_VIOLATION, n)
  {
    var text := "docker:" + runtime;
    args, w := ExitArgs(runtime, text), ExitSurroundings(125, text, lower);
    ExitFacts(runtime, 125, text, lower);
    ProcessExitIs(args, w, 125);
    SignedPrefix(runtime);
    ContainsEnd("docker:", runtime);
  }
}
