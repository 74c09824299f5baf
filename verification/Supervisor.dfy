// The sandbox supervisor: launch a container, watch it against a wall-clock deadline while
// heartbeating, collect bounded output, and tear it down on every way out.  Times are integer
// milliseconds.  Everything the supervisor awaits is scripted by an adversary: when the process
// exits, how late each wake-up is, how drains and kills end, and where a cancellation strikes.
// Given the script, every outcome below is a function of it.

module Supervisor {
  import opened Basics
  import opened Contracts
  import Decimal
  import Utf8
  import opened CappedReader

  // ---- classification of docker's exit --------------------------------------------------------

  const LAUNCH_RCS: set<int> := {125, 126, 127}

  const LAUNCH_SIGNATURES: seq<string> := [
    "docker:", "error response from daemon", "oci runtime", "executable file not found",
    "unknown runtime", "no such image", "manifest unknown"]

  datatype Classification = UserExit | RuntimeUnavailable | LaunchFailed

  predicate HasSignature(lowered: string, signatures: seq<string>) {
    signatures != [] && (Contains(lowered, signatures[0]) || HasSignature(lowered, signatures[1..]))
  }

  /** _classify_infra, given the lower-cased standard error. */
  function Classify(runtime: string, rc: int, lowered: string): Classification {
    if rc !in LAUNCH_RCS then UserExit
    else if !HasSignature(lowered, LAUNCH_SIGNATURES) then UserExit
    else if Contains(lowered, "unknown runtime") || Contains(lowered, runtime) then RuntimeUnavailable
    else LaunchFailed
  }

  lemma {:induction false} HasSignatureIff(lowered: string, signatures: seq<string>)
    ensures HasSignature(lowered, signatures) <==> exists g :: g in signatures && Contains(lowered, g)
  {
    if signatures != [] {
      HasSignatureIff(lowered, signatures[1..]);
      if Contains(lowered, signatures[0]) {
        assert signatures[0] in signatures;
      } else if HasSignature(lowered, signatures[1..]) {
        var g :| g in signatures[1..] && Contains(lowered, g);
        assert g in signatures;
      } else {
        forall g | g in signatures ensures !Contains(lowered, g) {
          assert g == signatures[0] || g in signatures[1..];
        }
      }
    }
  }

  /** The text has one of the signatures of a failed launch. */
  predicate Signed(lowered: string) {
    exists g :: g in LAUNCH_SIGNATURES && Contains(lowered, g)
  }

  /**
   * An exit is taken for a failed launch exactly when it has a launch code and the text a launch
   * signature; it is put down to the runtime exactly when the text names it, too.
   */
  lemma ClassifyIs(runtime: string, rc: int, lowered: string)
    ensures var c := Classify(runtime, rc, lowered);
            var names := Contains(lowered, "unknown runtime") || Contains(lowered, runtime);
            && (c.UserExit? <==> rc !in LAUNCH_RCS || !Signed(lowered))
            && (c.RuntimeUnavailable? <==> rc in LAUNCH_RCS && Signed(lowered) && names)
            && (c.LaunchFailed? <==> rc in LAUNCH_RCS && Signed(lowered) && !names)
  {
    HasSignatureIff(lowered, LAUNCH_SIGNATURES);
  }

  // ---- container names ------------------------------------------------------------------------

  function ContainerName(digest: string, attempt: nat): string {
    "sbx-" + digest + "-" + Decimal.Str(attempt)
  }

  lemma NameParts(digest: string, number: string)
    requires |digest| == 16
    ensures var name := "sbx-" + digest + "-" + number; name[4..20] == digest && name[21..] == number
  {
  }

  /** Names of different attempts, or of runs with different digests, differ. */
  lemma ContainerNamesDiffer(d: string, e: string, m: nat, n: nat)
    requires |d| == |e| == 16
    ensures ContainerName(d, m) == ContainerName(e, n) <==> d == e && m == n
  {
    NameParts(d, Decimal.Str(m));
    NameParts(e, Decimal.Str(n));
    if Decimal.Str(m) == Decimal.Str(n) {
      Decimal.StrInjective(m, n);
    }
  }

  // ---- the adversary ----------------------------------------------------------------------------

  /** How one wait on the process ends; times count from the start of the wait. */
  datatype Wait = ProcessExits(after: nat, late: nat, rc: int) | WakesUp(late: nat) | WaitCancelled(after: nat, late: nat)

  /**
   * How a "docker rm -f" ends.  One that fails, times out (its result is ignored) or is cancelled
   * may or may not have removed the container; one that cannot be spawned raises.
   */
  datatype Kill =
    | KillCompletes(took: nat)
    | KillFails(took: nat, removed: bool)
    | KillCancelled(took: nat, removed: bool)
    | KillRaises(took: nat, errorType: string)

  predicate Removes(k: Kill) {
    match k
    case KillCompletes(_) => true
    case KillFails(_, removed) => removed
    case KillCancelled(_, removed) => removed
    case KillRaises(_, _) => false
  }

  /** How collecting one output stream ends; chunks is what the pipe delivers in all. */
  datatype Drain =
    | DrainFinishes(chunks: seq<seq<Utf8.byte>>, took: nat)
    | DrainTimesOut(chunks: seq<seq<Utf8.byte>>, took: nat)
    | DrainCancelled(chunks: seq<seq<Utf8.byte>>, took: nat)

  /** How the launch goes, after the image has been inspected. */
  datatype Launch = Launches | LaunchRaises(errorType: string) | CancelledBeforeLaunch

  datatype Script = Script(
    digestTook: nat, imageDigest: Option<string>, launch: Launch, firstLate: nat, waits: seq<Wait>,
    deadlineKill: Kill, out: Drain, err: Drain, cancelKill: Kill)

  const COMMAND_TIMEOUT := 15000
  const KILL_TIMEOUT := 10000
  const DRAIN_TIMEOUT := 5000

  /** Pipes deliver at most a chunk at a time. */
  predicate Deliverable(s: Script) {
    ChunksOk(s.out.chunks) && ChunksOk(s.err.chunks)
  }

  /** No wake-up is later than d. */
  predicate WithinLateness(s: Script, d: nat) {
    && s.digestTook <= COMMAND_TIMEOUT + d && s.firstLate <= d
    && (forall i :: 0 <= i < |s.waits| ==> s.waits[i].late <= d)
    && s.deadlineKill.took <= KILL_TIMEOUT + d && s.cancelKill.took <= KILL_TIMEOUT + d
    && s.out.took <= DRAIN_TIMEOUT + d && s.err.took <= DRAIN_TIMEOUT + d
  }

  /** The wait the script has for iteration k; past its end the process just keeps running. */
  function WaitAt(s: Script, k: nat): Wait {
    if k < |s.waits| then s.waits[k] else WakesUp(0)
  }

  // ---- what a drain yields ------------------------------------------------------------------------

  function DrainTail(dr: Drain, cap: int): seq<Utf8.byte> {
    if dr.DrainFinishes? then Suffix(UntilEof(dr.chunks), cap) else []
  }

  predicate DrainFlag(dr: Drain, cap: int) {
    dr.DrainFinishes? && |UntilEof(dr.chunks)| > cap
  }

  /**
   * An output not flagged as truncated is the whole output exactly when its drain finished, or
   * there was no output: a drain that times out loses everything without raising the flag.
   */
  lemma UnflaggedMeansComplete(dr: Drain, cap: int)
    ensures (!DrainFlag(dr, cap) ==> DrainTail(dr, cap) == UntilEof(dr.chunks))
        <==> dr.DrainFinishes? || UntilEof(dr.chunks) == []
  {
  }

  // ---- the watch --------------------------------------------------------------------------------------

  datatype Ending = Exited(rc: int) | DeadlineHit | Interrupted

  /** Heartbeats no more than gap apart, the first no more than gap after the start of the watch. */
  predicate Spaced(beats: seq<int>, from: int, gap: int) {
    forall i :: 0 <= i < |beats| ==> Previous(beats, from, i) < beats[i] <= Previous(beats, from, i) + gap
  }

  function Previous(beats: seq<int>, from: int, i: nat): int
    requires i <= |beats|
  {
    if i == 0 then from else beats[i - 1]
  }

  function CeilDiv(a: nat, b: nat): nat
    requires b > 0
  {
    (a + b - 1) / b
  }

  lemma CancelFactor(a: int, b: int, h: int)
    requires h > 0 && a * h < b * h
    ensures a < b
  {
  }

  /** What n full slices cover. */
  function Slices(n: nat, h: nat): nat {
    if n == 0 then 0 else Slices(n - 1, h) + h
  }

  lemma SlicesProduct(n: nat, h: nat)
    ensures Slices(n, h) == n * h
  {
    if n > 0 {
      assert n * h == (n - 1) * h + h;
    }
  }

  /** n waits, all but the last of them short of w. */
  lemma CeilBound(n: nat, h: nat, w: int)
    requires h > 0 && (n > 0 ==> Slices(n, h) - h < w)
    ensures n <= CeilDiv(Max(w, 0), h)
  {
    if n > 0 {
      SlicesProduct(n, h);
      var q, m := CeilDiv(w, h), w + h - 1;
      assert m == q * h + m % h;
      assert (q + 1) * h == q * h + h;
      CancelFactor(n, q + 1, h);
    }
  }

  /** The first n waits all woke up with the process still running. */
  predicate Woke(s: Script, n: nat) {
    forall k :: 0 <= k < n ==> WaitAt(s, k).WakesUp?
  }

  lemma SpacedAppend(beats: seq<int>, from: int, gap: int, beat: int)
    requires Spaced(beats, from, gap)
    requires Previous(beats, from, |beats|) < beat <= Previous(beats, from, |beats|) + gap
    ensures Spaced(beats + [beat], from, gap)
  {
    var all := beats + [beat];
    forall i | 0 <= i < |all| ensures Previous(all, from, i) < all[i] <= Previous(all, from, i) + gap {
      assert Previous(all, from, i) == Previous(beats, from, i);
    }
  }

  /** Where the deadline stands after some waits. */
  predicate InTime(w: int, h: nat, d: nat, elapsed: int, waits: nat) {
    && (waits > 0 ==> Slices(waits, h) - h < w) && (elapsed < w ==> Slices(waits, h) <= elapsed)
    && 0 <= elapsed < Max(w, 0) + 100 + d
  }

  /** A wait that begins before the deadline and ends at most d late. */
  lemma InTimeStep(w: int, h: nat, d: nat, elapsed: int, waits: nat, late: nat)
    requires InTime(w, h, d, elapsed, waits)
    requires h > 0 && elapsed < w && late <= d
    ensures InTime(w, h, d, elapsed + Min(h, Max(w - elapsed, 100)) + late, waits + 1)
    ensures waits + 1 <= CeilDiv(Max(w, 0), h)
  {
    SliceFacts(h, w - elapsed);
    CeilBound(waits + 1, h, w);
  }

  /** How a watch ended: the last deadline check, the waits made, the heartbeats, the time taken. */
  datatype Watched = Watched(ending: Ending, elapsed: int, waits: nat, beats: seq<int>, took: int)

  /** The watch from its k-th wait on. */
  function WatchFrom(s: Script, w: int, h: nat, elapsed: int, k: nat, beats: seq<int>): Watched
    requires h > 0
    decreases w - elapsed
  {
    if elapsed >= w then Watched(DeadlineHit, elapsed, k, beats, elapsed) else
      var slice := Min(h, Max(w - elapsed, 100));
      match WaitAt(s, k)
      case ProcessExits(after, late, rc) => Watched(Exited(rc), elapsed, k + 1, beats, elapsed + Min(after, slice) + late)
      case WaitCancelled(after, late) => Watched(Interrupted, elapsed, k + 1, beats, elapsed + Min(after, slice) + late)
      case WakesUp(late) => WatchFrom(s, w, h, elapsed + slice + late, k + 1, beats + [elapsed + slice + late])
  }

  /** When the deadline is checked again after the k-th wait, if that wakes up. */
  function NextCheck(s: Script, w: int, h: nat, elapsed: int, k: nat): int {
    elapsed + Min(h, Max(w - elapsed, 100)) + WaitAt(s, k).late
  }

  lemma WatchStep(s: Script, w: int, h: nat, elapsed: int, k: nat, beats: seq<int>)
    requires h > 0 && elapsed < w
    ensures var r, next := WatchFrom(s, w, h, elapsed, k, beats), NextCheck(s, w, h, elapsed, k);
            if WaitAt(s, k).WakesUp? then r == WatchFrom(s, w, h, next, k + 1, beats + [next])
            else r.waits == k + 1 && r.elapsed == elapsed <= r.took <= next && r.beats == beats
  {
  }

  lemma CheckStep(s: Script, w: int, h: nat, d: nat, elapsed: int, k: nat)
    requires h > 0 && elapsed < w && WithinLateness(s, d)
    ensures elapsed < NextCheck(s, w, h, elapsed, k) <= elapsed + h + d
  {
    SliceFacts(h, w - elapsed);
    LateBound(s, d, k);
  }

  /** When the k-th deadline check is made, if the process is still running and nothing cancels. */
  function CheckTime(s: Script, w: int, h: nat, k: nat): int {
    if k == 0 then s.firstLate else NextCheck(s, w, h, CheckTime(s, w, h, k - 1), k - 1)
  }

  /** All waits before the k-th wake up short of the deadline; the k-th check or wait is what ends the watch. */
  predicate EndsAt(s: Script, w: int, h: nat, k: nat, e: Ending) {
    && Woke(s, k) && (forall j :: 0 <= j < k ==> CheckTime(s, w, h, j) < w)
    && match e
       case DeadlineHit => CheckTime(s, w, h, k) >= w
       case Exited(rc) => CheckTime(s, w, h, k) < w && WaitAt(s, k).ProcessExits? && WaitAt(s, k).rc == rc
       case Interrupted => CheckTime(s, w, h, k) < w && WaitAt(s, k).WaitCancelled?
  }

  /** A watch that ends as its script says, having made one heartbeat for each wait that woke up. */
  predicate EndsRightly(s: Script, w: int, h: nat, r: Watched) {
    var k := |r.beats|;
    && EndsAt(s, w, h, k, r.ending) && r.elapsed == CheckTime(s, w, h, k)
    && r.waits == (if r.ending.DeadlineHit? then k else k + 1)
    && (r.ending.DeadlineHit? ==> r.took == r.elapsed)
  }

  lemma {:induction false} WatchEnds(s: Script, w: int, h: nat, beats: seq<int>)
    requires h > 0 && Woke(s, |beats|)
    requires forall j :: 0 <= j < |beats| ==> CheckTime(s, w, h, j) < w
    ensures EndsRightly(s, w, h, WatchFrom(s, w, h, CheckTime(s, w, h, |beats|), |beats|, beats))
    decreases w - CheckTime(s, w, h, |beats|)
  {
    var k := |beats|;
    var elapsed := CheckTime(s, w, h, k);
    if elapsed < w {
      WatchStep(s, w, h, elapsed, k, beats);
      if WaitAt(s, k).WakesUp? {
        SliceFacts(h, w - elapsed);
        var next := beats + [NextCheck(s, w, h, elapsed, k)];
        WatchEnds(s, w, h, next);
      }
    }
  }

  /** A script ends a watch in one way only. */
  lemma EndsOnce(s: Script, w: int, h: nat, j: nat, k: nat, e: Ending, f: Ending)
    requires EndsAt(s, w, h, j, e) && EndsAt(s, w, h, k, f)
    ensures j == k && e == f
  {
    assert j < k ==> CheckTime(s, w, h, j) < w && WaitAt(s, j).WakesUp?;
    assert k < j ==> CheckTime(s, w, h, k) < w && WaitAt(s, k).WakesUp?;
  }

  lemma {:induction false} WatchIsTimely(s: Script, w: int, h: nat, d: nat, elapsed: int, k: nat, beats: seq<int>)
    requires h > 0 && WithinLateness(s, d) && InTime(w, h, d, elapsed, k)
    ensures var r := WatchFrom(s, w, h, elapsed, k, beats);
            r.waits <= CeilDiv(Max(w, 0), h) && 0 <= r.elapsed <= r.took < Max(w, 0) + 100 + d
    decreases w - elapsed
  {
    if elapsed >= w {
      CeilBound(k, h, w);
    } else {
      CheckStep(s, w, h, d, elapsed, k);
      LateBound(s, d, k);
      InTimeStep(w, h, d, elapsed, k, WaitAt(s, k).late);
      WatchStep(s, w, h, elapsed, k, beats);
      var next := NextCheck(s, w, h, elapsed, k);
      if WaitAt(s, k).WakesUp? {
        WatchIsTimely(s, w, h, d, next, k + 1, beats + [next]);
      }
    }
  }

  lemma {:induction false} WatchIsSpaced(s: Script, w: int, h: nat, d: nat, elapsed: int, k: nat, beats: seq<int>)
    requires h > 0 && WithinLateness(s, d)
    requires elapsed == Previous(beats, s.firstLate, |beats|) && Spaced(beats, s.firstLate, h + d)
    ensures Spaced(WatchFrom(s, w, h, elapsed, k, beats).beats, s.firstLate, h + d)
    decreases w - elapsed
  {
    if elapsed < w {
      WatchStep(s, w, h, elapsed, k, beats);
      if WaitAt(s, k).WakesUp? {
        var next := NextCheck(s, w, h, elapsed, k);
        CheckStep(s, w, h, d, elapsed, k);
        SpacedAppend(beats, s.firstLate, h + d, next);
        WatchIsSpaced(s, w, h, d, next, k + 1, beats + [next]);
      }
    }
  }

  /** A heartbeat interval. */
  type Interval = ms: int | ms > 0 witness 1

  /** The watch of a whole execution. */
  function WatchOf(h: Interval, limits: ResourceLimits, s: Script): Watched {
    WatchFrom(s, 1000 * limits.wallClockS, h, s.firstLate, 0, [])
  }

  /**
   * A watch ends as its script says: with the exit of the process if the first wait that does not
   * wake up sees it and began before the deadline, with the deadline if all waits before it woke
   * up, and otherwise in a cancellation.
   */
  lemma EndingIff(h: Interval, limits: ResourceLimits, s: Script, e: Ending)
    ensures WatchOf(h, limits, s).ending == e <==> exists k :: EndsAt(s, 1000 * limits.wallClockS, h, k, e)
  {
    var w, r := 1000 * limits.wallClockS, WatchOf(h, limits, s);
    WatchEnds(s, w, h, []);
    if k :| EndsAt(s, w, h, k, e) {
      EndsOnce(s, w, h, |r.beats|, k, r.ending, e);
    }
  }

  /** The watch acts on the deadline at the first check that finds it passed, and at no other. */
  lemma WatchDeadline(h: Interval, limits: ResourceLimits, s: Script)
    ensures var r, w := WatchOf(h, limits, s), 1000 * limits.wallClockS;
            && (r.ending.DeadlineHit? <==> r.elapsed >= w)
            && (r.ending.DeadlineHit? ==> r.took == r.elapsed)
  {
    WatchEnds(s, 1000 * limits.wallClockS, h, []);
  }

  /**
   * For any lateness bound d, the watch of a process makes at most ceil(W / h) waits and has its
   * heartbeats at most h + d apart; it acts on the deadline between W and W + 100 + d, and only if
   * no wait saw the process exit.
   */
  lemma WatchTiming(h: Interval, limits: ResourceLimits, s: Script, d: nat)
    requires WithinLateness(s, d)
    ensures var r, w := WatchOf(h, limits, s), 1000 * limits.wallClockS;
            && r.waits <= CeilDiv(Max(w, 0), h) && Spaced(r.beats, s.firstLate, h + d)
            && 0 <= r.elapsed <= r.took < Max(w, 0) + 100 + d
            && EndsRightly(s, w, h, r)
  {
    var w := 1000 * limits.wallClockS;
    WatchEnds(s, w, h, []);
    WatchIsTimely(s, w, h, d, s.firstLate, 0, []);
    WatchIsSpaced(s, w, h, d, s.firstLate, 0, []);
  }

  /** A slice is at most a heartbeat, and short of one only when it reaches the deadline. */
  lemma SliceFacts(h: nat, remaining: int)
    requires h > 0 && remaining > 0
    ensures var slice := Min(h, Max(remaining, 100));
            && 0 < slice <= h
            && (slice == h || slice >= remaining)
            && (slice <= remaining || slice <= 100)
  {
  }

  lemma LateBound(s: Script, d: nat, k: nat)
    requires WithinLateness(s, d)
    ensures WaitAt(s, k).late <= d
  {
  }

  // ---- the outcome of an execution --------------------------------------------------------------------

  datatype RunnerExit =
    | Result(result: SandboxResult)
    | PolicyViolation
    | InfraError
    | CancelledError
    | OtherError(errorType: string)

  /** What a kill raises, if it does; a kill that fails or times out raises nothing. */
  function Raises(k: Kill): Option<RunnerExit> {
    match k
    case KillCancelled(_, _) => Some(CancelledError)
    case KillRaises(_, t) => Some(OtherError(t))
    case _ => None
  }

  predicate DrainsCancelled(s: Script) {
    s.out.DrainCancelled? || s.err.DrainCancelled?
  }

  /** What a supervised execution returns for an ending, with the output collected. */
  function ResultFor(runtime: string, s: Script, cap: int, e: Ending, wallMs: int): SandboxResult
    requires !e.Interrupted?
  {
    SandboxResult(
      runtime, if e.Exited? then e.rc else 124,
      Utf8.Decode(DrainTail(s.out, cap)), Utf8.Decode(DrainTail(s.err, cap)), wallMs,
      e.Exited? && e.rc == 137, e.DeadlineHit?, s.imageDigest,
      DrainFlag(s.out, cap) || DrainFlag(s.err, cap))
  }

  /** The standard error that the classification sees, given Python's str.lower. */
  function ErrorText(lower: string -> string, limits: ResourceLimits, s: Script): string {
    lower(Utf8.Decode(DrainTail(s.err, limits.outputMaxBytes)))
  }

  /** The outcome of the deadline branch. */
  function DeadlineExit(runtime: string, limits: ResourceLimits, s: Script, elapsed: int): RunnerExit {
    if Raises(s.deadlineKill).Some? then Raises(s.deadlineKill).value
    else if DrainsCancelled(s) then CancelledError
    else Result(ResultFor(runtime, s, limits.outputMaxBytes, DeadlineHit, elapsed))
  }

  /** The outcome after the process exited. */
  function ProcessExit(
      runtime: string, lower: string -> string, limits: ResourceLimits, s: Script, rc: int, wallMs: int): RunnerExit {
    if DrainsCancelled(s) then CancelledError else
      match Classify(runtime, rc, ErrorText(lower, limits, s))
      case RuntimeUnavailable => PolicyViolation
      case LaunchFailed => InfraError
      case UserExit => Result(ResultFor(runtime, s, limits.outputMaxBytes, Exited(rc), wallMs))
  }

  /** The outcome of a launched execution before any teardown. */
  function WatchExit(runtime: string, lower: string -> string, h: Interval, limits: ResourceLimits, s: Script): RunnerExit {
    var r := WatchOf(h, limits, s);
    match r.ending
    case Interrupted => CancelledError
    case DeadlineHit => DeadlineExit(runtime, limits, s, r.elapsed)
    case Exited(rc) => ProcessExit(runtime, lower, limits, s, rc, r.took)
  }

  /** A cancellation inside the watch, its deadline branch included, tears the container down. */
  predicate TearsDown(h: Interval, limits: ResourceLimits, s: Script) {
    match WatchOf(h, limits, s).ending
    case Interrupted => true
    case DeadlineHit => s.deadlineKill.KillCancelled? || (Raises(s.deadlineKill).None? && DrainsCancelled(s))
    case Exited(_) => false
  }

  lemma CancelledTearsDown(runtime: string, lower: string -> string, h: Interval, limits: ResourceLimits, s: Script)
    ensures TearsDown(h, limits, s) <==>
        !WatchOf(h, limits, s).ending.Exited? && WatchExit(runtime, lower, h, limits, s).CancelledError?
  {
  }

  /** What the runner's caller sees. */
  function RunExit(runtime: string, lower: string -> string, h: Interval, limits: ResourceLimits, s: Script): RunnerExit {
    match s.launch
    case LaunchRaises(t) => OtherError(t)
    case CancelledBeforeLaunch => CancelledError
    case Launches =>
      if TearsDown(h, limits, s) && Raises(s.cancelKill).Some? then Raises(s.cancelKill).value
      else WatchExit(runtime, lower, h, limits, s)
  }

  /** The kills the runner makes. */
  function KillsMade(h: Interval, limits: ResourceLimits, s: Script): seq<Kill> {
    if !s.launch.Launches? then [] else
      (if WatchOf(h, limits, s).ending.DeadlineHit? then [s.deadlineKill] else [])
      + (if TearsDown(h, limits, s) then [s.cancelKill] else [])
  }

  /** A launched container outlives the run. */
  predicate Remains(h: Interval, limits: ResourceLimits, s: Script) {
    s.launch.Launches? &&
    match WatchOf(h, limits, s).ending
    case Interrupted => !Removes(s.cancelKill)
    case DeadlineHit => !Removes(s.deadlineKill) && !(TearsDown(h, limits, s) && Removes(s.cancelKill))
    case Exited(_) => false
  }

  /** It does exactly when its process was not seen to exit and none of the kills made removed it. */
  lemma RemainsIff(h: Interval, limits: ResourceLimits, s: Script)
    ensures Remains(h, limits, s) <==>
        && s.launch.Launches? && !WatchOf(h, limits, s).ending.Exited?
        && forall k :: k in KillsMade(h, limits, s) ==> !Removes(k)
  {
    var kills := KillsMade(h, limits, s);
    assert s.launch.Launches? && WatchOf(h, limits, s).ending.DeadlineHit? ==> kills[0] == s.deadlineKill;
    assert s.launch.Launches? && TearsDown(h, limits, s) ==> kills[|kills| - 1] == s.cancelKill;
  }

  function CollectMs(s: Script): nat {
    s.out.took + if s.out.DrainCancelled? then 0 else s.err.took
  }

  function DeadlineMs(s: Script): nat {
    s.deadlineKill.took + if Raises(s.deadlineKill).Some? then 0 else CollectMs(s)
  }

  /** How long the watch takes, and what follows it, before any teardown. */
  function WatchMs(h: Interval, limits: ResourceLimits, s: Script): int {
    var r := WatchOf(h, limits, s);
    match r.ending
    case Interrupted => r.took
    case DeadlineHit => r.took + DeadlineMs(s)
    case Exited(_) => r.took + CollectMs(s)
  }

  /** How long a run takes, from inspecting the image to its exit. */
  function RunMs(h: Interval, limits: ResourceLimits, s: Script): int {
    if !s.launch.Launches? then s.digestTook
    else s.digestTook + WatchMs(h, limits, s) + (if TearsDown(h, limits, s) then s.cancelKill.took else 0)
  }

  /** The longest a run can take: the image, the deadline, two kills and two drains. */
  function RunBound(wallClockS: int, d: nat): int {
    COMMAND_TIMEOUT + d + Max(1000 * wallClockS, 0) + 100 + d + 2 * (KILL_TIMEOUT + d) + 2 * (DRAIN_TIMEOUT + d)
  }

  lemma RunIsBounded(h: Interval, limits: ResourceLimits, s: Script, d: nat)
    requires WithinLateness(s, d)
    ensures 0 <= RunMs(h, limits, s) <= RunBound(limits.wallClockS, d)
  {
    WatchTiming(h, limits, s, d);
  }

  // ---- the supervisor -----------------------------------------------------------------------------------

  /** The containers docker holds, by name. */
  class Docker {
    var containers: set<string>

    constructor ()
      ensures containers == {}
    {
      containers := {};
    }
  }

  class GvisorRunner {
    const runtime: string
    const docker: Docker
    const heartbeatMs: Interval
    const lower: string -> string
    var clock: int
    var heartbeats: seq<int>

    constructor (runtime: string, docker: Docker, heartbeatMs: Interval, lower: string -> string)
      ensures this.runtime == runtime && this.docker == docker && this.heartbeatMs == heartbeatMs
      ensures this.lower == lower && clock == 0 && heartbeats == []
    {
      this.runtime, this.docker, this.heartbeatMs, this.lower := runtime, docker, heartbeatMs, lower;
      clock, heartbeats := 0, [];
    }

    /** docker rm -f, whose result is ignored: it touches no other container, and repeating it changes nothing more. */
    method KillContainer(name: string, k: Kill) returns (raised: Option<RunnerExit>)
      modifies this`clock, docker
      ensures clock == old(clock) + k.took && raised == Raises(k)
      ensures docker.containers == if Removes(k) then old(docker.containers) - {name} else old(docker.containers)
    {
      clock := clock + k.took;
      match k {
        case KillCompletes(_) =>
          docker.containers := docker.containers - {name};
          return None;
        case KillFails(_, removed) =>
          if removed { docker.containers := docker.containers - {name}; }
          return None;
        case KillCancelled(_, removed) =>
          if removed { docker.containers := docker.containers - {name}; }
          return Some(CancelledError);
        case KillRaises(_, errorType) =>
          return Some(OtherError(errorType));
      }
    }

    /** Best-effort collection of one stream within its timeout. */
    method SafeDrain(dr: Drain, cap: int) returns (tail: seq<Utf8.byte>, truncated: bool, cancelled: bool)
      requires ChunksOk(dr.chunks)
      modifies this`clock
      ensures clock == old(clock) + dr.took
      ensures cancelled == dr.DrainCancelled?
      ensures tail == DrainTail(dr, cap) && truncated == DrainFlag(dr, cap)
    {
      clock := clock + dr.took;
      cancelled := dr.DrainCancelled?;
      tail, truncated := [], false;
      if dr.DrainFinishes? {
        ghost var peak;
        tail, truncated, peak := ReadCapped(dr.chunks, cap);
      }
    }

    /**
     * The watch loop: waits for the process in heartbeat-sized slices until it exits, the
     * deadline passes, or a cancellation arrives.
     */
    method Watch(limits: ResourceLimits, s: Script) returns (r: Watched)
      requires heartbeats == []
      modifies this`clock, this`heartbeats
      ensures r == WatchOf(heartbeatMs, limits, s)
      ensures clock == old(clock) + r.took && heartbeats == r.beats
    {
      var start, wallClockMs := clock, 1000 * limits.wallClockS;
      clock := clock + s.firstLate;
      var waits: nat := 0;
      var elapsed := clock - start;
      while true
        invariant elapsed == clock - start
        invariant WatchFrom(s, wallClockMs, heartbeatMs, s.firstLate, 0, [])
            == WatchFrom(s, wallClockMs, heartbeatMs, elapsed, waits, heartbeats)
        decreases wallClockMs - elapsed
      {
        var remaining := wallClockMs - elapsed;
        if remaining <= 0 {
          return Watched(DeadlineHit, elapsed, waits, heartbeats, clock - start);
        }
        var waitFor := Min(heartbeatMs, Max(remaining, 100));
        var w := WaitAt(s, waits);
        waits := waits + 1;
        match w {
          case ProcessExits(after, late, rc) =>
            clock := clock + Min(after, waitFor) + late;
            return Watched(Exited(rc), elapsed, waits, heartbeats, clock - start);
          case WaitCancelled(after, late) =>
            clock := clock + Min(after, waitFor) + late;
            return Watched(Interrupted, elapsed, waits, heartbeats, clock - start);
          case WakesUp(late) =>
            clock := clock + waitFor + late;
            elapsed := clock - start;
            heartbeats := heartbeats + [elapsed];
        }
      }
    }

    /**
     * The deadline branch: kill, collect what there is, report.  What the kill or a cancelled
     * drain raises is raised.
     */
    method ReportDeadline(name: string, limits: ResourceLimits, elapsed: int, s: Script) returns (exit: RunnerExit)
      requires Deliverable(s)
      modifies this`clock, docker
      ensures exit == DeadlineExit(runtime, limits, s, elapsed)
      ensures clock == old(clock) + DeadlineMs(s)
      ensures docker.containers ==
        if Removes(s.deadlineKill) then old(docker.containers) - {name} else old(docker.containers)
    {
      var raised := KillContainer(name, s.deadlineKill);
      if raised.Some? { return raised.value; }
      var out, outTruncated, outCancelled := SafeDrain(s.out, limits.outputMaxBytes);
      if outCancelled { return CancelledError; }
      var err, errTruncated, errCancelled := SafeDrain(s.err, limits.outputMaxBytes);
      if errCancelled { return CancelledError; }
      return Result(SandboxResult(
        runtime, 124, Utf8.Decode(out), Utf8.Decode(err), elapsed, false, true, s.imageDigest,
        outTruncated || errTruncated));
    }

    /** After the process exited: collect the output, classify the exit, report. */
    method ReportExit(rc: int, limits: ResourceLimits, wallMs: int, s: Script) returns (exit: RunnerExit)
      requires Deliverable(s)
      modifies this`clock
      ensures exit == ProcessExit(runtime, lower, limits, s, rc, wallMs)
      ensures clock == old(clock) + CollectMs(s)
    {
      var out, outTruncated, outCancelled := SafeDrain(s.out, limits.outputMaxBytes);
      if outCancelled { return CancelledError; }
      var err, errTruncated, errCancelled := SafeDrain(s.err, limits.outputMaxBytes);
      if errCancelled { return CancelledError; }
      var errText := Utf8.Decode(err);
      match Classify(runtime, rc, lower(errText)) {
        case RuntimeUnavailable => return PolicyViolation;
        case LaunchFailed => return InfraError;
        case UserExit =>
          return Result(SandboxResult(
            runtime, rc, Utf8.Decode(out), errText, wallMs, rc == 137, false, s.imageDigest,
            outTruncated || errTruncated));
      }
    }

    /** The try block of a launched execution, and what follows it: all but the teardown. */
    method Supervise(name: string, limits: ResourceLimits, s: Script) returns (r: Watched, exit: RunnerExit)
      requires heartbeats == [] && Deliverable(s)
      modifies this`clock, this`heartbeats, docker
      ensures r == WatchOf(heartbeatMs, limits, s) && heartbeats == r.beats
      ensures exit == WatchExit(runtime, lower, heartbeatMs, limits, s)
      ensures clock == old(clock) + WatchMs(heartbeatMs, limits, s)
      ensures docker.containers ==
        if r.ending.Exited? || (r.ending.DeadlineHit? && Removes(s.deadlineKill)) then old(docker.containers) - {name}
        else old(docker.containers)
    {
      r := Watch(limits, s);
      match r.ending {
        case Interrupted => exit := CancelledError;
        case DeadlineHit => exit := ReportDeadline(name, limits, r.elapsed, s);
        case Exited(rc) =>
          // the container was started with --rm: docker removes it as it exits
          docker.containers := docker.containers - {name};
          exit := ReportExit(rc, limits, r.took, s);
      }
    }

    /**
     * One supervised execution: it exits, takes its time, heartbeats and leaves docker exactly as
     * its script determines, and touches no container of another name.
     */
    method RunContainer(name: string, limits: ResourceLimits, s: Script) returns (exit: RunnerExit)
      requires heartbeats == [] && Deliverable(s) && name !in docker.containers
      modifies this`clock, this`heartbeats, docker
      ensures exit == RunExit(runtime, lower, heartbeatMs, limits, s)
      ensures clock == old(clock) + RunMs(heartbeatMs, limits, s)
      ensures s.launch.Launches? ==> heartbeats == WatchOf(heartbeatMs, limits, s).beats
      ensures docker.containers ==
        if Remains(heartbeatMs, limits, s) then old(docker.containers) + {name} else old(docker.containers)
    {
      clock := clock + s.digestTook;
      match s.launch {
        case LaunchRaises(errorType) => return OtherError(errorType);
        case CancelledBeforeLaunch => return CancelledError;
        case Launches =>
      }
      docker.containers := docker.containers + {name};
      var r;
      r, exit := Supervise(name, limits, s);
      CancelledTearsDown(runtime, lower, heartbeatMs, limits, s);
      if !r.ending.Exited? && exit.CancelledError? {
        // torn down on the way out of the watch, then raised again
        var raised := KillContainer(name, s.cancelKill);
        if raised.Some? { exit := raised.value; }
      }
    }
  }
}
