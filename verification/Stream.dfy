// The status stream: a generator that polls a run's status, emits a snapshot, then changes and
// keepalives, then a terminal event, until the client leaves or a maximum duration passes.
// Time is counted in tenths of a second: one poll every seven.

module Stream {
  import opened Basics
  import opened Responses
  import Json
  import EventStream

  /**
   * The turn after the answered polls, if there was one: the client is gone, or the status cannot
   * be read.  The loop does not go on after such a turn, so any sequence of turns is some answers
   * and one of these.
   */
  datatype Stop = StillWaiting | Disconnected | ApiError | OtherError

  datatype Out = Snapshot(resp: Response) | Change(resp: Response) | Terminal(resp: Response) | Done(maxDuration: bool) | Ping

  /** Why the generator stopped; Waiting means the turns given so far did not end it. */
  datatype StreamExit = Waiting | Left | Crashed | Finished | Expired

  const KEEPALIVE_TICKS: nat := 21

  function EventName(status: Status): string {
    match status
    case COMPLETED => "completed"
    case TIMED_OUT => "timed_out"
    case _ => "failed"
  }

  /** The text frame of an output. */
  function FrameOf(runId: string, o: Out): EventStream.Frame {
    match o
    case Snapshot(r) => EventStream.Message("snapshot", Payload(r, false))
    case Change(r) => EventStream.Message("step", Payload(r, false))
    case Terminal(r) => EventStream.Message(EventName(r.status), Payload(r, false))
    case Ping => EventStream.Keepalive
    case Done(maxDuration) =>
      var id := Json.Field("run_id", Json.Str(runId));
      EventStream.Message("done", Json.Obj(
        if maxDuration then [id, Json.Field("reason", Json.Str("max_duration"))] else [id]))
  }

  function Frames(runId: string, outs: seq<Out>): (fs: seq<EventStream.Frame>)
    ensures |fs| == |outs|
  {
    seq(|outs|, i requires 0 <= i < |outs| => FrameOf(runId, outs[i]))
  }

  // ---- what the polls determine -----------------------------------------------------------------

  /** How many of the answers the generator reads: up to a terminal one or expiry. */
  function Answered(answers: seq<Response>, maxDurS: int, j: nat): (n: nat)
    requires j <= |answers|
    ensures j <= n <= |answers|
    decreases |answers| - j
  {
    if j == |answers| then j
    else if IsTerminal(answers[j]) || 7 * (j + 1) > 10 * maxDurS then j + 1
    else Answered(answers, maxDurS, j + 1)
  }

  function ExitAfter(answers: seq<Response>, stop: Stop, maxDurS: int): StreamExit {
    var n := Answered(answers, maxDurS, 0);
    if n > 0 && IsTerminal(answers[n - 1]) then Finished
    else if n > 0 && 7 * n > 10 * maxDurS then Expired
    else match stop
         case StillWaiting => Waiting
         case OtherError => Crashed
         case _ => Left
  }

  /** What poll j makes the generator emit, given the poll before it. */
  function EmittedAt(answers: seq<Response>, j: nat): seq<Out>
    requires j < |answers|
  {
    var r := answers[j];
    if IsTerminal(r) then
      (if j == 0 then [Snapshot(r), Terminal(r), Done(false)] else [Terminal(r), Done(false)])
    else if j == 0 then [Snapshot(r)]
    else if r != answers[j - 1] then [Change(r)]
    else if j % KEEPALIVE_TICKS == 0 then [Ping]
    else []
  }

  function EmittedUpTo(answers: seq<Response>, n: nat): seq<Out>
    requires n <= |answers|
  {
    if n == 0 then [] else EmittedUpTo(answers, n - 1) + EmittedAt(answers, n - 1)
  }

  /** The whole stream: what the answered polls emit, and a closing event when it expires. */
  function StreamOf(answers: seq<Response>, stop: Stop, maxDurS: int): seq<Out> {
    var n := Answered(answers, maxDurS, 0);
    if ExitAfter(answers, stop, maxDurS).Expired? then EmittedUpTo(answers, n) + [Done(true)] else EmittedUpTo(answers, n)
  }

  /** All but the last of the first n answers say the run is open. */
  predicate OpenUntil(answers: seq<Response>, n: nat)
    requires n <= |answers|
  {
    forall j :: 0 <= j < n - 1 ==> !IsTerminal(answers[j])
  }

  lemma EmittedStep(answers: seq<Response>, n: nat)
    requires n < |answers|
    ensures EmittedUpTo(answers, n + 1) == EmittedUpTo(answers, n) + EmittedAt(answers, n)
  {
  }

  lemma EmittedFirst(answers: seq<Response>)
    requires answers != []
    ensures var r := answers[0];
            EmittedUpTo(answers, 1) == if IsTerminal(r) then [Snapshot(r)] + [Terminal(r), Done(false)] else [Snapshot(r)]
  {
    EmittedStep(answers, 0);
  }

  /** What a poll after the first emits: an end, a change, a keepalive or nothing. */
  lemma EmittedCases(answers: seq<Response>, j: nat)
    requires 0 < j < |answers|
    ensures var r, out := answers[j], EmittedAt(answers, j);
            if IsTerminal(r) then out == [Terminal(r), Done(false)]
            else if r != answers[j - 1] then out == [Change(r)]
            else out == [Ping] || out == []
  {
  }

  lemma AnsweredStep(answers: seq<Response>, maxDurS: int, j: nat)
    requires j < |answers|
    ensures if IsTerminal(answers[j]) || 7 * (j + 1) > 10 * maxDurS then Answered(answers, maxDurS, j) == j + 1
            else Answered(answers, maxDurS, j) == Answered(answers, maxDurS, j + 1)
  {
  }

  lemma {:induction false} AnsweredIsOpen(answers: seq<Response>, maxDurS: int, j: nat)
    requires j <= |answers|
    requires forall i :: 0 <= i < j ==> !IsTerminal(answers[i])
    requires j > 0 ==> 7 * j <= 10 * maxDurS
    ensures var n := Answered(answers, maxDurS, j);
            && OpenUntil(answers, n) && (n > 0 ==> 7 * (n - 1) <= 10 * Max(maxDurS, 0))
            && (n < |answers| ==> n > 0 && (IsTerminal(answers[n - 1]) || 7 * n > 10 * maxDurS))
            && (n > 0 && !IsTerminal(answers[n - 1]) && 7 * n <= 10 * maxDurS ==> n == |answers|)
    decreases |answers| - j
  {
    if j < |answers| && !IsTerminal(answers[j]) && 7 * (j + 1) <= 10 * maxDurS {
      AnsweredIsOpen(answers, maxDurS, j + 1);
    }
  }

  /**
   * The generator.  `last`, `first`, `ticks` and `elapsed` are its own variables; it compares
   * printed payloads.  What it emits is determined poll by poll from what consecutive polls
   * answered, and the turns alone decide when and why it stops.
   */
  method Generate(answers: seq<Response>, stop: Stop, maxDurS: int)
    returns (outs: seq<Out>, exit: StreamExit, answered: nat)
    ensures answered == Answered(answers, maxDurS, 0)
    ensures exit == ExitAfter(answers, stop, maxDurS)
    ensures outs == StreamOf(answers, stop, maxDurS)
  {
    outs := [];
    var last: string := "";
    var first := true;
    var ticks := 0;
    var elapsed := 0;
    while ticks < |answers|
      invariant 0 <= ticks <= |answers|
      invariant ticks > 0 ==> !IsTerminal(answers[ticks - 1])
      invariant Answered(answers, maxDurS, 0) == Answered(answers, maxDurS, ticks)
      invariant outs == EmittedUpTo(answers, ticks)
      invariant first <==> ticks == 0
      invariant !first ==> PrintsOnly(answers[ticks - 1], last)
      invariant elapsed == 7 * ticks && (ticks > 0 ==> elapsed <= 10 * maxDurS)
    {
      var resp := answers[ticks];
      EmittedStep(answers, ticks);
      AnsweredStep(answers, maxDurS, ticks);
      if IsTerminal(resp) {
        if first {
          outs := outs + [Snapshot(resp), Terminal(resp), Done(false)];
        } else {
          outs := outs + [Terminal(resp), Done(false)];
        }
        return outs, Finished, ticks + 1;
      }
      var cur := PrintSorted(resp);
      if first {
        outs := outs + [Snapshot(resp)];
        first, last := false, cur;
      } else if cur != last {
        if resp == answers[ticks - 1] { PrintsSame(resp, cur, last); }
        outs := outs + [Change(resp)];
        last := cur;
      } else {
        PrintsOne(resp, answers[ticks - 1], cur);
        if ticks % KEEPALIVE_TICKS == 0 {
          outs := outs + [Ping];
        } else {
          assert outs + [] == outs;
        }
      }
      ticks := ticks + 1;
      elapsed := elapsed + 7;
      if elapsed > 10 * maxDurS {
        outs := outs + [Done(true)];
        return outs, Expired, ticks;
      }
    }
    match stop {
      case StillWaiting => return outs, Waiting, ticks;
      case OtherError => return outs, Crashed, ticks;
      case Disconnected => return outs, Left, ticks;
      case ApiError => return outs, Left, ticks;
    }
  }

  // ---- the shape of a stream ----------------------------------------------------------------------

  /** snapshot (step | keepalive)* (terminal done | done[max_duration]), and its prefixes. */
  datatype Shape = Nothing | Body | Ending | Over | Malformed

  function Next(q: Shape, o: Out): Shape {
    match q
    case Nothing => if o.Snapshot? then Body else Malformed
    case Body =>
      (match o
       case Change(_) => Body
       case Ping => Body
       case Terminal(_) => Ending
       case Done(maxDuration) => if maxDuration then Over else Malformed
       case Snapshot(_) => Malformed)
    case Ending => if o == Done(false) then Over else Malformed
    case Over => Malformed
    case Malformed => Malformed
  }

  function Scan(outs: seq<Out>): Shape {
    if outs == [] then Nothing else Next(Scan(outs[..|outs| - 1]), outs[|outs| - 1])
  }

  lemma ScanAppend(outs: seq<Out>, o: Out)
    ensures Scan(outs + [o]) == Next(Scan(outs), o)
  {
    assert (outs + [o])[..|outs|] == outs;
  }

  /** A body goes on with at most one step or keepalive, or ends with a terminal event. */
  lemma ScanBody(before: seq<Out>, out: seq<Out>)
    requires Scan(before) == Body
    ensures (|out| == 1 && (out[0].Change? || out[0].Ping?)) || out == [] ==> Scan(before + out) == Body
    ensures |out| == 2 && out[0].Terminal? && out[1] == Done(false) ==> Scan(before + out) == Over
  {
    if out == [] {
      assert before + out == before;
    } else if |out| == 1 {
      assert out == [out[0]];
      ScanAppend(before, out[0]);
    } else if |out| == 2 {
      assert before + out == before + [out[0]] + [out[1]];
      ScanAppend(before, out[0]);
      ScanAppend(before + [out[0]], out[1]);
    }
  }

  lemma ScanFirst(r: Response)
    ensures Scan([Snapshot(r)]) == Body && Scan([Snapshot(r)] + [Terminal(r), Done(false)]) == Over
  {
    ScanAppend([], Snapshot(r));
    assert [] + [Snapshot(r)] == [Snapshot(r)];
    ScanBody([Snapshot(r)], [Terminal(r), Done(false)]);
  }

  lemma {:induction false} EmittedShape(answers: seq<Response>, n: nat)
    requires n <= |answers| && OpenUntil(answers, n)
    ensures Scan(EmittedUpTo(answers, n)) ==
      if n == 0 then Nothing else if EndsTerminal(answers, n) then Over else Body
  {
    if n == 1 {
      EmittedFirst(answers);
      ScanFirst(answers[0]);
    } else if n > 1 {
      EmittedShape(answers, n - 1);
      EmittedStep(answers, n - 1);
      EmittedCases(answers, n - 1);
      ScanBody(EmittedUpTo(answers, n - 1), EmittedAt(answers, n - 1));
    }
  }

  /**
   * Every stream has the shape: it is complete exactly when the generator finished or expired,
   * and otherwise a proper prefix, whatever the polls returned and however they failed.
   */
  lemma StreamShape(answers: seq<Response>, stop: Stop, maxDurS: int)
    ensures Scan(StreamOf(answers, stop, maxDurS)) ==
        ShapeAt(ExitAfter(answers, stop, maxDurS), Answered(answers, maxDurS, 0))
  {
    var n := Answered(answers, maxDurS, 0);
    EndsOpen(answers, maxDurS);
    ExitFacts(answers, stop, maxDurS);
    EmittedShape(answers, n);
    ScanAppend(EmittedUpTo(answers, n), Done(true));
  }

  predicate EndsTerminal(answers: seq<Response>, n: nat)
    requires n <= |answers|
  {
    n > 0 && IsTerminal(answers[n - 1])
  }

  lemma EndsOpen(answers: seq<Response>, maxDurS: int)
    ensures OpenUntil(answers, Answered(answers, maxDurS, 0))
  {
    AnsweredIsOpen(answers, maxDurS, 0);
  }

  lemma ExitFacts(answers: seq<Response>, stop: Stop, maxDurS: int)
    ensures var n, exit := Answered(answers, maxDurS, 0), ExitAfter(answers, stop, maxDurS);
            && (exit.Finished? <==> EndsTerminal(answers, n))
            && (exit.Expired? ==> n > 0)
  {
  }

  function ShapeAt(exit: StreamExit, polls: nat): Shape {
    if exit.Finished? || exit.Expired? then Over else if polls == 0 then Nothing else Body
  }

  lemma {:induction false} MalformedStays(outs: seq<Out>, k: nat)
    requires k <= |outs| && Scan(outs) != Malformed
    ensures Scan(outs[..k]) != Malformed
    ensures k < |outs| ==> Scan(outs[..k]) != Over
    decreases |outs| - k
  {
    if k == |outs| {
      assert outs[..k] == outs;
    } else {
      MalformedStays(outs, k + 1);
      assert outs[..k + 1][..k] == outs[..k];
    }
  }

  lemma {:induction false} EndingFollows(outs: seq<Out>, i: nat, k: nat)
    requires i < k <= |outs| && outs[i].Terminal? && Scan(outs) != Malformed
    ensures Scan(outs[..k]) == Ending || Scan(outs[..k]) == Over
    decreases k
  {
    MalformedStays(outs, k);
    assert outs[..k][..k - 1] == outs[..k - 1];
    if i < k - 1 {
      EndingFollows(outs, i, k - 1);
    }
  }

  /** A well-shaped stream has nothing after "done" and at most one terminal event. */
  lemma OneTerminalNothingAfterDone(outs: seq<Out>, i: nat, j: nat)
    requires i < j < |outs| && Scan(outs) != Malformed
    ensures !outs[i].Done?
    ensures !(outs[i].Terminal? && outs[j].Terminal?)
  {
    MalformedStays(outs, i + 1);
    MalformedStays(outs, j + 1);
    assert outs[..i + 1][..i] == outs[..i] && outs[..j + 1][..j] == outs[..j];
    if outs[i].Terminal? {
      EndingFollows(outs, i, j);
    }
  }

  // ---- the change filter ------------------------------------------------------------------------------

  /** The responses carried by snapshot and step events. */
  function Shown(outs: seq<Out>): seq<Response> {
    if outs == [] then [] else
      var o, before := outs[|outs| - 1], Shown(outs[..|outs| - 1]);
      if o.Snapshot? || o.Change? then before + [o.resp] else before
  }

  lemma ShownAppend(outs: seq<Out>, o: Out)
    ensures Shown(outs + [o]) == Shown(outs) + (if o.Snapshot? || o.Change? then [o.resp] else [])
  {
    assert (outs + [o])[..|outs|] == outs;
  }

  lemma {:induction false} ShownConcat(a: seq<Out>, b: seq<Out>)
    ensures Shown(a + b) == Shown(a) + Shown(b)
    decreases |b|
  {
    if b == [] {
      assert a + b == a;
    } else {
      var b', o := b[..|b| - 1], b[|b| - 1];
      ShownConcat(a, b');
      assert a + b == (a + b') + [o];
      ShownAppend(a + b', o);
    }
  }

  lemma ShownOf(r: Response)
    ensures Shown([]) == [] && Shown([Ping]) == []
    ensures Shown([Snapshot(r)]) == [r] && Shown([Change(r)]) == [r]
    ensures Shown([Terminal(r), Done(false)]) == []
  {
    assert forall o: Out :: [] + [o] == [o];
    ShownAppend([], Ping);
    ShownAppend([], Snapshot(r));
    ShownAppend([], Change(r));
    ShownAppend([], Terminal(r));
    assert [Terminal(r)] + [Done(false)] == [Terminal(r), Done(false)];
    ShownAppend([Terminal(r)], Done(false));
  }

  /** A sequence with each run of equal consecutive elements reduced to one. */
  function Destutter<T(==)>(s: seq<T>): seq<T> {
    if |s| <= 1 then s
    else if s[|s| - 1] == s[|s| - 2] then Destutter(s[..|s| - 1])
    else Destutter(s[..|s| - 1]) + [s[|s| - 1]]
  }

  /** The responses of the first n polls that say the run is open. */
  function OpenAnswers(answers: seq<Response>, n: nat): (rs: seq<Response>)
    requires n <= |answers|
  {
    if n == 0 then []
    else if IsTerminal(answers[n - 1]) then OpenAnswers(answers, n - 1)
    else OpenAnswers(answers, n - 1) + [answers[n - 1]]
  }

  /**
   * The snapshot and step events carry exactly the stutter-free sequence of the answers polled
   * while the run was open, or the one snapshot when the first answer is already terminal.
   */
  lemma {:induction false} ShownIsDestuttered(answers: seq<Response>, n: nat)
    requires n <= |answers| && OpenUntil(answers, n)
    ensures Shown(EmittedUpTo(answers, n)) ==
        if n == 1 && IsTerminal(answers[0]) then [answers[0]] else Destutter(OpenAnswers(answers, n))
  {
    if n == 1 {
      ShownFirst(answers);
    } else if n > 1 {
      ShownIsDestuttered(answers, n - 1);
      ShownNext(answers, n - 1);
      DestutterNext(answers, n - 1);
      assert !IsTerminal(answers[n - 2]);
    }
  }

  /** The same for a whole stream: why it stopped makes no difference to what it showed. */
  lemma StreamShows(answers: seq<Response>, stop: Stop, maxDurS: int)
    ensures var n := Answered(answers, maxDurS, 0);
            Shown(StreamOf(answers, stop, maxDurS)) ==
              if n == 1 && IsTerminal(answers[0]) then [answers[0]] else Destutter(OpenAnswers(answers, n))
  {
    var n := Answered(answers, maxDurS, 0);
    AnsweredIsOpen(answers, maxDurS, 0);
    ShownIsDestuttered(answers, n);
    ShownAppend(EmittedUpTo(answers, n), Done(true));
  }

  /** What poll j adds to the emitted responses, and to the stutter-free answers. */
  function News(answers: seq<Response>, j: nat): seq<Response>
    requires 0 < j < |answers|
  {
    if IsTerminal(answers[j]) || answers[j] == answers[j - 1] then [] else [answers[j]]
  }

  lemma DestutterNext(answers: seq<Response>, j: nat)
    requires 0 < j < |answers| && !IsTerminal(answers[j - 1])
    ensures Destutter(OpenAnswers(answers, j + 1)) == Destutter(OpenAnswers(answers, j)) + News(answers, j)
  {
    LastOpenAnswer(answers, j);
    DestutterAppend(OpenAnswers(answers, j), answers[j]);
  }

  lemma LastOpenAnswer(answers: seq<Response>, n: nat)
    requires 0 < n <= |answers| && !IsTerminal(answers[n - 1])
    ensures var rs := OpenAnswers(answers, n); rs != [] && rs[|rs| - 1] == answers[n - 1]
  {
  }

  lemma ShownNext(answers: seq<Response>, j: nat)
    requires 0 < j < |answers|
    ensures Shown(EmittedUpTo(answers, j + 1)) == Shown(EmittedUpTo(answers, j)) + News(answers, j)
  {
    EmittedStep(answers, j);
    EmittedCases(answers, j);
    ShownConcat(EmittedUpTo(answers, j), EmittedAt(answers, j));
    ShownOf(answers[j]);
  }

  lemma ShownFirst(answers: seq<Response>)
    requires answers != []
    ensures Shown(EmittedUpTo(answers, 1)) == [answers[0]]
  {
    var r := answers[0];
    EmittedStep(answers, 0);
    EmittedFirst(answers);
    ShownOf(r);
    ShownConcat([Snapshot(r)], [Terminal(r), Done(false)]);
  }

  lemma DestutterAppend<T>(s: seq<T>, x: T)
    requires s != []
    ensures Destutter(s + [x]) == if s[|s| - 1] == x then Destutter(s) else Destutter(s) + [x]
  {
    assert (s + [x])[..|s|] == s;
  }

  // ---- liveness and bounds -----------------------------------------------------------------------------

  /** Of any 21 consecutive answered polls at least one emits a frame, whatever was answered. */
  lemma NeverSilent(answers: seq<Response>, n: nat, i: nat) returns (j: nat)
    requires n <= |answers| && OpenUntil(answers, n) && i + KEEPALIVE_TICKS <= n
    ensures i <= j < i + KEEPALIVE_TICKS && EmittedAt(answers, j) != []
  {
    j := i + (KEEPALIVE_TICKS - i % KEEPALIVE_TICKS) % KEEPALIVE_TICKS;
    assert j % KEEPALIVE_TICKS == 0;
  }

  /** A stream polls at most floor(max / 0.7) + 1 times: the poll that fails is counted too. */
  lemma PollsBounded(answers: seq<Response>, stop: Stop, maxDurS: int)
    ensures var exit := ExitAfter(answers, stop, maxDurS);
            var made := Answered(answers, maxDurS, 0) + if exit.Left? || exit.Crashed? then 1 else 0;
            made <= 10 * Max(maxDurS, 0) / 7 + 1
  {
    AnsweredIsOpen(answers, maxDurS, 0);
  }

  predicate SaysOver(r: Response) {
    r.status == COMPLETED || r.status == FAILED || r.status == TIMED_OUT || r.status == CANCELLED
  }

  /** After n answered polls the generator goes on: the last answer says open, and 0.7 n seconds are allowed. */
  predicate GoesOn(answers: seq<Response>, maxDurS: int, n: nat)
    requires 0 < n <= |answers|
  {
    !SaysOver(answers[n - 1]) && 7 * n <= 10 * maxDurS
  }

  lemma {:induction false} AnsweredGoesOn(answers: seq<Response>, maxDurS: int, j: nat, m: nat)
    requires j < |answers| && j < m < Answered(answers, maxDurS, j)
    ensures GoesOn(answers, maxDurS, m)
    decreases m - j
  {
    if j + 1 < m {
      AnsweredGoesOn(answers, maxDurS, j + 1, m);
    }
  }

  /**
   * When and why a stream stops: at the first answered poll after which the generator does not go
   * on, as finished if that poll says the run is over and as expired otherwise; and if it goes on
   * after every answer, with the turn that follows them.
   */
  lemma StreamStops(answers: seq<Response>, stop: Stop, maxDurS: int)
    ensures var n, exit := Answered(answers, maxDurS, 0), ExitAfter(answers, stop, maxDurS);
            && (forall m :: 0 < m < n ==> GoesOn(answers, maxDurS, m))
            && (if 0 < n && !GoesOn(answers, maxDurS, n) then exit == (if SaysOver(answers[n - 1]) then Finished else Expired)
                else
                  && n == |answers| && (exit.Waiting? <==> stop.StillWaiting?) && (exit.Crashed? <==> stop.OtherError?)
                  && (exit.Left? <==> stop.Disconnected? || stop.ApiError?))
  {
    AnsweredIsOpen(answers, maxDurS, 0);
    var n := Answered(answers, maxDurS, 0);
    forall m | 0 < m < n ensures GoesOn(answers, maxDurS, m) {
      AnsweredGoesOn(answers, maxDurS, 0, m);
    }
  }

  /** A poll emits a keepalive exactly if it is the 21st, 42nd, ... after the first and repeats the answer before it. */
  lemma KeepaliveIff(answers: seq<Response>, j: nat)
    requires j < |answers|
    ensures Ping in EmittedAt(answers, j) <==>
        j > 0 && !SaysOver(answers[j]) && answers[j] == answers[j - 1] && j % 21 == 0
  {
  }

  // ---- the stream as text --------------------------------------------------------------------------------

  /** What a client's event-stream parser should see for an output. */
  function EventOf(runId: string, o: Out): EventStream.Event
    requires !o.Ping?
  {
    var f := FrameOf(runId, o);
    EventStream.Event(f.event, Json.Dumps(f.payload))
  }

  function EventsOf(runId: string, outs: seq<Out>): seq<EventStream.Event> {
    if outs == [] then []
    else (if outs[0].Ping? then [] else [EventOf(runId, outs[0])]) + EventsOf(runId, outs[1..])
  }

  lemma {:induction false} IntendedFrames(runId: string, outs: seq<Out>)
    ensures EventStream.Intended(Frames(runId, outs)) == EventsOf(runId, outs)
  {
    if outs != [] {
      assert Frames(runId, outs)[1..] == Frames(runId, outs[1..]);
      IntendedFrames(runId, outs[1..]);
    }
  }

  /**
   * A client that reads a stream's text by the event-stream format receives exactly the events
   * emitted, in order; and if the connection is cut anywhere, a prefix of them.
   */
  lemma {:induction false} ClientSeesEvents(runId: string, outs: seq<Out>, cut: nat)
    requires cut <= |EventStream.RenderAll(Frames(runId, outs))|
    ensures EventStream.Parse(EventStream.RenderAll(Frames(runId, outs))) == EventsOf(runId, outs)
    ensures EventStream.Parse(EventStream.RenderAll(Frames(runId, outs))[..cut]) <= EventsOf(runId, outs)
  {
    var fs := Frames(runId, outs);
    forall f | f in fs ensures EventStream.Nameable(f) {
      var i :| 0 <= i < |fs| && fs[i] == f;
      NamesAreNameable(runId, outs[i]);
    }
    IntendedFrames(runId, outs);
    EventStream.FramesReadBack(fs);
    EventStream.CutStreamReadsBack(fs, cut);
  }

  lemma NamesAreNameable(runId: string, o: Out)
    ensures EventStream.Nameable(FrameOf(runId, o))
  {
    assert EventStream.OneLine("snapshot") && EventStream.OneLine("step") && EventStream.OneLine("done");
    assert EventStream.OneLine("completed") && EventStream.OneLine("timed_out") && EventStream.OneLine("failed");
  }
}
