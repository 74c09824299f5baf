// The status stream over one run: polls of a run's successive states, made while workers crash
// and are rebuilt, only ever see the run advance.

module RunStream {
  import opened Contracts
  import opened Workflow
  import opened Durable
  import opened Responses
  import opened Stream
  import Replay
  import Verdict

  // ---- what an open run answers ---------------------------------------------------------------

  /** The answer of an open run whose worker has received the outcomes h. */
  function AnswerFor(inp: RunInput, h: seq<Outcome>): Response
    requires Recorded(inp, h)
  {
    RunningResponse(inp.runId, After(inp, h).stage, After(inp, h).steps)
  }

  /** How far a run has got: the steps begun, and whether the last is over. */
  function Rank(r: Response): nat {
    |r.steps| + (if r.steps != [] && r.steps[|r.steps| - 1].state == "running" then 0 else 1)
  }

  /** The same answer, or a later one whose completed steps extend the earlier one's. */
  predicate Advances(a: Response, b: Response) {
    a == b || (Rank(a) < Rank(b) && a.completedSteps <= b.completedSteps)
  }

  lemma AdvancesOn(a: Response, b: Response, c: Response)
    requires Advances(a, b) && Advances(b, c)
    ensures Advances(a, c)
  {
  }

  lemma {:induction false} NamesAppend(steps: seq<StepView>, v: StepView)
    ensures NamesCompleted(steps + [v]) == NamesCompleted(steps) + (if v.state == "completed" then [v.name] else [])
  {
    if steps == [] {
      assert steps + [v] == [v] && [v][1..] == [];
    } else {
      NamesAppend(steps[1..], v);
      assert (steps + [v])[1..] == steps[1..] + [v];
    }
  }

  /** A running last step that ends, and perhaps a next one that starts. */
  lemma StepsAdvance(runId: string, stage: string, stage': string, steps: seq<StepView>, state: string, detail: Option<string>)
    requires steps != [] && steps[|steps| - 1].state == "running" && state != "running"
    ensures Advances(RunningResponse(runId, stage, steps), RunningResponse(runId, stage', WithLast(steps, state, detail)))
    ensures Advances(RunningResponse(runId, stage, steps),
                     RunningResponse(runId, stage', WithLast(steps, state, detail) + [Running(stage')]))
  {
    var k := |steps| - 1;
    var v := steps[k].(state := state, detail := detail);
    assert steps == steps[..k] + [steps[k]] && WithLast(steps, state, detail) == steps[..k] + [v];
    NamesAppend(steps[..k], steps[k]);
    NamesAppend(steps[..k], v);
    NamesAppend(WithLast(steps, state, detail), Running(stage'));
  }

  /** One more outcome changes nothing a poll can see, or advances the run. */
  lemma OutcomeAdvances(inp: RunInput, h: seq<Outcome>)
    requires Recorded(inp, h) && h != []
    ensures Advances(AnswerFor(inp, h[..|h| - 1]), AnswerFor(inp, h))
  {
    var p, o := h[..|h| - 1], h[|h| - 1];
    Verdict.StepsShape(inp, p);
    var v, w := After(inp, p), After(inp, h);
    if !o.BareCancel? {
      var state, detail := w.steps[|p|].state, w.steps[|p|].detail;
      StepsAdvance(inp.runId, v.stage, w.stage, v.steps, state, detail);
    }
  }

  lemma {:induction false} OutcomesAdvance(inp: RunInput, h: seq<Outcome>, k: nat)
    requires Recorded(inp, h) && k <= |h| && Recorded(inp, h[..k])
    ensures Advances(AnswerFor(inp, h[..k]), AnswerFor(inp, h))
    decreases |h|
  {
    if k == |h| {
      assert h[..k] == h;
    } else {
      var p := h[..|h| - 1];
      assert p[..k] == h[..k];
      OutcomesAdvance(inp, p, k);
      OutcomeAdvances(inp, h);
      AdvancesOn(AnswerFor(inp, h[..k]), AnswerFor(inp, p), AnswerFor(inp, h));
    }
  }

  lemma RankBounded(inp: RunInput, h: seq<Outcome>)
    requires Recorded(inp, h)
    ensures 1 <= Rank(AnswerFor(inp, h)) <= 5
  {
    Verdict.StepsShape(inp, h);
  }

  // ---- the states of a run ----------------------------------------------------------------------

  function StateAt(c: Config, s: State, run: seq<Action>, k: nat): State
    requires IsRun(c, s, run) && k <= |run|
    decreases k
  {
    if k == 0 then s else StateAt(c, Apply(c, s, run[0]), run[1..], k - 1)
  }

  /** How many outcomes the workflow has received, or will have received once it is rebuilt. */
  function Delivered(s: State): nat {
    if s.worker.Up? then s.worker.seen else Current(s)
  }

  /** What was delivered, and what was recorded, is never taken back. */
  predicate Follows(s: State, t: State) {
    Delivered(s) <= Delivered(t) && Outcomes(s.events) <= Outcomes(t.events)
  }

  lemma FollowsOn(s: State, t: State, u: State)
    requires Follows(s, t) && Follows(t, u)
    ensures Follows(s, u)
  {
  }

  lemma StepFollows(c: Config, s: State, a: Action)
    requires Inv(c, s) && Enabled(c, s, a)
    ensures Follows(s, Apply(c, s, a))
  {
    var h, h' := Outcomes(s.events), Outcomes(Apply(c, s, a).events);
    Replay.OneOutcome(c, s, a);
    assert h == h'[..|h|];
  }

  lemma StateStep(c: Config, s: State, run: seq<Action>, k: nat)
    requires IsRun(c, s, run) && 0 < k <= |run|
    ensures Enabled(c, s, run[0]) && IsRun(c, Apply(c, s, run[0]), run[1..])
    ensures StateAt(c, s, run, k) == StateAt(c, Apply(c, s, run[0]), run[1..], k - 1)
  {
  }

  /** The states of a run are made one from the other by its actions. */
  lemma {:induction false} StateNext(c: Config, s: State, run: seq<Action>, k: nat)
    requires IsRun(c, s, run) && k < |run|
    ensures Enabled(c, StateAt(c, s, run, k), run[k])
    ensures StateAt(c, s, run, k + 1) == Apply(c, StateAt(c, s, run, k), run[k])
    decreases k
  {
    StateStep(c, s, run, k + 1);
    if k > 0 {
      StateStep(c, s, run, k);
      StateNext(c, Apply(c, s, run[0]), run[1..], k - 1);
    }
  }

  lemma {:induction false} InvAt(c: Config, s: State, run: seq<Action>, k: nat)
    requires Inv(c, s) && IsRun(c, s, run) && k <= |run|
    ensures Inv(c, StateAt(c, s, run, k))
    decreases k
  {
    if k > 0 {
      InvAt(c, s, run, k - 1);
      StateNext(c, s, run, k - 1);
      InvStep(c, StateAt(c, s, run, k - 1), run[k - 1]);
    }
  }

  lemma NextFollows(c: Config, s: State, run: seq<Action>, k: nat)
    requires Inv(c, s) && IsRun(c, s, run) && k < |run|
    ensures Follows(StateAt(c, s, run, k), StateAt(c, s, run, k + 1))
  {
    InvAt(c, s, run, k);
    StateNext(c, s, run, k);
    StepFollows(c, StateAt(c, s, run, k), run[k]);
  }

  lemma {:induction false} FollowsChain(states: seq<State>, k: nat, l: nat)
    requires k <= l < |states| && forall m :: 0 <= m < |states| - 1 ==> Follows(states[m], states[m + 1])
    ensures Follows(states[k], states[l])
    decreases l
  {
    if k < l {
      FollowsChain(states, k, l - 1);
      FollowsOn(states[k], states[l - 1], states[l]);
    }
  }

  /** The states a run goes through. */
  function States(c: Config, s: State, run: seq<Action>): (ss: seq<State>)
    requires IsRun(c, s, run)
    ensures |ss| == |run| + 1 && forall m :: 0 <= m <= |run| ==> ss[m] == StateAt(c, s, run, m)
  {
    seq(|run| + 1, m requires 0 <= m <= |run| => StateAt(c, s, run, m))
  }

  lemma RunFollows(c: Config, s: State, run: seq<Action>, k: nat, l: nat)
    requires Inv(c, s) && IsRun(c, s, run) && k <= l <= |run|
    ensures Follows(StateAt(c, s, run, k), StateAt(c, s, run, l))
  {
    var states := States(c, s, run);
    forall m | 0 <= m < |run| ensures Follows(states[m], states[m + 1]) {
      NextFollows(c, s, run, m);
    }
    FollowsChain(states, k, l);
  }

  /** What a status query sees is decided by the outcomes delivered. */
  lemma QueryAnswer(c: Config, s: State)
    requires Inv(c, s)
    ensures Delivered(s) <= Current(s) && Recorded(c.inp, Outcomes(s.events)[..Delivered(s)])
    ensures Queryable(c, s) && View(c, s) == After(c.inp, Outcomes(s.events)[..Delivered(s)])
  {
    var h := Outcomes(s.events);
    assert h[..|h|] == h;
  }

  // ---- polling a run ------------------------------------------------------------------------------

  /** A poll that describes the run in state s and queries it in state t; failure texts are free. */
  ghost predicate MayAnswer(c: Config, s: State, t: State, r: Response) {
    (IsClosed(s) || Queryable(c, t)) && exists cause :: r == ResolveStatus(c, s, t, cause)
  }

  /** Polls of one run, one after the other: poll j describes it at from[j] and queries it by to[j]. */
  ghost predicate Observed(c: Config, run: seq<Action>, from: seq<nat>, to: seq<nat>, answers: seq<Response>) {
    && IsRun(c, INIT, run) && |from| == |to| == |answers|
    && (forall j :: 0 <= j < |to| ==> from[j] <= to[j] <= |run|)
    && (forall j :: 0 <= j < |to| ==>
          MayAnswer(c, StateAt(c, INIT, run, from[j]), StateAt(c, INIT, run, to[j]), answers[j]))
    && (forall i, j :: 0 <= i < j < |to| ==> to[i] <= from[j])
  }

  lemma OpenAnswer(c: Config, s: State, t: State, r: Response)
    requires Inv(c, t) && MayAnswer(c, s, t, r) && !IsTerminal(r)
    ensures Delivered(t) <= Current(t) && Recorded(c.inp, Outcomes(t.events)[..Delivered(t)])
    ensures r == AnswerFor(c.inp, Outcomes(t.events)[..Delivered(t)])
  {
    var cause :| r == ResolveStatus(c, s, t, cause);
    QueryAnswer(c, t);
  }

  /** An answer that calls the run open is one of the five ranks. */
  lemma PollRank(c: Config, run: seq<Action>, from: seq<nat>, to: seq<nat>, answers: seq<Response>, i: nat)
    requires Observed(c, run, from, to, answers) && i < |answers| && !IsTerminal(answers[i])
    ensures 1 <= Rank(answers[i]) <= 5
  {
    var s, t := StateAt(c, INIT, run, from[i]), StateAt(c, INIT, run, to[i]);
    InvInit(c);
    InvAt(c, INIT, run, to[i]);
    assert MayAnswer(c, s, t, answers[i]);
    OpenAnswer(c, s, t, answers[i]);
    RankBounded(c.inp, Outcomes(t.events)[..Delivered(t)]);
  }

  /** While a run is found open, polls only ever see it advance, whatever happens to its workers. */
  lemma PollsAdvance(c: Config, run: seq<Action>, from: seq<nat>, to: seq<nat>, answers: seq<Response>, i: nat, j: nat)
    requires Observed(c, run, from, to, answers) && i < j < |answers|
    requires !IsTerminal(answers[i]) && !IsTerminal(answers[j])
    ensures Advances(answers[i], answers[j])
  {
    var s, t := StateAt(c, INIT, run, to[i]), StateAt(c, INIT, run, to[j]);
    assert to[i] <= from[j] <= to[j];
    InvInit(c);
    InvAt(c, INIT, run, to[i]);
    InvAt(c, INIT, run, to[j]);
    RunFollows(c, INIT, run, to[i], to[j]);
    OpenAnswer(c, StateAt(c, INIT, run, from[i]), s, answers[i]);
    OpenAnswer(c, StateAt(c, INIT, run, from[j]), t, answers[j]);
    var g, h := Outcomes(s.events)[..Delivered(s)], Outcomes(t.events)[..Delivered(t)];
    assert g == h[..|g|];
    OutcomesAdvance(c.inp, h, |g|);
  }

  // ---- what the stream shows --------------------------------------------------------------------

  /** Each later element advances on each earlier one. */
  predicate Advancing(rs: seq<Response>) {
    forall i, j :: 0 <= i < j < |rs| ==> Advances(rs[i], rs[j])
  }

  predicate StrictlyAdvancing(rs: seq<Response>) {
    forall i, j :: 0 <= i < j < |rs| ==> Rank(rs[i]) < Rank(rs[j]) && rs[i].completedSteps <= rs[j].completedSteps
  }

  /** Polls that are open see one another advance, and have ranks from 1 to 5. */
  ghost predicate OpenAdvance(answers: seq<Response>, n: nat)
    requires n <= |answers|
  {
    && (forall i :: 0 <= i < n && !IsTerminal(answers[i]) ==> 1 <= Rank(answers[i]) <= 5)
    && forall i, j :: 0 <= i < j < n && !IsTerminal(answers[i]) && !IsTerminal(answers[j]) ==> Advances(answers[i], answers[j])
  }

  ghost predicate FromOpen(answers: seq<Response>, n: nat, r: Response)
    requires n <= |answers|
  {
    exists i :: 0 <= i < n && !IsTerminal(answers[i]) && answers[i] == r
  }

  lemma {:induction false} OpenAnswersAdvance(answers: seq<Response>, n: nat)
    requires n <= |answers| && OpenAdvance(answers, n)
    ensures Advancing(OpenAnswers(answers, n))
    ensures forall r :: r in OpenAnswers(answers, n) ==> FromOpen(answers, n, r)
  {
    if n > 0 {
      OpenAnswersAdvance(answers, n - 1);
      var before, all, last := OpenAnswers(answers, n - 1), OpenAnswers(answers, n), answers[n - 1];
      forall r | r in all ensures FromOpen(answers, n, r) {
        if r in before {
          FromMore(answers, n, r);
        } else {
          assert answers[n - 1] == r && !IsTerminal(answers[n - 1]);
        }
      }
      if !IsTerminal(last) {
        forall i | 0 <= i < |before| ensures Advances(before[i], last) {
          assert before[i] in before;
          FromAdvances(answers, n, before[i]);
        }
      }
    }
  }

  lemma FromMore(answers: seq<Response>, n: nat, r: Response)
    requires 0 < n <= |answers| && FromOpen(answers, n - 1, r)
    ensures FromOpen(answers, n, r)
  {
  }

  lemma FromAdvances(answers: seq<Response>, n: nat, r: Response)
    requires 0 < n <= |answers| && FromOpen(answers, n - 1, r) && OpenAdvance(answers, n) && !IsTerminal(answers[n - 1])
    ensures Advances(r, answers[n - 1])
  {
  }

  lemma StrictAppend(ds: seq<Response>, last: Response)
    requires StrictlyAdvancing(ds)
    requires ds != [] ==> Rank(ds[|ds| - 1]) < Rank(last) && ds[|ds| - 1].completedSteps <= last.completedSteps
    ensures StrictlyAdvancing(ds + [last])
  {
    forall i | 0 <= i < |ds| ensures Rank(ds[i]) < Rank(last) && ds[i].completedSteps <= last.completedSteps {
      assert i < |ds| - 1 ==> ds[i].completedSteps <= ds[|ds| - 1].completedSteps;
    }
  }

  /** Without its repetitions an advancing sequence advances strictly. */
  lemma {:induction false} DestutterIsStrict(rs: seq<Response>)
    requires Advancing(rs)
    ensures var ds := Destutter(rs);
            && StrictlyAdvancing(ds) && (forall d :: d in ds ==> d in rs)
            && (rs == [] <==> ds == []) && (rs != [] ==> ds[|ds| - 1] == rs[|rs| - 1])
  {
    if |rs| > 1 {
      var before, last := rs[..|rs| - 1], rs[|rs| - 1];
      DestutterIsStrict(before);
      assert Advances(rs[|rs| - 2], last);
      if rs[|rs| - 2] != last {
        StrictAppend(Destutter(before), last);
      }
    }
  }

  lemma {:induction false} FewRanks(rs: seq<Response>)
    requires StrictlyAdvancing(rs) && forall r :: r in rs ==> 1 <= Rank(r)
    ensures rs != [] ==> |rs| <= Rank(rs[|rs| - 1])
  {
    if |rs| > 1 {
      var before := rs[..|rs| - 1];
      FewRanks(before);
      assert Rank(rs[|rs| - 2]) < Rank(rs[|rs| - 1]);
    } else if |rs| == 1 {
      assert rs[0] in rs;
    }
  }

  function StepEvents(outs: seq<Out>): nat {
    if outs == [] then 0 else StepEvents(outs[..|outs| - 1]) + (if outs[|outs| - 1].Change? then 1 else 0)
  }

  /** A stream shows its one snapshot and its step events. */
  lemma {:induction false} SnapshotAndSteps(outs: seq<Out>)
    requires outs != [] && Scan(outs) != Malformed
    ensures |Shown(outs)| == 1 + StepEvents(outs)
  {
    var before := outs[..|outs| - 1];
    if before != [] {
      SnapshotAndSteps(before);
      StartsOnce(before);
    }
  }

  lemma StartsOnce(outs: seq<Out>)
    requires outs != []
    ensures Scan(outs) != Nothing
  {
  }

  /**
   * A stream over one run, however long it polls and whatever happens to the run's workers:
   * what it shows advances strictly in rank, completed steps only grow by extension, and there
   * are at most four step events.
   */
  lemma StreamAdvances(c: Config, run: seq<Action>, from: seq<nat>, to: seq<nat>, answers: seq<Response>, stop: Stop, maxDurS: int)
    requires Observed(c, run, from, to, answers)
    ensures var outs := StreamOf(answers, stop, maxDurS);
            StrictlyAdvancing(Shown(outs)) && |Shown(outs)| <= 5 && StepEvents(outs) <= 4
  {
    var n, outs := Answered(answers, maxDurS, 0), StreamOf(answers, stop, maxDurS);
    StreamShows(answers, stop, maxDurS);
    ObservedAdvances(c, run, from, to, answers, n);
    ShownStrict(answers, n);
    StreamShape(answers, stop, maxDurS);
    if outs != [] {
      SnapshotAndSteps(outs);
    }
  }

  lemma ObservedAdvances(c: Config, run: seq<Action>, from: seq<nat>, to: seq<nat>, answers: seq<Response>, n: nat)
    requires Observed(c, run, from, to, answers) && n <= |answers|
    ensures OpenAdvance(answers, n)
  {
    forall i | 0 <= i < n && !IsTerminal(answers[i]) ensures 1 <= Rank(answers[i]) <= 5 {
      PollRank(c, run, from, to, answers, i);
    }
    forall i, j | 0 <= i < j < n && !IsTerminal(answers[i]) && !IsTerminal(answers[j])
      ensures Advances(answers[i], answers[j])
    {
      PollsAdvance(c, run, from, to, answers, i, j);
    }
  }

  lemma ShownStrict(answers: seq<Response>, n: nat)
    requires n <= |answers| && OpenAdvance(answers, n)
    ensures var ds := Destutter(OpenAnswers(answers, n)); StrictlyAdvancing(ds) && |ds| <= 5
  {
    var rs := OpenAnswers(answers, n);
    var ds := Destutter(rs);
    OpenAnswersAdvance(answers, n);
    DestutterIsStrict(rs);
    forall d | d in ds ensures 1 <= Rank(d) <= 5 {
      assert FromOpen(answers, n, d);
    }
    FewRanks(ds);
    if ds != [] {
      assert ds[|ds| - 1] in ds;
    }
  }

  // ---- what the stream misses ---------------------------------------------------------------------

  lemma {:induction false} OpenAnswersIff(answers: seq<Response>, n: nat, r: Response)
    requires n <= |answers|
    ensures r in OpenAnswers(answers, n) <==> FromOpen(answers, n, r)
  {
    if n > 0 {
      OpenAnswersIff(answers, n - 1, r);
      if FromOpen(answers, n, r) && !FromOpen(answers, n - 1, r) {
        assert answers[n - 1] == r;
      } else if FromOpen(answers, n - 1, r) {
        FromMore(answers, n, r);
      }
      if r in OpenAnswers(answers, n) && r !in OpenAnswers(answers, n - 1) {
        assert answers[n - 1] == r && !IsTerminal(answers[n - 1]);
      }
    }
  }

  lemma {:induction false} DestutterIff(rs: seq<Response>, r: Response)
    ensures r in Destutter(rs) <==> r in rs
  {
    if |rs| > 1 {
      var before, last := rs[..|rs| - 1], rs[|rs| - 1];
      DestutterIff(before, r);
      assert rs == before + [last];
      assert rs[|rs| - 2] in before;
    }
  }

  /** An answer of an open run is shown by a stream exactly when one of the stream's polls got it. */
  lemma ShownIffPolled(answers: seq<Response>, stop: Stop, maxDurS: int, r: Response)
    requires !IsTerminal(r)
    ensures r in Shown(StreamOf(answers, stop, maxDurS)) <==> FromOpen(answers, Answered(answers, maxDurS, 0), r)
  {
    var n := Answered(answers, maxDurS, 0);
    StreamShows(answers, stop, maxDurS);
    OpenAnswersIff(answers, n, r);
    DestutterIff(OpenAnswers(answers, n), r);
  }

  lemma {:induction false} StateAtEnd(c: Config, s: State, run: seq<Action>)
    requires IsRun(c, s, run)
    ensures StateAt(c, s, run, |run|) == Final(c, s, run)
    decreases |run|
  {
    if run != [] {
      StateStep(c, s, run, |run|);
      StateAtEnd(c, Apply(c, s, run[0]), run[1..]);
    }
  }

  /** One more step at the end of a run. */
  lemma {:induction false} RunExtends(c: Config, s: State, run: seq<Action>, a: Action, k: nat)
    requires IsRun(c, s, run) && Enabled(c, Final(c, s, run), a) && k <= |run|
    ensures IsRun(c, s, run + [a]) && Final(c, s, run + [a]) == Apply(c, Final(c, s, run), a)
    ensures StateAt(c, s, run + [a], k) == StateAt(c, s, run, k)
    decreases |run|
  {
    var all := run + [a];
    if run == [] {
      assert all[1..] == [];
    } else {
      var t := Apply(c, s, run[0]);
      assert all[0] == run[0] && all[1..] == run[1..] + [a];
      RunExtends(c, t, run[1..], a, if k == 0 then 0 else k - 1);
      if k > 0 {
        StateStep(c, s, run, k);
        StateStep(c, s, all, k);
      }
    }
  }

  // ---- the end of the stream ----------------------------------------------------------------------

  /** The completed steps of an open run are the first steps of the pipeline. */
  lemma CompletedIsPrefix(inp: RunInput, h: seq<Outcome>)
    requires Recorded(inp, h)
    ensures AnswerFor(inp, h).completedSteps <= PIPELINE
  {
    Verdict.StepsShape(inp, h);
    PrefixNames(After(inp, h).steps);
  }

  lemma PrefixNames(steps: seq<StepView>)
    requires Verdict.PipelinePrefix(steps)
    ensures NamesCompleted(steps) <= PIPELINE
  {
    var k := |steps| - 1;
    var names := seq(k, i requires 0 <= i < k => steps[i].name);
    Verdict.NamesOfCompleted(steps, k);
    assert names == PIPELINE[..k];
    assert names + [steps[k].name] == PIPELINE[..k + 1];
  }

  /** Completed steps only grow by extension up to the last poll, the one that finds the run completed. */
  lemma CompletedPollExtends(c: Config, run: seq<Action>, from: seq<nat>, to: seq<nat>, answers: seq<Response>, i: nat, j: nat)
    requires Observed(c, run, from, to, answers) && i < j < |answers|
    requires !IsTerminal(answers[i]) && answers[j].status == COMPLETED
    ensures answers[i].completedSteps <= answers[j].completedSteps == PIPELINE
  {
    var s, t := StateAt(c, INIT, run, from[i]), StateAt(c, INIT, run, to[i]);
    InvInit(c);
    InvAt(c, INIT, run, to[i]);
    assert MayAnswer(c, s, t, answers[i]);
    OpenAnswer(c, s, t, answers[i]);
    CompletedIsPrefix(c.inp, Outcomes(t.events)[..Delivered(t)]);
    CompletedLists(c, StateAt(c, INIT, run, from[j]), StateAt(c, INIT, run, to[j]), answers[j]);
  }

  lemma CompletedLists(c: Config, s: State, t: State, r: Response)
    requires MayAnswer(c, s, t, r) && r.status == COMPLETED
    ensures r.completedSteps == PIPELINE
  {
    var cause :| r == ResolveStatus(c, s, t, cause);
  }

  /** A closed run goes no further. */
  lemma {:induction false} ClosedIsFinal(c: Config, s: State, run: seq<Action>, k: nat)
    requires IsRun(c, s, run) && k <= |run| && IsClosed(StateAt(c, s, run, k))
    ensures StateAt(c, s, run, k) == Final(c, s, run)
    decreases k
  {
    if k > 0 {
      ClosedIsFinal(c, Apply(c, s, run[0]), run[1..], k - 1);
    }
  }

  ghost predicate EndsOn(answers: seq<Response>, n: nat, r: Response)
    requires n <= |answers|
  {
    exists j :: 0 <= j < n && IsTerminal(answers[j]) && answers[j] == r
  }

  lemma TerminalAt(answers: seq<Response>, j: nat, r: Response)
    requires j < |answers| && Terminal(r) in EmittedAt(answers, j)
    ensures answers[j] == r && IsTerminal(r)
  {
  }

  /** Terminal events carry terminal answers. */
  lemma {:induction false} TerminalIsPolled(answers: seq<Response>, n: nat, r: Response)
    requires n <= |answers| && Terminal(r) in EmittedUpTo(answers, n)
    ensures EndsOn(answers, n, r)
  {
    assert n > 0;
    EmittedStep(answers, n - 1);
    if Terminal(r) in EmittedUpTo(answers, n - 1) {
      TerminalIsPolled(answers, n - 1, r);
      EndsOnMore(answers, n, r);
    } else {
      TerminalAt(answers, n - 1, r);
    }
  }

  lemma EndsOnMore(answers: seq<Response>, n: nat, r: Response)
    requires 0 < n <= |answers| && EndsOn(answers, n - 1, r)
    ensures EndsOn(answers, n, r)
  {
  }

  /** The API's answer about the run once it has ended. */
  ghost predicate FinalAnswer(c: Config, run: seq<Action>, r: Response)
    requires IsRun(c, INIT, run)
  {
    IsClosed(Final(c, INIT, run)) && exists t, cause :: r == ResolveStatus(c, Final(c, INIT, run), t, cause)
  }

  /** The terminal event of a stream over a run is the answer about that run as it ended. */
  lemma TerminalIsFinal(
    c: Config, run: seq<Action>, from: seq<nat>, to: seq<nat>, answers: seq<Response>, stop: Stop, maxDurS: int, r: Response)
    requires Observed(c, run, from, to, answers) && Terminal(r) in StreamOf(answers, stop, maxDurS)
    ensures IsTerminal(r) && FinalAnswer(c, run, r)
  {
    var n := Answered(answers, maxDurS, 0);
    TerminalIsPolled(answers, n, r);
    var j :| 0 <= j < n && IsTerminal(answers[j]) && answers[j] == r;
    var s, t := StateAt(c, INIT, run, from[j]), StateAt(c, INIT, run, to[j]);
    assert MayAnswer(c, s, t, r);
    var cause :| r == ResolveStatus(c, s, t, cause);
    ClosedIsFinal(c, INIT, run, from[j]);
  }

  /**
   * From a sandbox execution to the client: the terminal event of a stream is "completed" exactly
   * when the run ended with a result and a sandbox attempt of it returned from a process that
   * exited with 0 before its deadline.
   */
  lemma {:induction false} StreamVerdict(
    c: Config, run: seq<Action>, xs: seq<Verdict.Execution>,
    from: seq<nat>, to: seq<nat>, answers: seq<Response>, stop: Stop, maxDurS: int, r: Response)
    requires Observed(c, run, from, to, answers) && Terminal(r) in StreamOf(answers, stop, maxDurS)
    requires Verdict.Ran(Final(c, INIT, run), xs)
    ensures EventName(r.status) == "completed" <==>
        StatusOf(Final(c, INIT, run)) == CompletedStatus && exists i :: Verdict.ExitedWithZero(Final(c, INIT, run), xs, i)
  {
    TerminalIsFinal(c, run, from, to, answers, stop, maxDurS, r);
    var t, cause :| r == ResolveStatus(c, Final(c, INIT, run), t, cause);
    Verdict.CompletedIff(c, run, xs, t, cause);
    EventNames(r.status);
  }

  lemma EventNames(status: Status)
    ensures EventName(status) == "completed" <==> status == COMPLETED
  {
    assert "completed"[0] == 'c' && "timed_out"[0] == 't' && "failed"[0] == 'f';
  }
}
