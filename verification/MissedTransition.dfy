// A run and polls of it whose stream misses a transition: the stream polls, so what happens
// between two polls is not shown.

module MissedTransition {
  import opened Contracts
  import opened Workflow
  import opened Durable
  import opened Responses
  import opened Stream
  import opened RunStream

  /** A run that leads to a state. */
  ghost predicate Leads(c: Config, run: seq<Action>, s: State) {
    IsRun(c, INIT, run) && Final(c, INIT, run) == s
  }

  lemma LeadsOn(c: Config, run: seq<Action>, s: State, a: Action, t: State, k: nat)
    requires Leads(c, run, s) && Enabled(c, s, a) && Apply(c, s, a) == t && k <= |run|
    ensures Leads(c, run + [a], t) && StateAt(c, INIT, run + [a], k) == StateAt(c, INIT, run, k)
  {
    RunExtends(c, INIT, run, a, k);
  }

  // The states of a run until its workflow has received a plan.

  function Begun(): State {
    State([], Idle, Up(BEGIN, 0), [], 0, 0, 0)
  }

  function Planning(c: Config): State {
    State([Scheduled(PlanCommand(c.inp.task))], Activity.Waiting(1), Up(BEGIN, 0), [], 0, 0, 0)
  }

  function PlanStarted(c: Config): State {
    Planning(c).(activity := Executing(1), log := [Attempt(0, 1, None)])
  }

  function Planned(c: Config, plan: Plan): State {
    var value := PlanValue(plan);
    State([Scheduled(PlanCommand(c.inp.task)), Settled(Outcome.Done(value))], Idle, Up(BEGIN, 0),
          [Attempt(0, 1, Some(Succeeded(value)))], 0, 0, 0)
  }

  function PlanReceived(c: Config, plan: Plan): State {
    Planned(c, plan).(worker := Up(Resume(c.inp, BEGIN, Outcome.Done(PlanValue(plan))), 1))
  }

  lemma BeginPlanning(c: Config)
    ensures Enabled(c, INIT, Rebuild) && Apply(c, INIT, Rebuild) == Begun()
    ensures Enabled(c, Begun(), Dispatch(0)) && Apply(c, Begun(), Dispatch(0)) == Planning(c)
  {
    assert [] + [Scheduled(PlanCommand(c.inp.task))] == [Scheduled(PlanCommand(c.inp.task))];
  }

  lemma StartPlanning(c: Config)
    ensures Outcomes(Planning(c).events) == [] && Commands(Planning(c).events) == [PlanCommand(c.inp.task)]
    ensures Enabled(c, Planning(c), Start(0)) && Apply(c, Planning(c), Start(0)) == PlanStarted(c)
  {
    var e := Scheduled(PlanCommand(c.inp.task));
    RecordFacts(Begun(), e);
    assert Planning(c).events == [] + [e];
  }

  lemma FinishPlanning(c: Config, plan: Plan)
    ensures var finish := Finish(Succeeded(PlanValue(plan)), 0, 0);
            Enabled(c, PlanStarted(c), finish) && Apply(c, PlanStarted(c), finish) == Planned(c, plan)
    ensures Outcomes(Planned(c, plan).events) == [Outcome.Done(PlanValue(plan))]
  {
    StartPlanning(c);
    var e := Settled(Outcome.Done(PlanValue(plan)));
    RecordFacts(PlanStarted(c), e);
    assert Planned(c, plan).events == PlanStarted(c).events + [e];
  }

  lemma ReceivePlan(c: Config, plan: Plan)
    ensures Enabled(c, Planned(c, plan), Deliver) && Apply(c, Planned(c, plan), Deliver) == PlanReceived(c, plan)
  {
    FinishPlanning(c, plan);
  }

  /** A run that has its plan and is then terminated. */
  lemma PlannedRun(c: Config, plan: Plan) returns (run: seq<Action>)
    ensures |run| == 6 && IsRun(c, INIT, run) && StateAt(c, INIT, run, 1) == Begun()
    ensures StateAt(c, INIT, run, 5) == PlanReceived(c, plan)
    ensures StateAt(c, INIT, run, 6) == Record(PlanReceived(c, plan), Closed(Terminated))
  {
    BeginPlanning(c);
    StartPlanning(c);
    FinishPlanning(c, plan);
    ReceivePlan(c, plan);
    var done := PlanReceived(c, plan);
    assert Enabled(c, done, Terminate) && Apply(c, done, Terminate) == Record(done, Closed(Terminated));
    run := [];
    LeadsOn(c, run, INIT, Rebuild, Begun(), 0);
    run := run + [Rebuild];
    StateAtEnd(c, INIT, run);
    LeadsOn(c, run, Begun(), Dispatch(0), Planning(c), 1);
    run := run + [Dispatch(0)];
    LeadsOn(c, run, Planning(c), Start(0), PlanStarted(c), 1);
    run := run + [Start(0)];
    LeadsOn(c, run, PlanStarted(c), Finish(Succeeded(PlanValue(plan)), 0, 0), Planned(c, plan), 1);
    run := run + [Finish(Succeeded(PlanValue(plan)), 0, 0)];
    LeadsOn(c, run, Planned(c, plan), Deliver, done, 1);
    run := run + [Deliver];
    StateAtEnd(c, INIT, run);
    LeadsOn(c, run, done, Terminate, Record(done, Closed(Terminated)), 1);
    LeadsOn(c, run, done, Terminate, Record(done, Closed(Terminated)), 5);
    run := run + [Terminate];
    StateAtEnd(c, INIT, run);
  }

  lemma AnswerMayBe(c: Config, s: State)
    requires IsClosed(s) || Queryable(c, s)
    ensures MayAnswer(c, s, s, ResolveStatus(c, s, s, None))
  {
  }

  /** What those states answer. */
  lemma PlannedAnswers(c: Config, plan: Plan)
    ensures !IsClosed(Begun()) && ResolveStatus(c, Begun(), Begun(), None).stage == "plan"
    ensures var t := PlanReceived(c, plan);
            && !IsClosed(t) && ResolveStatus(c, t, t, None).stage == "generate_code"
            && !IsTerminal(ResolveStatus(c, t, t, None))
    ensures var u := Record(PlanReceived(c, plan), Closed(Terminated));
            IsClosed(u) && IsTerminal(ResolveStatus(c, u, u, None))
  {
  }

  /** Polls of a run of six steps after the first and the last. */
  lemma TwoPolls(c: Config, run: seq<Action>, answers: seq<Response>)
    requires IsRun(c, INIT, run) && |run| == 6 && |answers| == 2
    requires var s := StateAt(c, INIT, run, 1); MayAnswer(c, s, s, answers[0])
    requires var u := StateAt(c, INIT, run, 6); MayAnswer(c, u, u, answers[1])
    ensures Observed(c, run, [1, 6], [1, 6], answers)
  {
  }

  lemma NotShown(answers: seq<Response>, maxDurS: int, missed: Response)
    requires |answers| == 2 && answers[0].stage != missed.stage && IsTerminal(answers[1]) && !IsTerminal(missed)
    ensures missed !in Shown(StreamOf(answers, StillWaiting, maxDurS))
  {
    ShownIffPolled(answers, StillWaiting, maxDurS, missed);
    NotPolled(answers, Answered(answers, maxDurS, 0), missed);
  }

  /**
   * Not every transition has its event: there are a run and polls of it, the first while it plans
   * and the second once it is closed, between which it began to generate code, and the stream of
   * those polls does not show that.
   */
  lemma TransitionMissed(c: Config, plan: Plan, maxDurS: int)
    returns (run: seq<Action>, from: seq<nat>, to: seq<nat>, answers: seq<Response>, k: nat, missed: Response)
    ensures Observed(c, run, from, to, answers) && |answers| == 2 && to[0] < k < from[1] <= |run|
    ensures MayAnswer(c, StateAt(c, INIT, run, k), StateAt(c, INIT, run, k), missed) && missed.stage == "generate_code"
    ensures !IsTerminal(missed) && missed !in Shown(StreamOf(answers, StillWaiting, maxDurS))
  {
    run := PlannedRun(c, plan);
    from, to, k := [1, 6], [1, 6], 5;
    var s, t, u := Begun(), PlanReceived(c, plan), Record(PlanReceived(c, plan), Closed(Terminated));
    PlannedAnswers(c, plan);
    answers := [ResolveStatus(c, s, s, None), ResolveStatus(c, u, u, None)];
    missed := ResolveStatus(c, t, t, None);
    AnswerMayBe(c, s);
    AnswerMayBe(c, t);
    AnswerMayBe(c, u);
    StagesDiffer();
    TwoPolls(c, run, answers);
    NotShown(answers, maxDurS, missed);
  }

  lemma StagesDiffer()
    ensures "plan" != "generate_code"
  {
    assert |"plan"| == 4 && |"generate_code"| == 13;
  }

  lemma NotPolled(answers: seq<Response>, n: nat, r: Response)
    requires n <= |answers| == 2 && answers[0].stage != r.stage && IsTerminal(answers[1])
    ensures !FromOpen(answers, n, r)
  {
  }
}
