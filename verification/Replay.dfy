// What replay and crashes mean for a run: replaying any prefix of its history rebuilds the
// workflow as it then was, and crashing the worker any number of times changes nothing but who
// holds the cached workflow.

module Replay {
  import opened Contracts
  import opened Workflow
  import opened Durable

  // ---- histories only grow, and replay of a prefix is the past ------------------------------

  lemma {:induction false} HistoryGrows(c: Config, s: State, run: seq<Action>)
    requires IsRun(c, s, run)
    ensures s.events <= Final(c, s, run).events
    decreases |run|
  {
    if run != [] {
      HistoryGrows(c, Apply(c, s, run[0]), run[1..]);
    }
  }

  lemma {:induction false} ProjectionsOfPrefix(es: seq<Event>, k: nat)
    requires k <= |es|
    ensures Outcomes(es[..k]) <= Outcomes(es) && Commands(es[..k]) <= Commands(es)
    decreases |es| - k
  {
    if k == |es| {
      assert es[..k] == es;
    } else {
      ProjectionsOfPrefix(es, k + 1);
      assert es[..k + 1][..k] == es[..k];
    }
  }

  /** Every prefix of a reachable history is itself a history the workflow can be replayed on. */
  lemma PrefixReplayable(c: Config, s: State, k: nat)
    requires Inv(c, s) && k <= |s.events|
    ensures var p, h := s.events[..k], Outcomes(s.events);
            && Recorded(c.inp, Outcomes(p)) && Outcomes(p) <= h
            && forall i :: 0 <= i < |Commands(p)| && i <= |Outcomes(p)| ==> Issues(c.inp, Outcomes(p), i, Commands(p)[i])
  {
    var p, h := s.events[..k], Outcomes(s.events);
    ProjectionsOfPrefix(s.events, k);
    assert h[..|Outcomes(p)|] == Outcomes(p);
    RecordedPrefix(c.inp, h, |Outcomes(p)|);
    forall i | 0 <= i < |Commands(p)| && i <= |Outcomes(p)| ensures Issues(c.inp, Outcomes(p), i, Commands(p)[i]) {
      assert Issues(c.inp, h, i, Commands(s.events)[i]);
      assert Outcomes(p)[..i] == h[..i];
    }
  }

  /** In a recorded history commands and outcomes alternate. */
  ghost predicate Alternates(es: seq<Event>) {
    |Outcomes(es)| <= |Commands(es)| <= |Outcomes(es)| + 1
  }

  /** A step records at most one event. */
  lemma OneEvent(c: Config, s: State, a: Action)
    requires Enabled(c, s, a)
    ensures var t := Apply(c, s, a);
            t.events == s.events || (|t.events| == |s.events| + 1 && t.events[..|s.events|] == s.events)
  {
  }

  lemma {:induction false} RunAlternates(c: Config, s: State, run: seq<Action>)
    requires Inv(c, s) && IsRun(c, s, run)
    requires forall k :: 0 <= k <= |s.events| ==> Alternates(s.events[..k])
    ensures var es := Final(c, s, run).events; forall k :: 0 <= k <= |es| ==> Alternates(es[..k])
    decreases |run|
  {
    if run != [] {
      var t := Apply(c, s, run[0]);
      InvStep(c, s, run[0]);
      OneEvent(c, s, run[0]);
      AlternatesExtended(c, s, t);
      RunAlternates(c, t, run[1..]);
      assert Final(c, s, run) == Final(c, t, run[1..]);
    }
  }

  lemma AlternatesExtended(c: Config, s: State, t: State)
    requires HistoryOk(c, t)
    requires t.events == s.events || (|t.events| == |s.events| + 1 && t.events[..|s.events|] == s.events)
    requires forall k :: 0 <= k <= |s.events| ==> Alternates(s.events[..k])
    ensures forall k :: 0 <= k <= |t.events| ==> Alternates(t.events[..k])
  {
    forall k | 0 <= k <= |t.events| ensures Alternates(t.events[..k]) {
      if k == |t.events| {
        assert t.events[..k] == t.events;
      } else {
        assert t.events[..k] == s.events[..k];
      }
    }
  }

  /** The k-th command is issued in one way only, and after the whole of h it is the pending one. */
  lemma IssuesOne(inp: RunInput, h: seq<Outcome>, k: nat, a: Command, b: Command)
    requires Issues(inp, h, k, a) && Issues(inp, h, k, b)
    ensures a == b
  {
  }

  lemma IssuesLast(inp: RunInput, h: seq<Outcome>, a: Command)
    requires Recorded(inp, h) && Issues(inp, h, |h|, a)
    ensures !After(inp, h).control.Ended? && a == Pending(inp, After(inp, h))
  {
    assert h[..|h|] == h;
  }

  ghost predicate AllIssued(inp: RunInput, h: seq<Outcome>, cs: seq<Command>) {
    forall i :: 0 <= i < |cs| ==> Issues(inp, h, i, cs[i])
  }

  lemma OneIsPrefix(inp: RunInput, h: seq<Outcome>, cs: seq<Command>, ds: seq<Command>)
    requires AllIssued(inp, h, cs) && AllIssued(inp, h, ds) && |cs| <= |ds|
    ensures ds[..|cs|] == cs
  {
    forall i | 0 <= i < |cs| ensures cs[i] == ds[i] {
      IssuesOne(inp, h, i, cs[i], ds[i]);
    }
  }

  lemma LastIssued(inp: RunInput, h: seq<Outcome>, cs: seq<Command>)
    requires Recorded(inp, h) && AllIssued(inp, h, cs) && |cs| == |h| + 1
    ensures !After(inp, h).control.Ended? && cs[|h|] == Pending(inp, After(inp, h))
  {
    IssuesLast(inp, h, cs[|h|]);
  }

  /** Commands issued on replay of h are the recorded ones, and perhaps the one pending after h. */
  lemma Reissued(inp: RunInput, h: seq<Outcome>, recorded: seq<Command>, issued: seq<Command>)
    requires Recorded(inp, h) && |h| <= |recorded| <= |h| + 1
    requires AllIssued(inp, h, recorded) && AllIssued(inp, h, issued)
    requires |issued| == if After(inp, h).control.Ended? then |h| else |h| + 1
    ensures |recorded| <= |issued| <= |recorded| + 1 && issued[..|recorded|] == recorded
    ensures |issued| > |recorded| ==> !After(inp, h).control.Ended? && issued[|recorded|] == Pending(inp, After(inp, h))
  {
    if |recorded| > |h| {
      LastIssued(inp, h, recorded);
    }
    OneIsPrefix(inp, h, recorded, issued);
    if |issued| > |recorded| {
      LastIssued(inp, h, issued);
    }
  }

  lemma PrefixAndLast<T>(a: seq<T>, b: seq<T>)
    requires |a| <= |b| <= |a| + 1 && b[..|a|] == a
    ensures if |b| == |a| then b == a else b == a + [b[|a|]]
  {
  }

  /**
   * Rebuilding a worker.  Executing the workflow object from the top on any prefix of the
   * history of any run gives the live workflow's stage and steps at that point; every command it
   * re-issues while the history still holds one is the recorded command, and it issues at most
   * one more, the one the live workflow was then about to issue.
   */
  method RebuildWorker(c: Config, run: seq<Action>, k: nat) returns (wf: AgentPipelineWorkflow, r: Progress<RunResult>)
    requires IsRun(c, INIT, run) && k <= |Final(c, INIT, run).events|
    ensures var p := Final(c, INIT, run).events[..k];
            && Recorded(c.inp, Outcomes(p))
            && wf.stage == After(c.inp, Outcomes(p)).stage
            && wf.Views() == After(c.inp, Outcomes(p)).steps
            && (r.Suspends? <==> !After(c.inp, Outcomes(p)).control.Ended?)
            && (r.Value? ==> After(c.inp, Outcomes(p)).control == Ended(Exit.Returned(r.value)))
            && (r.Exits? ==> After(c.inp, Outcomes(p)).control == Ended(r.exit))
            && (wf.commands == Commands(p)
                || (r.Suspends? && wf.commands == Commands(p) + [Pending(c.inp, After(c.inp, Outcomes(p)))]))
  {
    var s := Final(c, INIT, run);
    InvInit(c);
    InvRun(c, INIT, run);
    RunAlternates(c, INIT, run);
    PrefixReplayable(c, s, k);
    var p := s.events[..k];
    wf := new AgentPipelineWorkflow(c.inp, Outcomes(p));
    r := wf.Run();
    assert Alternates(p);
    Reissued(c.inp, Outcomes(p), Commands(p), wf.commands);
    PrefixAndLast(Commands(p), wf.commands);
  }

  lemma RunAppend(c: Config, s: State, a: Action, run: seq<Action>)
    requires Enabled(c, s, a) && IsRun(c, Apply(c, s, a), run)
    ensures IsRun(c, s, [a] + run) && Final(c, s, [a] + run) == Final(c, Apply(c, s, a), run)
  {
    assert ([a] + run)[1..] == run;
  }

  /** Of a run of at least one step, its first step and the rest. */
  lemma RunStep(c: Config, s: State, run: seq<Action>)
    requires IsRun(c, s, run) && run != []
    ensures Enabled(c, s, run[0]) && IsRun(c, Apply(c, s, run[0]), run[1..])
    ensures Final(c, s, run) == Final(c, Apply(c, s, run[0]), run[1..])
  {
  }

  /** A run, and the two parts it is cut into. */
  ghost predicate Splits(c: Config, s: State, first: seq<Action>, second: seq<Action>, last: State) {
    && IsRun(c, s, first) && IsRun(c, Final(c, s, first), second)
    && Final(c, Final(c, s, first), second) == last
  }

  lemma SplitsAppend(c: Config, s: State, a: Action, first: seq<Action>, second: seq<Action>, last: State)
    requires Enabled(c, s, a) && Splits(c, Apply(c, s, a), first, second, last)
    ensures Splits(c, s, [a] + first, second, last)
  {
    RunAppend(c, s, a, first);
  }

  lemma {:induction false} RunSplits(c: Config, s: State, first: seq<Action>, second: seq<Action>, run: seq<Action>)
    requires run == first + second && IsRun(c, s, run)
    ensures Splits(c, s, first, second, Final(c, s, run))
    decreases |first|
  {
    if first == [] {
      assert run == second;
    } else {
      var a, rest := first[0], first[1..];
      assert run[0] == a && run[1..] == rest + second && [a] + rest == first;
      RunStep(c, s, run);
      RunSplits(c, Apply(c, s, a), rest, second, run[1..]);
      SplitsAppend(c, s, a, rest, second, Final(c, s, run));
    }
  }

  /**
   * The workflow cached at any moment of a run, once up to date, is what replaying the
   * corresponding prefix of the final history gives.
   */
  lemma PastIsReplayed(c: Config, run: seq<Action>, k: nat)
    requires IsRun(c, INIT, run) && k <= |run|
    requires IsRun(c, INIT, run[..k])
    ensures var past, es := Final(c, INIT, run[..k]), Final(c, INIT, run).events;
            && |past.events| <= |es| && es[..|past.events|] == past.events
            && Recorded(c.inp, Outcomes(past.events))
            && (past.worker.Up? && past.worker.seen == Current(past) ==>
                  past.worker.live == After(c.inp, Outcomes(es[..|past.events|])))
  {
    RunSplits(c, INIT, run[..k], run[k..], run);
    var past := Final(c, INIT, run[..k]);
    HistoryGrows(c, past, run[k..]);
    InvInit(c);
    InvRun(c, INIT, run[..k]);
    var h := Outcomes(past.events);
    assert h[..|h|] == h;
  }

  // ---- crashes are invisible --------------------------------------------------------------

  /** The state of a machine whose worker never crashes and never lags. */
  function Sync(c: Config, s: State): State
    requires Recorded(c.inp, Outcomes(s.events))
  {
    s.(worker := Up(After(c.inp, Outcomes(s.events)), Current(s)))
  }

  predicate WorkerOnly(a: Action) {
    a.Rebuild? || a.Deliver? || a.Crash?
  }

  /** The same run on a worker that never crashes: what it records is delivered at once. */
  function Uncrashed(c: Config, s: State, run: seq<Action>): seq<Action>
    requires IsRun(c, s, run)
    decreases |run|
  {
    if run == [] then [] else
      var t := Apply(c, s, run[0]);
      var rest := Uncrashed(c, t, run[1..]);
      if WorkerOnly(run[0]) then rest
      else if Current(t) > Current(s) then [run[0]] + ([Deliver] + rest)
      else [run[0]] + rest
  }

  /** What the environment does on its own does not look at the worker. */
  lemma WorkerIrrelevant(c: Config, s: State, w: Worker, a: Action)
    requires Enabled(c, s, a) && !WorkerOnly(a) && !a.Dispatch? && !a.Close?
    ensures Enabled(c, s.(worker := w), a)
    ensures Apply(c, s.(worker := w), a) == Apply(c, s, a).(worker := w)
  {
  }

  /** A worker that dispatches or closes is up to date already. */
  lemma UpToDate(c: Config, s: State, a: Action)
    requires WorkerOk(c, s) && Enabled(c, s, a) && (a.Dispatch? || a.Close?)
    ensures Recorded(c.inp, Outcomes(s.events)) && Sync(c, s) == s
    ensures Apply(c, s, a).worker == s.worker
  {
    var h := Outcomes(s.events);
    assert h[..|h|] == h;
  }

  /** Steps other than the worker's own do not look at how far the worker has got. */
  lemma SyncCommutes(c: Config, s: State, a: Action)
    requires Inv(c, s) && Enabled(c, s, a) && !WorkerOnly(a)
    ensures Enabled(c, Sync(c, s), a)
    ensures Apply(c, Sync(c, s), a) == Apply(c, s, a).(worker := Sync(c, s).worker)
  {
    if a.Dispatch? || a.Close? {
      UpToDate(c, s, a);
    } else {
      WorkerIrrelevant(c, s, Sync(c, s).worker, a);
    }
  }

  /** A step records no outcome, or one. */
  lemma OneOutcome(c: Config, s: State, a: Action)
    requires Enabled(c, s, a)
    ensures var h, h' := Outcomes(s.events), Outcomes(Apply(c, s, a).events);
            h' == h || (|h'| == |h| + 1 && h'[..|h|] == h)
  {
    OneEvent(c, s, a);
    var t := Apply(c, s, a);
    if t.events != s.events {
      var e := t.events[|s.events|];
      assert t.events == s.events + [e];
      RecordFacts(s, e);
    }
  }

  /** An outcome the worker has yet to receive can be delivered unless the run closed with it. */
  lemma DeliverSyncs(c: Config, s: State, t: State)
    requires Inv(c, s) && Inv(c, t) && !IsClosed(t)
    requires var h, h' := Outcomes(s.events), Outcomes(t.events); |h'| == |h| + 1 && h'[..|h|] == h
    ensures var u := t.(worker := Sync(c, s).worker); Enabled(c, u, Deliver) && Apply(c, u, Deliver) == Sync(c, t)
  {
    var h, h' := Outcomes(s.events), Outcomes(t.events);
    RecordedPrefix(c.inp, h', |h|);
    assert h'[..|h| + 1] == h';
  }

  lemma SettledIsOpen(c: Config, s: State, a: Action)
    requires Enabled(c, s, a) && Current(Apply(c, s, a)) > Current(s)
    ensures !IsClosed(Apply(c, s, a))
  {
    OneEvent(c, s, a);
    var t := Apply(c, s, a);
    if t.events != s.events {
      var e := t.events[|s.events|];
      assert t.events == s.events + [e];
      RecordFacts(s, e);
    }
  }

  /** One step of the crashing machine is one step of the other, then a delivery if it settled something. */
  lemma SyncStep(c: Config, s: State, a: Action)
    requires Inv(c, s) && Enabled(c, s, a) && !WorkerOnly(a)
    ensures var t := Apply(c, s, a);
            && Inv(c, t) && Enabled(c, Sync(c, s), a)
            && var u := Apply(c, Sync(c, s), a);
               if Current(t) > Current(s) then Enabled(c, u, Deliver) && Apply(c, u, Deliver) == Sync(c, t)
               else u == Sync(c, t)
  {
    var t := Apply(c, s, a);
    InvStep(c, s, a);
    SyncCommutes(c, s, a);
    OneOutcome(c, s, a);
    if Current(t) > Current(s) {
      SettledIsOpen(c, s, a);
      DeliverSyncs(c, s, t);
    }
  }

  /** The run u takes the machine in step with s to the one in step with t, without a crash. */
  ghost predicate Shadows(c: Config, s: State, t: State, u: seq<Action>)
    requires Recorded(c.inp, Outcomes(s.events)) && Recorded(c.inp, Outcomes(t.events))
  {
    && IsRun(c, Sync(c, s), u) && Final(c, Sync(c, s), u) == Sync(c, t)
    && forall a :: a in u ==> !a.Crash?
  }

  lemma ShadowAppend(c: Config, s: State, a: Action, u: State, last: State, rest: seq<Action>)
    requires Recorded(c.inp, Outcomes(s.events)) && Recorded(c.inp, Outcomes(last.events))
    requires Enabled(c, Sync(c, s), a) && Apply(c, Sync(c, s), a) == u && !a.Crash?
    requires IsRun(c, u, rest) && Final(c, u, rest) == Sync(c, last) && forall b :: b in rest ==> !b.Crash?
    ensures Shadows(c, s, last, [a] + rest)
  {
    RunAppend(c, Sync(c, s), a, rest);
  }

  lemma ShadowStep(c: Config, s: State, a: Action, last: State, rest: seq<Action>)
    requires Inv(c, s) && Enabled(c, s, a) && !WorkerOnly(a)
    requires Recorded(c.inp, Outcomes(Apply(c, s, a).events)) && Recorded(c.inp, Outcomes(last.events))
    requires Shadows(c, Apply(c, s, a), last, rest)
    ensures Current(Apply(c, s, a)) > Current(s) ==> Shadows(c, s, last, [a] + ([Deliver] + rest))
    ensures Current(Apply(c, s, a)) <= Current(s) ==> Shadows(c, s, last, [a] + rest)
  {
    SyncStep(c, s, a);
    var u := Apply(c, Sync(c, s), a);
    if Current(Apply(c, s, a)) > Current(s) {
      RunAppend(c, u, Deliver, rest);
      ShadowAppend(c, s, a, u, last, [Deliver] + rest);
    } else {
      ShadowAppend(c, s, a, u, last, rest);
    }
  }

  lemma {:induction false} UncrashedRuns(c: Config, s: State, run: seq<Action>)
    requires Inv(c, s) && IsRun(c, s, run)
    ensures Inv(c, Final(c, s, run)) && Shadows(c, s, Final(c, s, run), Uncrashed(c, s, run))
    decreases |run|
  {
    InvRun(c, s, run);
    if run != [] {
      var a, t := run[0], Apply(c, s, run[0]);
      InvStep(c, s, a);
      UncrashedRuns(c, t, run[1..]);
      if WorkerOnly(a) {
        assert Sync(c, t) == Sync(c, s);
      } else {
        ShadowStep(c, s, a, Final(c, s, run), Uncrashed(c, t, run[1..]));
      }
    }
  }

  /**
   * For every run, with any number of crashes and redeliveries, there is a run without a crash
   * that records the same history, so with the same commands, outcomes and result, makes the
   * same attempts and takes the same time.
   */
  lemma CrashesInvisible(c: Config, run: seq<Action>) returns (run': seq<Action>)
    requires IsRun(c, INIT, run)
    ensures IsRun(c, INIT, run')
    ensures forall a :: a in run' ==> !a.Crash?
    ensures var s, t := Final(c, INIT, run), Final(c, INIT, run');
            t.(worker := s.worker) == s
  {
    InvInit(c);
    UncrashedRuns(c, INIT, run);
    var u := Uncrashed(c, INIT, run);
    assert Apply(c, INIT, Rebuild) == Sync(c, INIT);
    RunAppend(c, INIT, Rebuild, u);
    run' := [Rebuild] + u;
  }

  /** Two runs of one input that the workflow ended on the same outcomes ended the same way. */
  lemma ResultIsDetermined(c: Config, c': Config, run: seq<Action>, run': seq<Action>)
    requires c.inp == c'.inp
    requires IsRun(c, INIT, run) && IsRun(c', INIT, run')
    requires IsClosed(Final(c, INIT, run)) && ClosureOf(Final(c, INIT, run)).ByWorkflow?
    requires IsClosed(Final(c', INIT, run')) && ClosureOf(Final(c', INIT, run')).ByWorkflow?
    requires Outcomes(Final(c, INIT, run).events) == Outcomes(Final(c', INIT, run').events)
    ensures ClosureOf(Final(c, INIT, run)) == ClosureOf(Final(c', INIT, run'))
  {
    InvInit(c);
    InvInit(c');
    InvRun(c, INIT, run);
    InvRun(c', INIT, run');
  }
}
