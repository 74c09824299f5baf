// From an accepted task to the end of its run: what the generated program means for the sandbox
// activity's size guard, and for the verdict.

module Admission {
  import opened Contracts
  import opened Workflow
  import opened Policies
  import opened Durable
  import opened Bounds
  import opened Responses
  import opened SandboxActivity
  import opened Verdict
  import opened Codegen
  import opened PythonLiteral
  import Supervisor
  import Utf8

  /** The code is the program's text; of the fixed programs only the length is modelled. */
  predicate IsTextOf(g: Generated, code: string) {
    g.Generated? &&
    match g.program
    case Embedding(text) => code == text
    case Fixed(d) => d in FIXED_LENGTH && |code| == FIXED_LENGTH[d]
  }

  /** The plan and generate_code activities recorded what their transforms give; low is the lower-cased task. */
  predicate AgentsRan(inp: RunInput, low: string, h: seq<Outcome>) {
    && (|h| > 0 && h[0].Done? && h[0].value.PlanValue? ==>
          h[0].value.plan.task == inp.task && h[0].value.plan.directive == ParseDirective(low))
    && (|h| > 1 && h[0].Done? && h[0].value.PlanValue? && h[1].Done? && h[1].value.CodeValue? ==>
          IsTextOf(GenerateProgram(h[0].value.plan.directive, h[0].value.plan.task), h[1].value.code))
  }

  /** A sandbox attempt was an execution of the recorded command, and what it reported was recorded. */
  ghost predicate ExecutedAs(s: State, a: Attempt, x: Execution) {
    a.step == SANDBOX ==>
      && |Commands(s.events)| > SANDBOX && Commands(s.events)[SANDBOX] == SandboxCommand(x.args)
      && (a.exit.Some? && Reported(a.exit.value) ==> a.exit.value == x.Outcome())
  }

  /** The sandbox attempts of a run's log were the executions xs. */
  ghost predicate Executed(s: State, xs: seq<Execution>) {
    |xs| == |s.log| && forall i :: 0 <= i < |xs| ==> ExecutedAs(s, s.log[i], xs[i])
  }

  lemma ExecutedRan(s: State, xs: seq<Execution>)
    requires Executed(s, xs)
    ensures Ran(s, xs)
  {
    forall i | 0 <= i < |xs| ensures ProducedBy(s.log[i], xs[i]) {
      assert ExecutedAs(s, s.log[i], xs[i]);
    }
  }

  /** The code of the sandbox command is the program generated for the run's task. */
  lemma CommandedCode(inp: RunInput, low: string, h: seq<Outcome>, args: RunSandboxArgs)
    requires AgentsRan(inp, low, h) && Issues(inp, h, SANDBOX, SandboxCommand(args))
    ensures IsTextOf(GenerateProgram(ParseDirective(low), inp.task), args.code)
  {
    var p := h[..SANDBOX];
    AtMostFour(inp, p);
    assert p[..1] == h[..1];
    AfterCode(inp, p);
  }

  lemma ExecutedCode(c: Config, run: seq<Action>, low: string, xs: seq<Execution>, i: nat)
    requires IsRun(c, INIT, run) && Executed(Final(c, INIT, run), xs)
    requires AgentsRan(c.inp, low, Outcomes(Final(c, INIT, run).events))
    requires i < |xs| && Final(c, INIT, run).log[i].step == SANDBOX
    ensures IsTextOf(GenerateProgram(ParseDirective(low), c.inp.task), xs[i].args.code)
  {
    var s := Final(c, INIT, run);
    InvInit(c);
    InvRun(c, INIT, run);
    assert ExecutedAs(s, s.log[i], xs[i]);
    assert Issues(c.inp, Outcomes(s.events), SANDBOX, Commands(s.events)[SANDBOX]);
    CommandedCode(c.inp, low, Outcomes(s.events), xs[i].args);
  }

  lemma WithinCeiling(g: Generated, code: string, args: RunSandboxArgs, w: Surroundings)
    requires IsTextOf(g, code) && args.code == code && Size(g.program) <= w.maxCodeBytes
    ensures ActivityExit(args, w) != Errored(TOO_LARGE)
  {
    assert |args.code| <= w.maxCodeBytes;
    NeverTooLarge(args, w);
  }

  /** PayloadTooLarge is the size guard's alone. */
  lemma NeverTooLarge(args: RunSandboxArgs, w: Surroundings)
    ensures ActivityExit(args, w) == Errored(TOO_LARGE) <==> |args.code| > w.maxCodeBytes
  {
  }

  /**
   * No attempt of any run of an accepted task ever ends in PayloadTooLarge, whatever directive the
   * task names, when the code ceiling leaves room for six characters a byte.
   */
  lemma AcceptedNeverTooLarge(c: Config, run: seq<Action>, low: string, xs: seq<Execution>, i: nat, maxTaskBytes: nat)
    requires IsRun(c, INIT, run) && Executed(Final(c, INIT, run), xs)
    requires AgentsRan(c.inp, low, Outcomes(Final(c, INIT, run).events))
    requires i < |xs| && Final(c, INIT, run).log[i].step == SANDBOX
    requires |Utf8.Encode(c.inp.task)| <= maxTaskBytes && 6 * maxTaskBytes + LONGEST_FIXED <= xs[i].w.maxCodeBytes
    ensures Final(c, INIT, run).log[i].exit != Some(Errored(TOO_LARGE))
  {
    var s := Final(c, INIT, run);
    ExecutedCode(c, run, low, xs, i);
    AcceptedTaskFits(low, c.inp.task, maxTaskBytes, xs[i].w.maxCodeBytes);
    WithinCeiling(GenerateProgram(ParseDirective(low), c.inp.task), xs[i].args.code, xs[i].args, xs[i].w);
    assert ExecutedAs(s, s.log[i], xs[i]);
  }

  /**
   * What is assumed of Python: a normal program whose TASK.encode() raises does not exit with 0,
   * since nothing in it catches the exception.
   */
  predicate ObeysPython(x: Execution) {
    var code := x.args.code;
    HEAD <= code && ReadLiteral(code[|HEAD|..]).Read? && ReadLiteral(code[|HEAD|..]).rest == TAIL
      && EncodeStrict(ReadLiteral(code[|HEAD|..]).codes) == EncodeError
    ==> x.Ending() != Supervisor.Exited(0)
  }

  /** The task has a character above U+FFFF. */
  predicate HasAstral(task: string) {
    exists k :: 0 <= k < |task| && task[k] as int > 0xFFFF
  }

  lemma SurrogatesFail(task: string, x: Execution)
    requires HasAstral(task)
    requires IsTextOf(GenerateProgram("normal", task), x.args.code) && ObeysPython(x)
    ensures x.Ending() != Supervisor.Exited(0)
  {
    TaskLiteralReadsBack(task);
    TaskEncodesIff(task);
    var text := GenerateProgram("normal", task).program.text;
    assert text[..|HEAD|] == HEAD;
  }

  lemma NoZeroExit(c: Config, run: seq<Action>, low: string, xs: seq<Execution>, i: nat)
    requires IsRun(c, INIT, run) && Executed(Final(c, INIT, run), xs) && i < |xs| && ObeysPython(xs[i])
    requires AgentsRan(c.inp, low, Outcomes(Final(c, INIT, run).events))
    requires ParseDirective(low) == "normal" && HasAstral(c.inp.task)
    ensures !ExitedWithZero(Final(c, INIT, run), xs, i)
  {
    if Final(c, INIT, run).log[i].step == SANDBOX {
      ExecutedCode(c, run, low, xs, i);
      SurrogatesFail(c.inp.task, xs[i]);
    }
  }

  /**
   * A task that names no directive and has a character above U+FFFF is accepted, and its run never
   * reported as COMPLETED: its own program cannot encode it.
   */
  lemma SurrogatesNeverComplete(c: Config, run: seq<Action>, low: string, xs: seq<Execution>, t: State, cause: Option<string>)
    requires IsRun(c, INIT, run) && Executed(Final(c, INIT, run), xs) && forall x :: x in xs ==> ObeysPython(x)
    requires AgentsRan(c.inp, low, Outcomes(Final(c, INIT, run).events))
    requires ParseDirective(low) == "normal" && HasAstral(c.inp.task)
    requires IsClosed(Final(c, INIT, run)) || Queryable(c, t)
    ensures ResolveStatus(c, Final(c, INIT, run), t, cause).status != COMPLETED
  {
    var s := Final(c, INIT, run);
    forall i | 0 <= i < |xs| ensures !ExitedWithZero(s, xs, i) {
      assert xs[i] in xs;
      NoZeroExit(c, run, low, xs, i);
    }
    ExecutedRan(s, xs);
    CompletedIff(c, run, xs, t, cause);
  }
}
