# A verified model of the agent-sandbox run protocol

The service accepts a task over HTTP, runs a four-step pipeline (plan, generate code, run it in a
sandbox, summarize) as a Temporal workflow, and streams the run's status to the client.  This
project models one run from submission to its last event and proves what the design relies on:
replay rebuilds the workflow exactly, every run ends, a sandbox execution decides the verdict once,
a container outlives its attempt exactly when no kill made for it took effect, the stream shows a run
advancing and nothing else, every answer is the one the run's history calls for, what a client reads
back from the stream's text is what was answered, and a submission is answered with its own run.

`dafny verify dfyconfig.toml` checks everything.

## How it is organised

- `Workflow` is the workflow object, `AgentPipelineWorkflow`, executed from the top against recorded
  outcomes (which is how Temporal replays it), and `After`, the same workflow seen live, one outcome
  at a time.  The contract of `Run` is that the two agree.
- `Durable` is Temporal as a step relation: a growing history, one activity in flight, a worker
  whose cached workflow can be lost at any moment, and an environment that starts, fails, times
  out, retries, cancels, crashes and terminates as it likes.  `Inv` holds in every reachable state.
  `Replay` and `Bounds` are about all runs of it, and `Issued` says what is sent to the activities;
  `Policies` holds the retry policies and budgets.
- `Supervisor` and `SandboxActivity` are the gVisor runner and the activity around it, against an
  adversary that scripts process exits, late wake-ups, drains, kills and cancellations; given the
  script, the outcome, the time and the containers left are functions of it.  `Attempts` sets such
  attempts against Temporal's timeouts and retries, and `FailClosed` says what may launch, and what
  a refusal means for the rest of its run.  `CappedReader` is the bounded output reader,
  `Utf8` its decoding with replacement.
- `Responses`, `Verdict`, `Answers`, `Stream` and `RunStream` are what the API answers about a run, and
  the status stream; `MissedTransition` is a stream that misses one.  `EventStream`, `Json`,
  `JsonString` and `Decimal` are its text, `JsonReader` reads JSON, and `Client` puts the two readers together.
- `Codegen` and `PythonLiteral` embed the task in a Python program and read it back; `Admission`
  says what that program means for the sandbox activity and the verdict.
- `Submission` is idempotent creation of runs, `Replies` says which submission gets which reply, and
  `EndToEnd` leads from a success to the executions of the run it names.
- `Contracts` holds the values they share, `Basics` a few common definitions.

## Reading the claims

What the environment is assumed to do: recorded events persist; an activity completes with a value
of its declared type; retry limits and the non-retryable list are respected; an activity ends as
cancelled only after cancellation was requested; a workflow id once used is not forgotten.  The
heartbeat timeout counts from an attempt's start, from each heartbeat as it is made, and up to its
report; a report at the very end of a timeout is in time.
`docker rm -f` removes the container when it succeeds, and may or may not have when it fails, times
out or is cancelled; `--rm` removes the container when the process exits.  Times are seconds in
`Durable`, milliseconds in `Supervisor`, tenths of a second in `Stream`.

Where the code and its documentation differ, the model follows the code:

- The repository's README (line 62) says a worker without the runtime refuses to start.  The check
  is the preflight of each attempt, which fails as a policy violation.
- It says (lines 140-141) that the activity raises, and is retried, only when the container could
  not be launched.  Exactly when it is, is `SandboxActivity.RetriedIff`, and what becomes of an exit
  is `SandboxActivity.ProcessExitIs`: a launched process that exits 125 after printing "docker:" is
  retried (`Attempts.UserExitIsRetried`, `Attempts.DockerIsSuchAText`).
- It says (line 133) that a failed launch is retried.  One whose message names the runtime is taken
  for a policy violation and is not: `Attempts.NamedRuntimeIsNotRetried`.
- It says (line 100) that there is a step event for each transition.  The stream polls: an answer of
  the open run is shown exactly when a poll got it (`RunStream.ShownIffPolled`), and what happens
  between two polls is not (`MissedTransition.TransitionMissed`).
- It says (lines 144-145) that the wall-clock limit sits inside the start-to-close timeout.  An attempt
  also spends time on the preflight, the image digest, a kill and two drains, and it is silent except
  for the heartbeats of the watch, whose interval is itself the heartbeat timeout.  With nothing late,
  every result counts exactly under the settings of `Attempts.OutcomesSurviveIff`, which the defaults
  are not: 80 s can pass where 60 are allowed (`Attempts.DeadlineOutcomeIsLost`), and code that
  outlives its first interval loses its outcome as soon as anything before took time
  (`Attempts.FirstIntervalLosesOutcome`).  Temporal then retries code whose outcome was final
  (`Attempts.DeadlineOutcomeIsRetried`, with an attempt of 32 s).
- A kill's result is ignored, so a result can be returned while the container lives on: exactly when
  is `SandboxActivity.ResultLeavesContainer`, and `Attempts.ContainerCanBeLeft` is an execution.
- A poll first describes the run and then queries it, so a run that closes in between is reported
  as RUNNING with the steps of its end; `Responses.ResolveStatus` takes both states.
- Whether a reused key is detected depends on reading the memo (`memoReadable`).  The conflict results
  hold for any pattern of readable and unreadable memos.  The client library is not part of this
  model: if the pinned one (temporalio 1.9.0) does not offer `memo` as a mapping, as
  app/api/routes_runs.py:169 takes it to be, then every reading fails, no 409 is ever answered
  (`Submission.ConflictMeansDifferent`), and a reused key always gets the first run, whatever its task
  (`Submission.UnreadMemoHidesConflict`).

Results that say where a plausible claim fails: `CappedReader.FlagMeansDropped` (negative limit),
`Supervisor.UnflaggedMeansComplete` (a drain that times out), `Bounds.NoLimitNoEnd`
(`max_attempts = 0`), `Codegen.TaskLiteralIsTask` and `Codegen.TaskEncodesIff` (characters above U+FFFF),
`Submission.UnreadMemoHidesConflict` (a memo that cannot be read), `Attempts.DeadlineOutcomeIsLost` (the
default timeouts).

## Model

| member | source | states |
|---|---|---|
| `Workflow.AgentPipelineWorkflow.Run` | app/temporal/workflows.py:35-58 | given any recorded history, executing the coroutine from the top consumes it exactly, rebuilds the live workflow's stage and steps, issues the live workflow's commands in order, and suspends or ends exactly as it does |
| `Workflow.AgentPipelineWorkflow.Conclude` | app/temporal/workflows.py:46-58 | the tail of the coroutine: a result that is not ok ends the run as failed with its reason and no summary; an ok one is summarized and completes it |
| `Workflow.AgentPipelineWorkflow.Step` | app/temporal/workflows.py:68-84 | one agent step: exactly one command; the new step is left running, completed or failed by how the await ends, a bare cancellation leaving it running |
| `Workflow.AgentPipelineWorkflow.RunSandbox` | app/temporal/workflows.py:86-113 | the sandbox step: failed with the result's reason when the result is not ok, failed without one when the activity raised |
| `Workflow.AgentPipelineWorkflow.Status` | app/temporal/workflows.py:60-65 | the query returns the stage and a copy of all steps and changes nothing |
| `Workflow.RecordedPrefix` | app/temporal/workflows.py:36-58 | every prefix of a recorded history is recorded, and the next outcome answers the command pending after it |
| `Workflow.AfterSandbox` | app/temporal/workflows.py:44-58 | after the sandbox outcome the workflow is summarizing if the result is ok, and otherwise has ended as failed with the result's reason |
| `Workflow.AfterSummary` | app/temporal/workflows.py:53-58 | a completed run had an ok sandbox result, all four steps completed, and carries that result, code and summary |
| `Issued.RecordedCommands` | app/temporal/workflows.py:36-105 | in every run the recorded commands are at most four: plan with the run's task, generate_code with the recorded plan, run_sandbox with the run's id, tenant, limits and runtime and the recorded code, summarize with the recorded plan and sandbox result |
| `Contracts.ReasonNamesOneCause` | app/contracts.py:74-86 | results that failed have equal reasons exactly when they failed for the same cause, deadline before memory kill before exit code, with the same code |
| `Durable.InvStep` | app/temporal/workflows.py:68-113 | every step the environment can take keeps the invariant: recorded commands are the replayed ones, the cached workflow is the live one, attempts agree with the history |
| `Durable.InvRun` | app/temporal/workflows.py:36-58 | so the invariant holds in every reachable state |
| `Replay.RebuildWorker` | app/temporal/workflows.py:31-58 | on any prefix of any run's history the workflow object rebuilds the stage and steps of that moment, ends or raises as the live workflow did, and re-issues the recorded commands and, if it suspends before the next was recorded, the one the live workflow was about to issue |
| `Replay.PastIsReplayed` | app/temporal/workflows.py:31-58 | the workflow cached at any earlier moment of a run is what replaying that prefix of the final history gives |
| `Replay.CrashesInvisible` | app/temporal/workflows.py:36-58 | for every run with any crashes there is a run without one that records the same history, makes the same attempts, takes the same time and ends the same way |
| `Replay.ResultIsDetermined` | app/temporal/workflows.py:36-58 | two runs of one input that the workflow ended on the same outcomes ended with the same result |
| `Bounds.LaterAttemptsAreRetries` | app/temporal/policies.py:16-29 | of two attempts of one activity the earlier raised something its policy retries, and no number exceeds the limit |
| `Bounds.NothingFollowsAnEnd` | app/temporal/policies.py:23-29 | nothing of an activity is attempted after a result, a policy violation (bare or wrapped) or an oversized payload |
| `Bounds.AttemptsBounded` | app/temporal/policies.py:16-29 | each activity is attempted at most max_attempts times in any run |
| `Bounds.UnretriedFailureIsLast` | app/temporal/workflows.py:82-108 | an attempt of any activity that raised and was not retried is the last attempt of its run: its failure is the last outcome, and the workflow has ended on it |
| `Bounds.FailureRetriedOrRecorded` | app/temporal/policies.py:16-29 | an attempt that fails is retried exactly while attempts remain and its failure is not final, and is otherwise the outcome of its activity; for an agent only an error marked so, a cancellation and a missing worker are final |
| `Bounds.MeasureStep` | app/temporal/workflows.py:36-58 | a measure of what is left falls at every step but a crash, which raises it by at most five |
| `Bounds.RunsAreBounded` | app/temporal/policies.py:16-35 | a run has at most 10 * max_attempts + 25 steps, and six more for each crash |
| `Bounds.NeverStuck` | app/temporal/workflows.py:36-58 | an open run can always take a step other than a crash or a cancellation |
| `Bounds.NoLimitNoEnd` | app/temporal/policies.py:20 | with no attempt limit there are open runs with any number of attempts |
| `Bounds.RunTime` | app/temporal/policies.py:16-35 | a run takes at most its budget of execution and backoff plus the time it waited |
| `Bounds.TimeoutMeansWaiting` | app/temporal/policies.py:31-35 | the run timeout fires only on a run that waited for longer than the timeout exceeds the budget, at the defaults 18 s |
| `Policies.BackoffGeometric` | app/temporal/policies.py:16-29 | the delays of n attempts sum to at most initial * (2^(n-1) - 1), and to exactly that below the cap |
| `Policies.BackoffCapped` | app/temporal/policies.py:16-29 | the delays of n attempts sum to at most n - 1 caps |
| `Policies.DelayDoubles` | app/temporal/policies.py:16-29 | the first delay is 1 s and each is twice the one before it, up to 10 s for an agent and 20 s for the sandbox |
| `Policies.DefaultRunBudget` | app/config.py:24-32 | at the defaults a run executes and backs off for at most 282 s |
| `Supervisor.HasSignatureIff` | app/sandbox/gvisor.py:218 | the search for a launch signature finds one exactly when the text contains one |
| `Supervisor.ClassifyIs` | app/sandbox/gvisor.py:213-222 | an exit passes as a result exactly when its code is no launch code or the text has no launch signature; otherwise it is put down to the runtime exactly when the text names it, and to the launch when it does not |
| `Supervisor.ContainerNamesDiffer` | app/sandbox/gvisor.py:85-88 | container names agree exactly when run digest and attempt number do |
| `Supervisor.UnflaggedMeansComplete` | app/sandbox/gvisor.py:224-230 | an output not flagged as truncated is complete exactly when its drain finished or there was none |
| `Supervisor.GvisorRunner.KillContainer` | app/sandbox/gvisor.py:232-234 | a kill that fails or times out returns as one that succeeds does; it touches no other container, and removes this one exactly when it takes effect |
| `Supervisor.GvisorRunner.SafeDrain` | app/sandbox/gvisor.py:224-230 | a drain that finishes in time returns the capped tail and its flag, one that times out nothing and no flag |
| `Supervisor.GvisorRunner.Watch` | app/sandbox/gvisor.py:161-187 | the watch loop waits, heartbeats and ends exactly as `WatchOf` gives for the adversary's script |
| `Supervisor.EndingIff` | app/sandbox/gvisor.py:164-187 | the watch ends with an exit exactly if all waits before woke up short of the deadline and the next, begun before it, saw that exit; likewise for the deadline and for a cancellation |
| `Supervisor.WatchTiming` | app/sandbox/gvisor.py:164-187 | for any lateness d: at most ceil(W/h) waits, heartbeats at most h + d apart, the deadline acted on in [W, W + 100 ms + d) and only if no wait saw the process exit |
| `Supervisor.GvisorRunner.ReportDeadline` | app/sandbox/gvisor.py:167-179 | the deadline branch kills, collects and reports exit 124, unless the kill raises or a drain is cancelled; the container is removed exactly if the kill took effect |
| `Supervisor.GvisorRunner.ReportExit` | app/sandbox/gvisor.py:195-211 | after an exit the result, or a policy violation or an infrastructure error, exactly as the classification says |
| `Supervisor.GvisorRunner.RunContainer` | app/sandbox/gvisor.py:134-211 | the outcome, the time, the heartbeats and the container left of a run are the functions `RunExit`, `RunMs`, `WatchOf` and `Remains` of its script; no other container is touched |
| `Supervisor.RemainsIff` | app/sandbox/gvisor.py:163-193 | a container outlives the run exactly when it was launched, its process was not seen to exit, and none of the kills made removed it |
| `Supervisor.RunIsBounded` | app/sandbox/gvisor.py:134-211 | a run takes at most the image inspection, the deadline, two kills and two drains, each with its lateness |
| `SandboxActivity.RunSandbox` | app/activities/sandbox.py:29-103 | the outcome, the time and the container left of an attempt are the functions `ActivityExit`, `AttemptMs` and `LeavesContainer` of its arguments and surroundings; docker holds all else as before |
| `SandboxActivity.LeavesIff` | app/activities/sandbox.py:60-97 | a container outlives its attempt exactly when it was launched, its process was not seen to exit, and none of the kills made for it, the activity's own included, removed it |
| `SandboxActivity.EffectiveKillsSuffice` | app/activities/sandbox.py:94-97 | so nothing is left on any way out if the kills made take effect: unless the process exited, one is always made |
| `SandboxActivity.ResultLeavesContainer` | app/sandbox/gvisor.py:167-179 | a result is returned while the container lives on exactly when the deadline passed and the kill failed or timed out without effect |
| `SandboxActivity.ResultReportsEnding` | app/activities/sandbox.py:60-92 | a result comes only from a launched execution and reports how the watch of that one ended |
| `SandboxActivity.ResultSays` | app/sandbox/gvisor.py:161-211 | each tail is the text of the last bytes of its own stream if that was collected in time, and empty otherwise; the flag is up exactly when a collected stream exceeded the cap; the time is that of the deadline check, not before the deadline, or of the exit |
| `SandboxActivity.TimeAddsUp` | app/activities/sandbox.py:60-97 | a launched attempt takes the time of its preflight, the image inspection, the watch, every kill made for it, and the drains if it gets to collect the output |
| `FailClosed.LaunchedIff` | app/activities/sandbox.py:35-62 | code is launched exactly when it fits, the runtime is runc, or is runsc with a preflight that passed, and the launch itself succeeds |
| `FailClosed.NothingUnconfirmedRuns` | app/activities/sandbox.py:35-103 | a refused runtime, code too large and an unknown runtime each raise their own failure at once, kill nothing, leave nothing and take the time of the preflight at most; a preflight that could not be made raises what docker did |
| `FailClosed.BarredNeverCompletes` | app/activities/sandbox.py:98-100 | no attempt of any activity follows one that was barred, and its run is never answered COMPLETED nor with a result |
| `FailClosed.CompletedWasConfirmed` | app/activities/sandbox.py:60-92 | a run answered COMPLETED had an attempt that was free to launch and whose process exited with 0 |
| `SandboxActivity.ProcessExitIs` | app/sandbox/gvisor.py:195-222 | a process that exited with its output collected gives a result, a policy violation or an infrastructure error exactly as its code and text say |
| `SandboxActivity.RetriedIff` | app/temporal/policies.py:23-29 | an attempt that reported is retried exactly when attempts remain and a docker command raised, or the process exited like a failed launch |
| `Attempts.ReportsInTimeIff` | app/temporal/workflows.py:98-105 | a report that a state is otherwise ready for is accepted exactly when the attempt fits start-to-close and its longest silence, from start through heartbeats to report, fits the heartbeat timeout |
| `Attempts.TimedOutIsRetried` | app/temporal/policies.py:23-33 | an attempt that does not report is timed out by either timeout, and retried exactly while attempts remain |
| `Attempts.FirstHeartbeatIff` | app/sandbox/gvisor.py:180-187 | for code that outlives its first interval, the first heartbeat comes within the interval exactly when preflight, image inspection and wake-ups took no time at all |
| `Attempts.FirstIntervalLosesOutcome` | app/temporal/policies.py:33 | so, interval and heartbeat timeout being one setting, such code loses its outcome whenever any of them took time |
| `Attempts.OutcomesSurviveIff` | app/config.py:26-43 | with nothing late, every result counts exactly when start-to-close is at least the wall-clock limit plus 50 s, and the heartbeat setting at least the limit plus 40 s (50 s where there is no positive limit) |
| `Attempts.AttemptIsBounded` | app/activities/sandbox.py:60-97 | the longest an attempt can take, for any lateness |
| `Attempts.DeadlineOutcomeIsLost` | app/config.py:26-43 | the defaults are not such settings: with nothing late, code that hit its deadline can take 80 s to report, beyond start-to-close |
| `Attempts.DeadlineOutcomeIsRetried` | app/temporal/policies.py:14-33 | in any state in which an attempt executes the recorded command and attempts remain, if preflight and image inspection take a second each, code that hits its deadline is done in 32 s, its result is refused, and the heartbeat timeout gives it another attempt |
| `Attempts.ContainerCanBeLeft` | app/sandbox/gvisor.py:167-179 | a default execution that returns a result and leaves its container, the kill having timed out |
| `Attempts.UserExitIsRetried` | app/sandbox/gvisor.py:213-222 | for any text with a launch signature that does not name the runtime, a launched process that prints it and exits 125 makes the attempt raise and be retried |
| `Attempts.DockerIsSuchAText` | app/sandbox/gvisor.py:33-41 | "docker:" is such a text |
| `Attempts.NamedRuntimeIsNotRetried` | app/sandbox/gvisor.py:220-221 | a failed launch whose message names the runtime is a policy violation and is not retried |
| `CappedReader.ReadCapped` | app/sandbox/gvisor.py:62-76 | whatever the chunking, the result is the last `limit` bytes of everything read, flagged exactly when there was more, and the most the buffer holds, which is `Peak`, never exceeds the limit and one chunk |
| `CappedReader.FlagMeansDropped` | app/sandbox/gvisor.py:76 | the flag is raised exactly when bytes were dropped, unless the limit is negative and there was no output |
| `CappedReader.TailIsSuffixOfText` | app/sandbox/gvisor.py:199-206 | for every text and limit, decoding the capped tail gives at most three U+FFFD and then a suffix of the text; nothing dropped gives the text |
| `Utf8.DecodeTail` | app/sandbox/gvisor.py:175-176 | the same for a cut at any byte, with the number of bytes accounted for |
| `Verdict.StepsShape` | app/temporal/workflows.py:68-113 | in every state the steps are a prefix of the pipeline, all but the last completed; the stage names the running step; summarize appears only after an ok result |
| `Verdict.AnswerAgreesWithSteps` | app/api/routes_runs.py:99-121 | the API's fixed list of completed steps is the workflow's own, and a failure is put down to the one failed step with its detail as message |
| `Verdict.EndsWithResult` | app/temporal/workflows.py:46-58 | a result is returned on the sandbox outcome when it is not ok and on the summary when it is, and carries that sandbox result |
| `Verdict.EndingDecides` | app/contracts.py:74-86 | the result an execution returned is ok exactly when its process exited 0 before its deadline, and otherwise has one reason, the deadline first, then 137, then the code |
| `Verdict.SandboxDecidesVerdict` | app/api/routes_runs.py:99-121 | once a sandbox attempt returned, none follows, and the ending of the watch of that one execution decides the API's answer: COMPLETED exactly if the process exited 0 before its deadline, otherwise FAILED with that one reason |
| `Verdict.CompletedIff` | app/api/routes_runs.py:157-159 | COMPLETED is answered exactly of a run that ended with a result and had a sandbox attempt that returned from a process that exited 0 before its deadline |
| `Verdict.AnswersAreEarned` | app/api/routes_runs.py:124-160 | RUNNING is answered of exactly the runs found open, CANCELLED only if cancellation was requested, TIMED_OUT only of a run that waited, at the defaults 18 s |
| `Answers.AnswerIs` | app/api/routes_runs.py:110-160 | the answer about a closed run is fixed, field by field, by how the run ended: TIMED_OUT, CANCELLED or FAILED with its code and message and without a result, or the recorded summary, code and sandbox result with the verdict |
| `Answers.StatusIff` | app/api/routes_runs.py:124-160 | of closed runs TIMED_OUT is answered exactly of those closed by their timeout, CANCELLED exactly of those that ended on a cancelled activity, FAILED exactly of those terminated, ended on another failure or on a result that is not ok, and COMPLETED exactly of those summarized |
| `Answers.TerminalEventIff` | app/api/routes_runs.py:42-47 | the client's terminal event is named timed_out, completed or failed exactly when that is due |
| `Answers.OpenAnswerIs` | app/api/routes_runs.py:99-107 | what a run found open is answered with, field by field, by the outcomes its workflow has received |
| `Answers.PolledOpenAnswerIs` | app/api/routes_runs.py:145-156 | every open answer of a stream's polls is of that form, for outcomes of a prefix of the run's history |
| `Responses.SortedTextInjective` | app/api/routes_runs.py:272 | responses that print the same sorted JSON are the same, so comparing printed payloads is comparing responses |
| `Responses.PayloadInjective` | app/api/routes_runs.py:265 | no two responses have the same payload, field by field down to steps, results and errors |
| `Stream.Generate` | app/api/routes_runs.py:253-286 | what the generator emits, how many polls it makes and why it stops are what the sequence of poll answers determines through `StreamOf` and `ExitAfter` |
| `Stream.StreamShape` | app/api/routes_runs.py:253-286 | every stream is a prefix of snapshot (step or keepalive)* (terminal done, or done[max_duration]), and complete exactly when it finished or expired |
| `Stream.OneTerminalNothingAfterDone` | app/api/routes_runs.py:266-286 | such a stream has at most one terminal event and nothing after done |
| `Stream.StreamShows` | app/api/routes_runs.py:272-278 | the snapshot and step payloads are exactly the stutter-free sequence of the open answers polled, or the one snapshot when the first answer is terminal |
| `Stream.NeverSilent` | app/api/routes_runs.py:273-282 | of any 21 consecutive answered polls one emits a frame |
| `Stream.PollsBounded` | app/api/routes_runs.py:281-286 | a stream makes at most floor(max / 0.7) + 1 polls |
| `Stream.StreamStops` | app/api/routes_runs.py:258-286 | a stream stops at the first answered poll that says the run is over, or after which more than the maximum duration has passed, and otherwise with the turn that follows the answers |
| `Stream.KeepaliveIff` | app/api/routes_runs.py:274-280 | a poll emits a keepalive exactly when its number is a positive multiple of 21 and it repeats the open answer before it |
| `Stream.ClientSeesEvents` | app/api/routes_runs.py:64-65 | a client parsing the stream's text sees exactly the emitted events in order, and a prefix of them wherever the connection breaks |
| `EventStream.FramesReadBack` | app/api/routes_runs.py:64-65 | sections 9.2.5 and 9.2.6 of the WHATWG HTML Living Standard read any frames and keepalive comments back as they were printed |
| `EventStream.CutStreamReadsBack` | app/api/routes_runs.py:266-285 | cut at any character, the text reads back as a prefix of the emitted events |
| `Json.DumpsPrintable` | app/api/routes_runs.py:65 | printed JSON is one line of printable ASCII |
| `JsonReader.ReadBack` | app/api/routes_runs.py:65 | a reader of JSON by RFC 8259 reads every printed value back, and stops at its end, whatever may follow a value |
| `JsonReader.DumpsInjective` | app/api/routes_runs.py:272 | so printed JSON determines the value |
| `Client.SaysDetermines` | app/api/routes_runs.py:99-121 | a JSON value whose fields, looked up by name, say a response says no other |
| `Client.ClientReadsResponses` | app/api/routes_runs.py:64-65 | a client that parses the stream's text, and each event's data as JSON, gets one event for each output but the keepalives, in order, with the name due, whose fields say exactly the response |
| `RunStream.PollsAdvance` | app/api/routes_runs.py:145-156 | polls of one run that find it open see equal answers or a later one of higher rank whose completed steps extend the earlier one's, whatever happens to workers |
| `RunStream.StreamAdvances` | app/api/routes_runs.py:253-286 | a stream over one run shows answers of strictly rising rank with completed steps only growing, at most five of them, so at most four step events |
| `RunStream.ShownIffPolled` | app/api/routes_runs.py:272-278 | an answer of the open run is shown by a stream exactly when one of its polls got that answer |
| `MissedTransition.TransitionMissed` | app/api/routes_runs.py:253-286 | a run and two polls of it between which it began to generate code, and whose stream does not show that |
| `RunStream.CompletedPollExtends` | app/api/routes_runs.py:101-107 | the completed steps of every earlier poll are the first of those of a poll that finds the run completed |
| `RunStream.TerminalIsFinal` | app/api/routes_runs.py:266-271 | the terminal event of a stream is the API's answer about this run as it ended |
| `RunStream.StreamVerdict` | app/api/routes_runs.py:266-271 | "completed" is streamed exactly when the run ended with a result and a sandbox attempt of it returned from a process that exited 0 before its deadline |
| `Submission.StartsOnce` | app/api/routes_runs.py:209-219 | over any sequence of submissions each workflow id starts at most once |
| `Submission.Api.CreateRun` | app/api/routes_runs.py:185-229 | the reply and the runs held afterwards are `ReplyTo` and `Next` of the runs held before, for any fate of the start call and of the memo read |
| `Submission.Api.HandleAlreadyStarted` | app/api/routes_runs.py:163-179 | a conflict exactly when the memo was read and differs from the full digest, otherwise a replay; no run changes |
| `Submission.SuccessNamesOwnRun` | app/api/routes_runs.py:163-229 | a 201 names a run this submission started, a 200 one the same tenant started before; a 201 or a 200 whose memo was read names a run of its own task and parameters; the run has the configured runtime, the ceilings and a task within the byte limit |
| `Submission.ConflictMeansDifferent` | app/api/routes_runs.py:163-175 | for an id started before, 409 is answered exactly when the memo was read and the starter had another task or other parameters |
| `Submission.ResubmissionReplays` | app/api/routes_runs.py:57-61 | sending the same request again starts nothing and is answered with the first run |
| `Submission.UnreadMemoHidesConflict` | app/api/routes_runs.py:170-179 | when the memo cannot be read a reused key is answered 200 with another task's run |
| `Submission.PayloadDetermines` | app/api/routes_runs.py:53-54 | the hashed bytes determine task and parameters: they split at the last brace in one way |
| `Submission.BindRecoversTenant` | app/activities/agents.py:25-31 | splitting a workflow id at its first colon recovers the tenant, whatever is in the key |
| `Submission.TenantsAreSeparate` | app/api/routes_runs.py:57-61 | two tenants never share a workflow id |
| `Replies.IdsShareIff` | app/api/routes_runs.py:57-61 | two requests share an id exactly when they have one tenant and one name, which is the key, if there is one, or the first 32 digits of the payload's digest |
| `Replies.StartsIff` | app/api/routes_runs.py:209-219 | the call that starts an id is the first one for it that takes effect |
| `Replies.RepliesAre` | app/api/routes_runs.py:185-229 | 413 exactly of a task whose UTF-8 length exceeds the limit; 503 and other errors exactly when the call is lost; 201 exactly when it is answered and no earlier submission of the tenant with that name took effect |
| `Replies.LaterReplyIs` | app/api/routes_runs.py:163-179 | a submission that comes after others of its tenant with its name gets the run of the first of them, or a conflict: exactly when the memo was read and the payloads differ |
| `EndToEnd.SuccessIsConfined` | app/api/routes_runs.py:195-205 | every execution of a run that a success names is for that run and the submission's tenant, in the configured runtime and under the configured ceilings, with the wall clock asked for if that is lower |
| `EndToEnd.SuccessLaunchesConfirmed` | app/activities/sandbox.py:60-62 | where gVisor is configured, nothing a success names launches without it |
| `EndToEnd.SuccessNeverTooLarge` | app/api/routes_runs.py:188-189 | no execution of a run that a success names is refused for its size when the code ceiling leaves room for six characters a byte of the task limit |
| `Codegen.FirstNamedIsFirst` | app/agents/pipeline.py:10-18 | the parsed directive is the first listed one the task names, and normal exactly when it names no other |
| `Codegen.DirectiveIs` | app/agents/pipeline.py:10-18 | the parsed directive is the first listed one that stands in the text in brackets or after "directive:", and normal exactly when none does |
| `Codegen.ProgramIs` | app/agents/codegen.py:97-101 | the generated program is the fixed one of that directive, or the normal one around the task's literal |
| `Codegen.EveryTaskGenerates` | app/agents/codegen.py:97-101 | every parsed directive has a program: the template lookup cannot fail |
| `Codegen.TaskLiteralReadsBack` | app/agents/codegen.py:14-23 | for every task Python reads the generated literal exactly to its closing quote and gets the task's UTF-16 code units as code points |
| `Codegen.LiteralReadsBack` | app/agents/codegen.py:100 | the same for any text after the literal that does not begin with a quote |
| `Codegen.TaskLiteralIsTask` | app/agents/codegen.py:97-100 | so the program's TASK is the task exactly when no character exceeds U+FFFF |
| `Codegen.TaskEncodesIff` | app/agents/codegen.py:20 | TASK.encode() gives the submitted task's bytes exactly when no character exceeds U+FFFF, and otherwise raises |
| `Codegen.ProgramSize` | app/agents/codegen.py:97-101 | a program is at most six times the task's UTF-8 length plus a constant |
| `Codegen.AcceptedTaskFits` | app/api/routes_runs.py:188-189 | the program of an accepted task has at most max_code_bytes characters under the default ceilings, whatever directive it names |
| `Codegen.SizeBoundIsReached` | app/agents/codegen.py:97-100 | the factor six is reached by tasks of every length |
| `Admission.AcceptedNeverTooLarge` | app/activities/sandbox.py:35-40 | no sandbox attempt of any run of an accepted task ends in PayloadTooLarge, whatever directive the task names |
| `Admission.SurrogatesNeverComplete` | app/agents/codegen.py:14-23 | a run of a task that names no directive and has a character above U+FFFF is never answered COMPLETED, an uncaught exception in Python being no exit with 0 |
| `EndToEnd.ExecutedProgram` | app/agents/pipeline.py:32-33 | the code of every execution is the template around a literal that reads back to the run's task if that mentions no directive, and otherwise has the length of the program of the first one mentioned |
| `PythonLiteral.ReadEscaped` | app/agents/codegen.py:100 | reading an escaped string by section 2.4.1.1 of The Python Language Reference 3.12 stops at its end and gives its UTF-16 code units |

## Left out

- Cancellation between two awaits: only the awaited activity of a run is cancelled, since the workflow awaits nothing else.
- Cancellation while the docker command itself is being spawned: before the launch or after it, nothing in between.
- A poll that finds the stage still "queued": a query is answered after the first workflow task has run.
- The client library's throttling of heartbeats: each one counts when it is made.
- `Attempts.OutcomesSurviveIff`: is about attempts with no late wake-up; lateness only adds failures, and `Attempts.AttemptIsBounded` bounds the time for any lateness.
- `Supervisor.GvisorRunner.Watch`: takes a heartbeat and the next deadline check to read the same clock.
- `Workflow.AgentPipelineWorkflow.Run`: its last parts are the methods `GenerateCode`, `Execute` and `Conclude`, and the runner's run is split into `Supervise`, `Watch`, `ReportDeadline` and `ReportExit`; the order of effects is the source's.
- `Stream.PollsBounded`: counts time in tenths, so rounding of the floating-point sum of 0.7 is not modelled.
- `Codegen.FirstNamedIsFirst`: Unicode lower-casing is not modelled; the lower-cased text is a parameter, there and in the classification of launch errors.
- `PythonLiteral.ReadEscaped`: named escapes (`\N{...}`) and triple-quoted strings are left unread; printed literals have neither.
- `Bounds.TimeoutMeansWaiting`: waiting includes the time between an outcome and the next command.
- The text of the fixed directive programs (only their lengths) and of summaries, and the steps listed in a plan.
- SHA-256 and SHA-1: functions, the full digest separating the submitted payloads where that is needed.
- HTTP routing, authentication, error envelopes, health probes, tracing and logging.
- Temporal's server and SDK beyond the assumptions above, including expiry of workflow ids.
- Docker flags, image inspection, temporary files, and isolation by the kernel or gVisor.
- The Firecracker runner beyond its refusing preflight, worker start-up, deployment.
- Validation of requests beyond what `Submission.Valid` states.
