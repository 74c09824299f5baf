// Retry policies and timeouts, in seconds, and what they bound.

module Policies {
  import opened Workflow

  datatype Settings = Settings(
    agentStartToCloseS: nat,
    sandboxStartToCloseS: nat,
    sandboxHeartbeatS: nat,
    scheduleToStartS: nat,
    workflowRunTimeoutS: nat,
    maxAttempts: nat)

  const DEFAULTS := Settings(10, 60, 10, 30, 300, 3)

  /** A retry policy with backoff coefficient 2; maxAttempts 0 means no limit. */
  datatype RetryPolicy = RetryPolicy(initialS: nat, maximumS: nat, maxAttempts: nat, nonRetryable: set<string>)

  function AgentRetry(c: Settings): RetryPolicy {
    RetryPolicy(1, 10, c.maxAttempts, {})
  }

  function SandboxRetry(c: Settings): RetryPolicy {
    RetryPolicy(1, 20, c.maxAttempts, {"SandboxPolicyViolation", "PayloadTooLarge"})
  }

  /** The activities of a run, in order: plan, generate_code, run_sandbox, summarize. */
  const ACTIVITIES: nat := 4
  const SANDBOX: nat := 2

  function PolicyOf(c: Settings, step: nat): RetryPolicy {
    if step == SANDBOX then SandboxRetry(c) else AgentRetry(c)
  }

  function StartToCloseOf(c: Settings, step: nat): nat {
    if step == SANDBOX then c.sandboxStartToCloseS else c.agentStartToCloseS
  }

  /** The heartbeat timeout: only the sandbox activity has one. */
  predicate HeardInTime(c: Settings, step: nat, silence: nat) {
    step == SANDBOX ==> silence <= c.sandboxHeartbeatS
  }

  /** Which failed attempts Temporal retries, attempts remaining. */
  predicate Retryable(p: RetryPolicy, f: Failure) {
    match f
    case ApplicationFailure(errorType, nonRetryable) => !nonRetryable && errorType !in p.nonRetryable
    case TimeoutFailure(kind) => !kind.ScheduleToStart?
    case CancelledFailure => false
  }

  /** Whether a failed attempt number n is followed by another. */
  predicate Retries(p: RetryPolicy, f: Failure, n: nat) {
    Retryable(p, f) && (p.maxAttempts == 0 || n < p.maxAttempts)
  }

  // ---- backoff ----------------------------------------------------------------------------

  function Pow2(k: nat): (p: nat)
    ensures p >= 1
  {
    if k == 0 then 1 else 2 * Pow2(k - 1)
  }

  /** The delay after failed attempt number n. */
  function Delay(p: RetryPolicy, n: nat): nat
    requires n >= 1
  {
    var d := p.initialS * Pow2(n - 1);
    if d < p.maximumS then d else p.maximumS
  }

  const DELAY_CAP := 10
  const SANDBOX_DELAY_CAP := 20

  /** The first delay is a second, and each is twice the one before it until the cap is reached. */
  lemma DelayDoubles(c: Settings, step: nat, n: nat)
    requires n >= 1
    ensures var p, cap := PolicyOf(c, step), if step == SANDBOX then SANDBOX_DELAY_CAP else DELAY_CAP;
            && Delay(p, 1) == 1
            && Delay(p, n + 1) == (if 2 * Delay(p, n) < cap then 2 * Delay(p, n) else cap)
  {
  }

  /** The delays before attempts 2, ..., n. */
  function Backoff(p: RetryPolicy, n: nat): nat {
    if n <= 1 then 0 else Backoff(p, n - 1) + Delay(p, n - 1)
  }

  /** Doubling a geometric sum adds its next term. */
  lemma GeometricStep(a: nat, q: nat)
    ensures a * (2 * q - 1) == a * (q - 1) + a * q
    ensures a * (2 * q) == a * q + a * q
  {
  }

  /**
   * The delays of n attempts sum to at most the uncapped geometric sum, and are that sum as
   * long as no delay reaches the cap.
   */
  lemma {:induction false} BackoffGeometric(p: RetryPolicy, n: nat)
    requires n >= 1
    ensures Backoff(p, n) <= p.initialS * (Pow2(n - 1) - 1)
    ensures n >= 2 && p.initialS * Pow2(n - 2) <= p.maximumS ==> Backoff(p, n) == p.initialS * (Pow2(n - 1) - 1)
  {
    if n >= 2 {
      BackoffGeometric(p, n - 1);
      GeometricStep(p.initialS, Pow2(n - 2));
      if n >= 3 {
        GeometricStep(p.initialS, Pow2(n - 3));
      }
    }
  }

  /** The delays of n attempts sum to at most n - 1 caps. */
  lemma {:induction false} BackoffCapped(p: RetryPolicy, n: nat)
    requires n >= 1
    ensures Backoff(p, n) <= (n - 1) * p.maximumS
  {
    if n >= 2 {
      BackoffCapped(p, n - 1);
      assert (n - 1) * p.maximumS == (n - 2) * p.maximumS + p.maximumS;
    }
  }

  // ---- budgets ----------------------------------------------------------------------------

  /** Execution and backoff time of one activity that uses n attempts. */
  function AttemptBudget(c: Settings, step: nat, n: nat): nat {
    n * StartToCloseOf(c, step) + Backoff(PolicyOf(c, step), n)
  }

  function ActivityBudget(c: Settings, step: nat): nat {
    AttemptBudget(c, step, c.maxAttempts)
  }

  /** Execution and backoff time of the first k activities. */
  function BudgetOfFirst(c: Settings, k: nat): nat {
    if k == 0 then 0 else BudgetOfFirst(c, k - 1) + ActivityBudget(c, k - 1)
  }

  function RunBudget(c: Settings): nat {
    BudgetOfFirst(c, ACTIVITIES)
  }

  lemma {:induction false} AttemptBudgetMonotone(c: Settings, step: nat, m: nat, n: nat)
    requires m <= n
    ensures AttemptBudget(c, step, m) <= AttemptBudget(c, step, n)
  {
    if m < n {
      AttemptBudgetMonotone(c, step, m, n - 1);
      var t := StartToCloseOf(c, step);
      assert n * t == (n - 1) * t + t;
    }
  }

  lemma {:induction false} BudgetOfFirstMonotone(c: Settings, j: nat, k: nat)
    requires j <= k
    ensures BudgetOfFirst(c, j) <= BudgetOfFirst(c, k)
  {
    if j < k {
      BudgetOfFirstMonotone(c, j, k - 1);
    }
  }

  /** At the default settings a run executes and backs off for at most 282 seconds. */
  lemma DefaultRunBudget()
    ensures RunBudget(DEFAULTS) == 282
  {
    var a, s := PolicyOf(DEFAULTS, 0), PolicyOf(DEFAULTS, SANDBOX);
    assert Pow2(1) == 2 && Pow2(0) == 1;
    assert Backoff(a, 2) == 1 && Backoff(a, 3) == 3;
    assert Backoff(s, 2) == 1 && Backoff(s, 3) == 3;
    assert ActivityBudget(DEFAULTS, 0) == 33;
    assert ActivityBudget(DEFAULTS, 1) == 33;
    assert ActivityBudget(DEFAULTS, 2) == 183;
    assert ActivityBudget(DEFAULTS, 3) == 33;
    assert BudgetOfFirst(DEFAULTS, 1) == 33;
    assert BudgetOfFirst(DEFAULTS, 2) == 66;
    assert BudgetOfFirst(DEFAULTS, 3) == 249;
  }
}
