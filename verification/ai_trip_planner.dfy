/**
 * The AI trip-planner flow: the rate-limit classifier, the bounded
 * exponential-backoff retry around one opaque model call, and the flow's
 * input and output shapes.
 *
 * The model call is a scripted collaborator: `call(k)` is what the k-th
 * attempt returns or throws. Sleeping is recorded in a trace instead of
 * waiting on the clock.
 */
module AiTripPlanner {
  import opened Wrappers
  import opened Text

  /** A value thrown by the model call. */
  datatype Thrown =
    | ErrorObject(message: string)  // an `Error` instance
    | Text(text: string)            // a thrown string
    | OtherValue(json: string)      // anything else, given by its `JSON.stringify` rendering

  /** What one attempt of the model call produced. */
  datatype Outcome<+T> = Ok(value: T) | Err(error: Thrown)

  /** The string that classification inspects. */
  function MessageOf(e: Thrown): (m: string)
    ensures e.ErrorObject? ==> m == e.message
    ensures e.Text? ==> m == e.text
    ensures e.OtherValue? ==> m == e.json
  {
    match e
    case ErrorObject(msg) => msg
    case Text(t) => t
    case OtherValue(j) => j
  }

  /** The substring test behind `isRateLimitError`. */
  predicate IsRateLimitMessage(msg: string) {
    Contains(msg, "429")
    || Contains(ToLower(msg), "too many requests")
    || Contains(ToLower(msg), "quota exceeded")
    || Contains(ToLower(msg), "rate limit")
  }

  predicate IsRateLimitError(e: Thrown) {
    IsRateLimitMessage(MessageOf(e))
  }

  /** The four phrases, each matched as a substring of the lower-cased message. */
  ghost predicate MentionsRateLimit(msg: string) {
    var lower := ToLower(msg);
    (exists i :: OccursAt(msg, "429", i))
    || (exists i :: OccursAt(lower, "too many requests", i))
    || (exists i :: OccursAt(lower, "quota exceeded", i))
    || (exists i :: OccursAt(lower, "rate limit", i))
  }

  lemma IsRateLimitMessageMeaning(msg: string)
    ensures IsRateLimitMessage(msg) <==> MentionsRateLimit(msg)
  {
  }

  /** Classification depends on the inspected string alone. */
  lemma ClassificationByMessage(e1: Thrown, e2: Thrown)
    requires MessageOf(e1) == MessageOf(e2)
    ensures IsRateLimitError(e1) <==> IsRateLimitError(e2)
  {
  }

  /**
   * Classification ignores letter case: a message and its lower-cased form
   * are classified alike (lower-casing leaves the digits of "429" alone).
   */
  lemma {:induction false} ClassificationIgnoresCase(msg: string)
    ensures IsRateLimitMessage(ToLower(msg)) <==> IsRateLimitMessage(msg)
  {
    var lower := ToLower(msg);
    ToLowerIdempotent(msg);
    if i :| OccursAt(msg, "429", i) {
      OccursAtLower(msg, "429", i);
      assert ToLower("429") == "429";
    }
    if i :| OccursAt(lower, "429", i) {
      forall k | 0 <= k < 3
        ensures msg[i + k] == "429"[k]
      {
        assert lower[i..i + 3][k] == "429"[k];
        assert LowerChar(msg[i + k]) == "429"[k];
      }
      assert msg[i..i + 3] == "429";
      assert OccursAt(msg, "429", i);
    }
  }

  const MaxAttempts: nat := 4
  const BaseBackoffMs: nat := 1500

  function Pow2(n: nat): (r: nat)
    ensures r >= 1
  {
    if n == 0 then 1 else 2 * Pow2(n - 1)
  }

  /** The wait after a rate-limited attempt `attempt`: `1500 * 2^(attempt-1)` ms. */
  function BackoffMs(attempt: nat): (ms: nat)
    requires attempt >= 1
  {
    BaseBackoffMs * Pow2(attempt - 1)
  }

  lemma BackoffSchedule()
    ensures BackoffMs(1) == 1500 && BackoffMs(2) == 3000 && BackoffMs(3) == 6000
  {
  }

  lemma BackoffDoubles(attempt: nat)
    requires attempt >= 1
    ensures BackoffMs(attempt + 1) == 2 * BackoffMs(attempt)
  {
  }

  /** An outcome after which the loop sleeps and tries again (unless attempts are exhausted). */
  predicate Retryable<T>(o: Outcome<T>, isRateLimit: Thrown -> bool) {
    o.Err? && isRateLimit(o.error)
  }

  /** One observable step of a retry run. */
  datatype Event<+T> = Called(attempt: nat, outcome: Outcome<T>) | Slept(ms: nat)

  datatype RetryRun<+T> = RetryRun(result: Outcome<T>, trace: seq<Event<T>>)

  /**
   * `withRateLimitRetry` from attempt `attempt` on: call; return a value;
   * rethrow an error that is not a rate limit, or any error on the last
   * attempt; otherwise sleep the backoff and try the next attempt.
   */
  function RetryFrom<T>(call: nat -> Outcome<T>, isRateLimit: Thrown -> bool, attempt: nat): (run: RetryRun<T>)
    requires 1 <= attempt <= MaxAttempts
    ensures |run.trace| >= 1
    ensures run.trace[0] == Called(attempt, call(attempt))
    ensures run.trace[|run.trace| - 1].Called? && run.trace[|run.trace| - 1].outcome == run.result
    decreases MaxAttempts - attempt
  {
    var o := call(attempt);
    match o
    case Ok(_) => RetryRun(o, [Called(attempt, o)])
    case Err(e) =>
      if !isRateLimit(e) || attempt == MaxAttempts then
        RetryRun(o, [Called(attempt, o)])
      else
        var rest := RetryFrom(call, isRateLimit, attempt + 1);
        RetryRun(rest.result, [Called(attempt, o), Slept(BackoffMs(attempt))] + rest.trace)
  }

  /** A whole run, for a given classifier. */
  function Retry<T>(call: nat -> Outcome<T>, isRateLimit: Thrown -> bool): RetryRun<T> {
    RetryFrom(call, isRateLimit, 1)
  }

  /** `withRateLimitRetry`: a run that retries exactly the errors `isRateLimitError` accepts. */
  function WithRateLimitRetry<T>(call: nat -> Outcome<T>): RetryRun<T> {
    Retry(call, IsRateLimitError)
  }

  /**
   * The attempt at which a run starting at `from` stops: the first attempt
   * that is not retryable, or the last attempt.
   */
  function StopAttempt<T>(call: nat -> Outcome<T>, isRateLimit: Thrown -> bool, from: nat): (n: nat)
    requires 1 <= from <= MaxAttempts
    ensures from <= n <= MaxAttempts
    ensures forall j :: from <= j < n ==> Retryable(call(j), isRateLimit)
    ensures n < MaxAttempts ==> !Retryable(call(n), isRateLimit)
    decreases MaxAttempts - from
  {
    if !Retryable(call(from), isRateLimit) || from == MaxAttempts then from
    else StopAttempt(call, isRateLimit, from + 1)
  }

  /** Attempts `from..n`, each followed by its backoff sleep except the last. */
  function ExpectedTrace<T>(call: nat -> Outcome<T>, from: nat, n: nat): (t: seq<Event<T>>)
    requires 1 <= from <= n
    ensures |t| == 2 * (n - from) + 1
    decreases n - from
  {
    if from == n then [Called(n, call(n))]
    else [Called(from, call(from)), Slept(BackoffMs(from))] + ExpectedTrace(call, from + 1, n)
  }

  /**
   * The run is fully determined by the first non-retryable attempt `n`:
   * its outcome is the result, and the trace is attempts 1..n with a
   * backoff sleep between consecutive attempts.
   */
  lemma {:induction false} RetryCharacterization<T>(call: nat -> Outcome<T>, isRateLimit: Thrown -> bool, from: nat)
    requires 1 <= from <= MaxAttempts
    ensures RetryFrom(call, isRateLimit, from).result == call(StopAttempt(call, isRateLimit, from))
    ensures RetryFrom(call, isRateLimit, from).trace == ExpectedTrace(call, from, StopAttempt(call, isRateLimit, from))
    decreases MaxAttempts - from
  {
    if !Retryable(call(from), isRateLimit) || from == MaxAttempts {
      assert StopAttempt(call, isRateLimit, from) == from;
    } else {
      RetryCharacterization(call, isRateLimit, from + 1);
      RetryStep(call, isRateLimit, from);
    }
  }

  /** One retried attempt: the run is that attempt, its sleep, and the run from the next attempt. */
  lemma RetryStep<T>(call: nat -> Outcome<T>, isRateLimit: Thrown -> bool, from: nat)
    requires 1 <= from < MaxAttempts
    requires Retryable(call(from), isRateLimit)
    ensures var rest := RetryFrom(call, isRateLimit, from + 1);
      var head := [Called(from, call(from)), Slept(BackoffMs(from))];
      var n := StopAttempt(call, isRateLimit, from + 1);
      && StopAttempt(call, isRateLimit, from) == n
      && RetryFrom(call, isRateLimit, from) == RetryRun(rest.result, head + rest.trace)
      && ExpectedTrace(call, from, n) == head + ExpectedTrace(call, from + 1, n)
  {
  }

  function CallCount<T>(t: seq<Event<T>>): (n: nat)
    ensures n <= |t|
  {
    if t == [] then 0 else (if t[0].Called? then 1 else 0) + CallCount(t[1..])
  }

  function Sleeps<T>(t: seq<Event<T>>): (ms: seq<nat>)
    ensures |ms| <= |t|
  {
    if t == [] then [] else (if t[0].Slept? then [t[0].ms] else []) + Sleeps(t[1..])
  }

  function Sum(xs: seq<nat>): nat {
    if xs == [] then 0 else xs[0] + Sum(xs[1..])
  }

  lemma {:induction false} ExpectedTraceShape<T>(call: nat -> Outcome<T>, from: nat, n: nat)
    requires 1 <= from <= n
    ensures CallCount(ExpectedTrace(call, from, n)) == n - from + 1
    ensures |Sleeps(ExpectedTrace(call, from, n))| == n - from
    ensures forall i :: 0 <= i < n - from ==> Sleeps(ExpectedTrace(call, from, n))[i] == BackoffMs(from + i)
    decreases n - from
  {
    var t := ExpectedTrace(call, from, n);
    if from < n {
      ExpectedTraceShape(call, from + 1, n);
      var rest := ExpectedTrace(call, from + 1, n);
      assert t[1..] == [Slept(BackoffMs(from))] + rest;
      assert t[1..][1..] == rest;
      assert Sleeps(t) == [BackoffMs(from)] + Sleeps(rest);
    }
  }

  /** Every sleep in `t` directly follows a call that failed with a rate-limit error. */
  ghost predicate SleepsFollowRateLimitErrors<T>(t: seq<Event<T>>, isRateLimit: Thrown -> bool) {
    forall i :: 0 <= i < |t| && t[i].Slept? ==> i > 0 && t[i - 1].Called? && Retryable(t[i - 1].outcome, isRateLimit)
  }

  lemma {:induction false} ExpectedTraceSleepsFollowRateLimits<T>(call: nat -> Outcome<T>, isRateLimit: Thrown -> bool, from: nat, n: nat)
    requires 1 <= from <= n
    requires forall j :: from <= j < n ==> Retryable(call(j), isRateLimit)
    ensures SleepsFollowRateLimitErrors(ExpectedTrace(call, from, n), isRateLimit)
    ensures ExpectedTrace(call, from, n)[0].Called?
    decreases n - from
  {
    if from < n {
      ExpectedTraceSleepsFollowRateLimits(call, isRateLimit, from + 1, n);
      var rest := ExpectedTrace(call, from + 1, n);
      assert ExpectedTrace(call, from, n) == [Called(from, call(from)), Slept(BackoffMs(from))] + rest;
      assert Retryable(call(from), isRateLimit);
      PrependRetriedAttempt(call(from), isRateLimit, from, BackoffMs(from), rest);
    }
  }

  lemma PrependRetriedAttempt<T>(o: Outcome<T>, isRateLimit: Thrown -> bool, attempt: nat, ms: nat, rest: seq<Event<T>>)
    requires Retryable(o, isRateLimit)
    requires |rest| > 0 && rest[0].Called?
    requires SleepsFollowRateLimitErrors(rest, isRateLimit)
    ensures SleepsFollowRateLimitErrors([Called(attempt, o), Slept(ms)] + rest, isRateLimit)
  {
    var t := [Called(attempt, o), Slept(ms)] + rest;
    forall i | 0 <= i < |t| && t[i].Slept?
      ensures i > 0 && t[i - 1].Called? && Retryable(t[i - 1].outcome, isRateLimit)
    {
      if i >= 2 {
        assert t[i] == rest[i - 2];
        assert t[i - 1] == rest[i - 3] || i == 2;
      }
    }
  }

  /** `withRateLimitRetry` invokes the call at least once and at most four times. */
  lemma AtMostFourCalls<T>(call: nat -> Outcome<T>, isRateLimit: Thrown -> bool)
    ensures 1 <= CallCount(Retry(call, isRateLimit).trace) <= MaxAttempts
  {
    RetryCharacterization(call, isRateLimit, 1);
    ExpectedTraceShape(call, 1, StopAttempt(call, isRateLimit, 1));
  }

  const BackoffScheduleMs: seq<nat> := [1500, 3000, 6000]

  /** The sleeps are the backoffs 1500, 3000, 6000 ms of the attempts before the last. */
  lemma RunSleeps<T>(call: nat -> Outcome<T>, isRateLimit: Thrown -> bool)
    ensures var t := Retry(call, isRateLimit).trace;
      && 1 <= CallCount(t) <= MaxAttempts
      && Sleeps(t) == BackoffScheduleMs[..CallCount(t) - 1]
  {
    RetryCharacterization(call, isRateLimit, 1);
    ExpectedSleeps(call, StopAttempt(call, isRateLimit, 1));
  }

  lemma ExpectedSleeps<T>(call: nat -> Outcome<T>, n: nat)
    requires 1 <= n <= MaxAttempts
    ensures CallCount(ExpectedTrace(call, 1, n)) == n
    ensures Sleeps(ExpectedTrace(call, 1, n)) == BackoffScheduleMs[..n - 1]
  {
    ExpectedTraceShape(call, 1, n);
    SleepsMatchSchedule(Sleeps(ExpectedTrace(call, 1, n)), n);
  }

  lemma SleepsMatchSchedule(ms: seq<nat>, n: nat)
    requires 1 <= n <= MaxAttempts
    requires |ms| == n - 1
    requires forall i :: 0 <= i < n - 1 ==> ms[i] == BackoffMs(1 + i)
    ensures ms == BackoffScheduleMs[..n - 1]
  {
    BackoffSchedule();
    forall i | 0 <= i < n - 1
      ensures ms[i] == BackoffScheduleMs[i]
    {
      assert ms[i] == BackoffMs(1 + i);
    }
  }

  /** Each sleep is double the previous one, and one run sleeps at most 10500 ms in all. */
  lemma BackoffTotal<T>(call: nat -> Outcome<T>, isRateLimit: Thrown -> bool)
    ensures var ms := Sleeps(Retry(call, isRateLimit).trace);
      && (forall i :: 0 < i < |ms| ==> ms[i] == 2 * ms[i - 1])
      && Sum(ms) <= 10500
  {
    RunSleeps(call, isRateLimit);
    ScheduleSums(CallCount(Retry(call, isRateLimit).trace) - 1);
  }

  /** Every prefix of the schedule doubles step by step and sums to at most 10500 ms. */
  lemma ScheduleSums(m: nat)
    requires m <= |BackoffScheduleMs|
    ensures var ms := BackoffScheduleMs[..m];
      && (forall i :: 0 < i < |ms| ==> ms[i] == 2 * ms[i - 1])
      && Sum(ms) <= 10500
  {
    assert Sum([]) == 0;
    assert Sum([6000]) == 6000;
    assert Sum([3000]) == 3000;
    assert Sum([1500]) == 1500;
    assert Sum([3000, 6000]) == 9000 by { assert [3000, 6000][1..] == [6000]; }
    assert Sum([1500, 3000]) == 4500 by { assert [1500, 3000][1..] == [3000]; }
    assert Sum([1500, 3000, 6000]) == 10500 by { assert [1500, 3000, 6000][1..] == [3000, 6000]; }
    if m == 3 {
      assert BackoffScheduleMs[..m] == [1500, 3000, 6000];
    } else if m == 2 {
      assert BackoffScheduleMs[..m] == [1500, 3000];
    } else if m == 1 {
      assert BackoffScheduleMs[..m] == [1500];
    } else {
      assert BackoffScheduleMs[..m] == [];
    }
  }

  /** Every sleep directly follows a call that failed with a rate-limit error. */
  lemma SleepsFollowRateLimits<T>(call: nat -> Outcome<T>, isRateLimit: Thrown -> bool)
    ensures SleepsFollowRateLimitErrors(Retry(call, isRateLimit).trace, isRateLimit)
  {
    RetryCharacterization(call, isRateLimit, 1);
    ExpectedTraceSleepsFollowRateLimits(call, isRateLimit, 1, StopAttempt(call, isRateLimit, 1));
  }

  /**
   * An error that is not a rate limit, thrown after `k - 1` rate-limited
   * attempts, is rethrown at once: `k` calls, `k - 1` sleeps, nothing after it.
   */
  lemma FailFast<T>(call: nat -> Outcome<T>, isRateLimit: Thrown -> bool, k: nat)
    requires 1 <= k <= MaxAttempts
    requires forall j :: 1 <= j < k ==> Retryable(call(j), isRateLimit)
    requires call(k).Err? && !isRateLimit(call(k).error)
    ensures Retry(call, isRateLimit).result == call(k)
    ensures CallCount(Retry(call, isRateLimit).trace) == k
    ensures |Sleeps(Retry(call, isRateLimit).trace)| == k - 1
    ensures Last(Retry(call, isRateLimit).trace) == Called(k, call(k))
  {
    RetryFirstSettled(call, isRateLimit, k);
    ExpectedTraceShape(call, 1, k);
    LastOfExpectedTrace(call, 1, k);
  }

  /**
   * A value returned on attempt `k` after `k - 1` rate-limited attempts is
   * the result, after exactly `k - 1` sleeps.
   */
  lemma SuccessOnAttempt<T>(call: nat -> Outcome<T>, isRateLimit: Thrown -> bool, k: nat)
    requires 1 <= k <= MaxAttempts
    requires forall j :: 1 <= j < k ==> Retryable(call(j), isRateLimit)
    requires call(k).Ok?
    ensures Retry(call, isRateLimit).result == call(k)
    ensures CallCount(Retry(call, isRateLimit).trace) == k
    ensures Sleeps(Retry(call, isRateLimit).trace) == BackoffScheduleMs[..k - 1]
  {
    RetryFirstSettled(call, isRateLimit, k);
    ExpectedSleeps(call, k);
  }

  /** Four rate-limited attempts: the fourth error itself is rethrown. */
  lemma ExhaustedRethrowsLast<T>(call: nat -> Outcome<T>, isRateLimit: Thrown -> bool)
    requires forall j :: 1 <= j <= MaxAttempts ==> Retryable(call(j), isRateLimit)
    ensures Retry(call, isRateLimit).result == call(MaxAttempts)
    ensures Retry(call, isRateLimit).result.Err? && isRateLimit(Retry(call, isRateLimit).result.error)
    ensures CallCount(Retry(call, isRateLimit).trace) == MaxAttempts
    ensures Sleeps(Retry(call, isRateLimit).trace) == BackoffScheduleMs
  {
    RetryFirstSettled(call, isRateLimit, MaxAttempts);
    ExpectedSleeps(call, MaxAttempts);
  }

  /** The result is always the outcome of an attempt that was made; no error is invented. */
  lemma ResultIsAnAttempt<T>(call: nat -> Outcome<T>, isRateLimit: Thrown -> bool)
    ensures exists k :: 1 <= k <= MaxAttempts && Retry(call, isRateLimit).result == call(k)
  {
    RetryCharacterization(call, isRateLimit, 1);
    var n := StopAttempt(call, isRateLimit, 1);
    assert 1 <= n <= MaxAttempts && Retry(call, isRateLimit).result == call(n);
  }

  function Last<T>(t: seq<T>): T
    requires |t| > 0
  {
    t[|t| - 1]
  }

  lemma RetryFirstSettled<T>(call: nat -> Outcome<T>, isRateLimit: Thrown -> bool, k: nat)
    requires 1 <= k <= MaxAttempts
    requires forall j :: 1 <= j < k ==> Retryable(call(j), isRateLimit)
    requires !Retryable(call(k), isRateLimit) || k == MaxAttempts
    ensures Retry(call, isRateLimit).result == call(k)
    ensures Retry(call, isRateLimit).trace == ExpectedTrace(call, 1, k)
  {
    StopAttemptIs(call, isRateLimit, 1, k);
    RetryCharacterization(call, isRateLimit, 1);
  }

  /** `StopAttempt` is the first settled attempt. */
  lemma {:induction false} StopAttemptIs<T>(call: nat -> Outcome<T>, isRateLimit: Thrown -> bool, from: nat, k: nat)
    requires 1 <= from <= k <= MaxAttempts
    requires forall j :: from <= j < k ==> Retryable(call(j), isRateLimit)
    requires !Retryable(call(k), isRateLimit) || k == MaxAttempts
    ensures StopAttempt(call, isRateLimit, from) == k
    decreases k - from
  {
    if from < k {
      StopAttemptIs(call, isRateLimit, from + 1, k);
    }
  }

  lemma {:induction false} LastOfExpectedTrace<T>(call: nat -> Outcome<T>, from: nat, n: nat)
    requires 1 <= from <= n
    ensures Last(ExpectedTrace(call, from, n)) == Called(n, call(n))
    decreases n - from
  {
    if from < n {
      LastOfExpectedTrace(call, from + 1, n);
    }
  }

  // ---- The flow's schemas and its single retried call ----

  /** The flow's input schema. */
  datatype PlannerInput = PlannerInput(startLocation: string, destination: string, notes: Option<string>)

  /** One step of the model's answer. */
  datatype PlannerStep = PlannerStep(
    instruction: string,
    schedule: string,
    arrivalTime: Option<string>,
    locationName: string,
    description: string,
    landmark: Option<string>)

  /** The flow's output schema. */
  datatype PlannerOutput = PlannerOutput(summary: string, steps: seq<PlannerStep>, eta: string, estimatedCost: string)

  /** What the prompt returns: a possibly missing structured output. */
  datatype PromptResponse = PromptResponse(output: Option<PlannerOutput>)

  /**
   * The flow body: the prompt is called through `withRateLimitRetry`, and
   * the response's `output` is passed on (`output!` is a type assertion
   * and does not check at run time).
   */
  function PlannerFlow(prompt: nat -> Outcome<PromptResponse>): (r: Outcome<Option<PlannerOutput>>)
    ensures var k := StopAttempt(prompt, IsRateLimitError, 1);
      && (forall j :: 1 <= j < k ==> Retryable(prompt(j), IsRateLimitError))
      && (k < MaxAttempts ==> !Retryable(prompt(k), IsRateLimitError))
      && match prompt(k)
        case Ok(resp) => r == Ok(resp.output)
        case Err(e) => r == Err(e)
  {
    RetryCharacterization(prompt, IsRateLimitError, 1);
    match WithRateLimitRetry(prompt).result
    case Ok(resp) => Ok(resp.output)
    case Err(e) => Err(e)
  }

  /** Three "429" errors then a success returns it after sleeping 1.5 s, 3 s and 6 s. */
  lemma ThreeRateLimitsThenSuccess<T>(v: T)
    ensures var call := (k: nat) => if k < 4 then Err(ErrorObject("429 Too Many Requests")) else Ok(v);
      && WithRateLimitRetry(call).result == Ok(v)
      && CallCount(WithRateLimitRetry(call).trace) == 4
      && Sleeps(WithRateLimitRetry(call).trace) == [1500, 3000, 6000]
  {
    var call := (k: nat) => if k < 4 then Err(ErrorObject("429 Too Many Requests")) else Ok(v);
    assert OccursAt("429 Too Many Requests", "429", 0);
    SuccessOnAttempt(call, IsRateLimitError, 4);
  }
}
