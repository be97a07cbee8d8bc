/** The bounded retry loop of `_request` (sellsyapi/client.py:88, 99-110).
    The loop as committed does not parse: a `while` without a colon is
    followed by a `for`, and the handler calls `time.sleep` on the imported
    function and names the undefined `max_retries` and `e`. This module
    models the evident intent: `for attempt in range(MAX_RETRIES)` with the
    `retries` counter, `sleep(2 ** retries)` and the error naming the
    endpoint and the caught exception. */
module Retries {
  import opened Wrappers
  import opened JsonValues
  import opened Errors

  const MaxRetries: nat := 5

  /** One HTTP attempt, as the oracle standing in for `request`,
      `raise_for_status` and `response.json()` reports it. */
  datatype Outcome = Success(body: Json) | Transient(detail: string)

  /** The record of one call: its result, the number of HTTP attempts made,
      and the durations slept, in order. */
  datatype Run = Run(result: Result<Json, Error>, attempts: nat, sleeps: seq<nat>)

  function Pow2(k: nat): (r: nat)
    ensures r >= 1
  {
    if k == 0 then 1 else 2 * Pow2(k - 1)
  }

  lemma {:induction false} Pow2StrictlyIncreasing(i: nat, j: nat)
    requires i < j
    ensures Pow2(i) < Pow2(j)
    decreases j
  {
    if i < j - 1 {
      Pow2StrictlyIncreasing(i, j - 1);
    }
  }

  /** The backoff delays slept after the first `n` failures: 2, 4, 8, ... */
  function Backoffs(n: nat): (r: seq<nat>)
    ensures |r| == n
    ensures forall i :: 0 <= i < n ==> r[i] == Pow2(i + 1)
  {
    seq(n, i requires 0 <= i => Pow2(i + 1))
  }

  /** The delays strictly grow from one retry to the next. */
  lemma BackoffsStrictlyIncreasing(n: nat, i: nat, j: nat)
    requires i < j < n
    ensures Backoffs(n)[i] < Backoffs(n)[j]
  {
    Pow2StrictlyIncreasing(i + 1, j + 1);
  }

  /** Every attempt with index in `[from, to)` failed. */
  ghost predicate FailedBetween(respond: nat -> Outcome, from: nat, to: nat) {
    forall i: nat :: from <= i < to ==> respond(i).Transient?
  }

  /** The independent description of a call to `endpoint`: at most
      `MaxRetries` attempts, every attempt but the last failed, the first
      success is returned, exhaustion raises naming the endpoint and the
      last failure, and one backoff is slept between consecutive attempts. */
  ghost predicate Describes(endpoint: string, respond: nat -> Outcome, run: Run) {
    && 1 <= run.attempts <= MaxRetries
    && FailedBetween(respond, 0, run.attempts - 1)
    && (run.result.Ok? <==> respond(run.attempts - 1).Success?)
    && (run.result.Ok? ==> run.result.value == respond(run.attempts - 1).body)
    && (run.result.Err? ==>
          run.attempts == MaxRetries
          && run.result.error == RetriesExhausted(endpoint, respond(MaxRetries - 1).detail))
    && run.sleeps == Backoffs(run.attempts - 1)
  }

  /** At most one run fits the description. */
  lemma DescribesUnique(endpoint: string, respond: nat -> Outcome, a: Run, b: Run)
    requires Describes(endpoint, respond, a) && Describes(endpoint, respond, b)
    ensures a == b
  {
  }

  /** The attempts from the `retries`-th on (`retries` failures so far). */
  function RunFrom(endpoint: string, respond: nat -> Outcome, retries: nat): (r: Run)
    requires retries < MaxRetries
    ensures retries < r.attempts <= MaxRetries
    ensures FailedBetween(respond, retries, r.attempts - 1)
    ensures r.result.Ok? <==> respond(r.attempts - 1).Success?
    ensures r.result.Ok? ==> r.result.value == respond(r.attempts - 1).body
    ensures r.result.Err? ==>
      r.attempts == MaxRetries
      && r.result.error == RetriesExhausted(endpoint, respond(MaxRetries - 1).detail)
    ensures |r.sleeps| == r.attempts - 1 - retries
    ensures forall i :: 0 <= i < |r.sleeps| ==> r.sleeps[i] == Pow2(retries + i + 1)
    decreases MaxRetries - retries
  {
    match respond(retries)
    case Success(body) => Run(Ok(body), retries + 1, [])
    case Transient(detail) =>
      if retries + 1 == MaxRetries then
        Run(Err(RetriesExhausted(endpoint, detail)), retries + 1, [])
      else
        var rest := RunFrom(endpoint, respond, retries + 1);
        Run(rest.result, rest.attempts, [Pow2(retries + 1)] + rest.sleeps)
  }

  /** The whole retry loop of a call to `endpoint`. */
  function Retry(endpoint: string, respond: nat -> Outcome): (r: Run)
    ensures Describes(endpoint, respond, r)
  {
    RunFrom(endpoint, respond, 0)
  }

  /** An upstream failing the first `n - 1` attempts and then answering is
      called exactly `n` times, with delays 2, 4, ..., 2^(n-1) between. */
  lemma SucceedsOnAttempt(endpoint: string, respond: nat -> Outcome, n: nat)
    requires 1 <= n <= MaxRetries
    requires FailedBetween(respond, 0, n - 1) && respond(n - 1).Success?
    ensures Retry(endpoint, respond) == Run(Ok(respond(n - 1).body), n, Backoffs(n - 1))
  {
    DescribesUnique(endpoint, respond, Retry(endpoint, respond),
                    Run(Ok(respond(n - 1).body), n, Backoffs(n - 1)));
  }

  /** An upstream that always fails is called exactly `MaxRetries` times,
      then the call raises naming the endpoint and the last failure. */
  lemma AlwaysFailingExhausts(endpoint: string, respond: nat -> Outcome)
    requires FailedBetween(respond, 0, MaxRetries)
    ensures Retry(endpoint, respond) ==
      Run(Err(RetriesExhausted(endpoint, respond(MaxRetries - 1).detail)), MaxRetries, [2, 4, 8, 16])
  {
    var r := Retry(endpoint, respond);
    assert Backoffs(4) == [2, 4, 8, 16];
  }

  /** The loop itself, over the outcome oracle `respond`; `sleeps` records
      the durations passed to `sleep` instead of sleeping. */
  method Execute(endpoint: string, respond: nat -> Outcome)
    returns (result: Result<Json, Error>, attempts: nat, sleeps: seq<nat>)
    ensures Describes(endpoint, respond, Run(result, attempts, sleeps))
    ensures Run(result, attempts, sleeps) == Retry(endpoint, respond)
  {
    var retries: nat := 0;
    sleeps := [];
    for attempt := 0 to MaxRetries
      invariant retries == attempt < MaxRetries
      invariant FailedBetween(respond, 0, attempt)
      invariant sleeps == Backoffs(retries)
    {
      match respond(attempt)
      case Success(body) =>
        result, attempts := Ok(body), attempt + 1;
        DescribesUnique(endpoint, respond, Run(result, attempts, sleeps), Retry(endpoint, respond));
        return;
      case Transient(detail) =>
        retries := retries + 1;
        if retries == MaxRetries {
          result, attempts := Err(RetriesExhausted(endpoint, detail)), retries;
          DescribesUnique(endpoint, respond, Run(result, attempts, sleeps), Retry(endpoint, respond));
          return;
        }
        sleeps := sleeps + [Pow2(retries)];
    }
    assert false;
  }

  /** The handler as reconstructed, with its statements in source order:
      `retries += 1`, then `sleep(2 ** retries)`, then the exhaustion test.
      After the last failure it therefore sleeps once more before raising. */
  function RunAsWrittenFrom(endpoint: string, respond: nat -> Outcome, retries: nat): (r: Run)
    requires retries < MaxRetries
    ensures retries < r.attempts <= MaxRetries
    ensures FailedBetween(respond, retries, r.attempts - 1)
    ensures r.result.Ok? <==> respond(r.attempts - 1).Success?
    ensures r.result.Ok? ==> r.result.value == respond(r.attempts - 1).body
    ensures r.result.Err? ==>
      r.attempts == MaxRetries
      && r.result.error == RetriesExhausted(endpoint, respond(MaxRetries - 1).detail)
    ensures |r.sleeps| == (if r.result.Err? then r.attempts - retries else r.attempts - 1 - retries)
    ensures forall i :: 0 <= i < |r.sleeps| ==> r.sleeps[i] == Pow2(retries + i + 1)
    decreases MaxRetries - retries
  {
    match respond(retries)
    case Success(body) => Run(Ok(body), retries + 1, [])
    case Transient(detail) =>
      if retries + 1 == MaxRetries then
        Run(Err(RetriesExhausted(endpoint, detail)), retries + 1, [Pow2(retries + 1)])
      else
        var rest := RunAsWrittenFrom(endpoint, respond, retries + 1);
        Run(rest.result, rest.attempts, [Pow2(retries + 1)] + rest.sleeps)
  }

  function RetryAsWritten(endpoint: string, respond: nat -> Outcome): Run {
    RunAsWrittenFrom(endpoint, respond, 0)
  }

  /** The loop as written agrees with `Retry` on results and attempts; it
      differs only in one extra sleep of 2^MaxRetries after the final failure. */
  lemma AsWrittenFromDiffersOnExhaustion(endpoint: string, respond: nat -> Outcome, retries: nat)
    requires retries < MaxRetries
    ensures var fixed := RunFrom(endpoint, respond, retries);
      RunAsWrittenFrom(endpoint, respond, retries) ==
        if fixed.result.Err? then fixed.(sleeps := fixed.sleeps + [Pow2(MaxRetries)]) else fixed
  {
    var fixed := RunFrom(endpoint, respond, retries);
    var written := RunAsWrittenFrom(endpoint, respond, retries);
    assert fixed.attempts == written.attempts;
    if fixed.result.Err? {
      assert written.sleeps == fixed.sleeps + [Pow2(MaxRetries)];
    } else {
      assert written.sleeps == fixed.sleeps;
    }
  }

  lemma AsWrittenDiffersOnExhaustion(endpoint: string, respond: nat -> Outcome)
    ensures var fixed := Retry(endpoint, respond);
      RetryAsWritten(endpoint, respond) ==
        if fixed.result.Err? then fixed.(sleeps := fixed.sleeps + [Pow2(MaxRetries)]) else fixed
  {
    AsWrittenFromDiffersOnExhaustion(endpoint, respond, 0);
  }

  /** An upstream that always times out: as written, the call sleeps 32 more
      time units after the fifth failure before raising; the delays between
      attempts are only 2, 4, 8 and 16. */
  lemma AsWrittenSleepsAfterFinalFailure()
    ensures var respond := (i: nat) => Transient("timeout");
      && RetryAsWritten("batch", respond).sleeps == [2, 4, 8, 16, 32]
      && Retry("batch", respond).sleeps == [2, 4, 8, 16]
  {
    var respond := (i: nat) => Transient("timeout");
    AlwaysFailingExhausts("batch", respond);
    AsWrittenDiffersOnExhaustion("batch", respond);
  }
}
