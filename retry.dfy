/** `retry_bluetooth_connection_error`: calls the wrapped coroutine up to three times. The
    outcomes of successive calls are given as a script, one entry per call. */
module Retry {
  import opened Wrappers

  /** `DEFAULT_ATTEMPTS`. */
  const DefaultAttempts := 3

  /** `max_attempts = attempts - 1`: the index of the last attempt. */
  const MaxAttempt := DefaultAttempts - 1

  /** How the wrapper ended, how many times it called the coroutine, and how many
      back-off sleeps of `BLEAK_BACKOFF_TIME` it took. */
  datatype Run<T> = Run(result: Result<T, PyError>, calls: nat, sleeps: nat)

  /** An outcome the wrapper retries while attempts remain: `BleakDBusError` (after a sleep)
      or another member of `BLEAK_RETRY_EXCEPTIONS`. */
  predicate Transient<T>(o: Result<T, PyError>) {
    o.Err? && (o.error == BleakDBusError || o.error == BleakError)
  }

  /** The wrapper from attempt `attempt` on, having slept `sleeps` times so far. */
  function RetriedFrom<T>(script: seq<Result<T, PyError>>, attempt: nat, sleeps: nat): Run<T>
    requires attempt < DefaultAttempts <= |script|
    decreases DefaultAttempts - attempt
  {
    match script[attempt]
    case Ok(v) => Run(Ok(v), attempt + 1, sleeps)
    case Err(e) =>
      if e == BleakNotFoundError then Run(Err(e), attempt + 1, sleeps)
      else if e == BleakDBusError then
        if attempt >= MaxAttempt then Run(Err(e), attempt + 1, sleeps)
        else RetriedFrom(script, attempt + 1, sleeps + 1)
      else if e == BleakError then
        if attempt >= MaxAttempt then Run(Err(e), attempt + 1, sleeps)
        else RetriedFrom(script, attempt + 1, sleeps)
      else Run(Err(e), attempt + 1, sleeps)
  }

  function Retried<T>(script: seq<Result<T, PyError>>): Run<T>
    requires DefaultAttempts <= |script|
  {
    RetriedFrom(script, 0, 0)
  }

  /** The number of `BleakDBusError` outcomes in `s`. */
  function Backoffs<T>(s: seq<Result<T, PyError>>): nat {
    if s == [] then 0
    else Backoffs(s[..|s| - 1]) + (if s[|s| - 1] == Err(BleakDBusError) then 1 else 0)
  }

  lemma {:induction false} RetriedFromSpec<T>(script: seq<Result<T, PyError>>, attempt: nat, sleeps: nat)
    requires attempt < DefaultAttempts <= |script|
    ensures var r := RetriedFrom(script, attempt, sleeps);
      attempt < r.calls <= DefaultAttempts
      && r.result == script[r.calls - 1]
      && (forall i :: attempt <= i < r.calls - 1 ==> Transient(script[i]))
      && (r.calls < DefaultAttempts ==> !Transient(script[r.calls - 1]))
      && r.sleeps == sleeps + Backoffs(script[..r.calls - 1]) - Backoffs(script[..attempt])
    decreases DefaultAttempts - attempt
  {
    var r := RetriedFrom(script, attempt, sleeps);
    if Transient(script[attempt]) && attempt < MaxAttempt {
      var step := if script[attempt] == Err(BleakDBusError) then 1 else 0;
      RetriedFromSpec(script, attempt + 1, sleeps + step);
      assert script[..attempt + 1][..attempt] == script[..attempt];
    }
  }

  /** The wrapper makes one to three calls and ends with the outcome of the last one; every
      earlier call failed with a retryable Bleak error, and it stopped before the third call
      only on an outcome it does not retry (a value, `BleakNotFoundError` or an exception
      outside `BLEAK_RETRY_EXCEPTIONS`). It slept once for each `BleakDBusError` it retried. */
  lemma RetriedSpec<T>(script: seq<Result<T, PyError>>)
    requires DefaultAttempts <= |script|
    ensures var r := Retried(script);
      1 <= r.calls <= DefaultAttempts
      && r.result == script[r.calls - 1]
      && (forall i :: 0 <= i < r.calls - 1 ==> Transient(script[i]))
      && (r.calls < DefaultAttempts ==> !Transient(script[r.calls - 1]))
      && r.sleeps == Backoffs(script[..r.calls - 1])
  {
    RetriedFromSpec(script, 0, 0);
  }

  /** The loop of `_async_wrap_retry_bluetooth_connection_error`. */
  method CallWithRetry<T>(script: seq<Result<T, PyError>>) returns (run: Run<T>)
    requires DefaultAttempts <= |script|
    ensures run == Retried(script)
  {
    var sleeps := 0;
    var attempt := 0;
    var done: Option<Result<T, PyError>> := None;
    while done.None?
      invariant attempt <= DefaultAttempts
      invariant done.None? ==>
        attempt < DefaultAttempts && Retried(script) == RetriedFrom(script, attempt, sleeps)
      invariant done.Some? ==> Run(done.value, attempt, sleeps) == Retried(script)
      decreases DefaultAttempts - attempt
    {
      var outcome := script[attempt];
      match outcome {
        case Ok(v) =>
          done := Some(outcome);
        case Err(e) =>
          if e == BleakNotFoundError {
            done := Some(outcome);
          } else if e == BleakDBusError {
            if attempt >= MaxAttempt {
              done := Some(outcome);
            } else {
              sleeps := sleeps + 1;
            }
          } else if e == BleakError {
            if attempt >= MaxAttempt {
              done := Some(outcome);
            }
          } else {
            done := Some(outcome);
          }
      }
      attempt := attempt + 1;
    }
    run := Run(done.value, attempt, sleeps);
  }
}
