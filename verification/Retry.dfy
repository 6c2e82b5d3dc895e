/**
 The wrapper around a playbook action: attempts with a timeout, backoff sleeps between them, and
 the one result it records.
 */
module Retry {
  import opened Common
  import opened Reals

  /**
   How one call of the wrapped function ends; `Interrupted` is an exception outside `Exception`, such as a
   cancellation.
   */
  datatype Call = Returned(value: string) | TimedOut | Raised(error: string) | Interrupted

  datatype Status = Success | Failed

  datatype ActionResult = ActionResult(action: string, status: Status, attempt: nat, output: Option<string>,
                                       error: Option<string>)

  /** What the caller of the wrapper gets. */
  datatype Outcome = Value(value: string) | Error(call: Call) | RecorderError | NeverAttempted

  datatype Meta = Meta(name: string, timeout: real, retries: int, backoff: real)

  /**
   Everything the wrapper meets from outside: whether an execution context and its recorder are
   there, how the k-th call ends and how long it takes, and whether recording the k-th attempt with a
   status raises. `wait_for` cuts every call off at the timeout.
   */
  datatype Environment = Environment(
    inContext: bool, recording: bool, calls: nat -> Call, spent: nat -> real, refuses: (nat, Status) -> bool)

  function Pow(b: real, k: nat): real {
    if k == 0 then 1.0 else b * Pow(b, k - 1)
  }

  /** A sleep of a negative length is none. */
  function Pause(b: real, k: nat): (p: real)
    ensures p >= 0.0
  {
    if Pow(b, k) < 0.0 then 0.0 else Pow(b, k)
  }

  /** The pauses after attempts 1 to `k`. */
  function Pauses(b: real, k: nat): (p: real)
    ensures p >= 0.0
  {
    if k == 0 then 0.0 else Pauses(b, k - 1) + Pause(b, k)
  }

  lemma {:induction false} PausesMonotone(b: real, j: nat, k: nat)
    requires j <= k
    ensures Pauses(b, j) <= Pauses(b, k)
  {
    if j < k {
      PausesMonotone(b, j, k - 1);
    }
  }

  /** `k` timeouts in a row. */
  function Timeouts(timeout: real, k: nat): real {
    if k == 0 then 0.0 else Timeouts(timeout, k - 1) + timeout
  }

  /** The most a wrapper with `n` retries can spend in calls and pauses together. */
  function WaitBound(meta: Meta, n: nat): real {
    Timeouts(meta.timeout, n + 1) + Pauses(meta.backoff, n)
  }

  lemma OneMore(x: real, t: real)
    ensures (x + 1.0) * t == x * t + t
  {
  }

  lemma {:induction false} TimeoutsIsProduct(timeout: real, k: nat)
    ensures Timeouts(timeout, k) == k as real * timeout
  {
    if k > 0 {
      TimeoutsIsProduct(timeout, k - 1);
      OneMore((k - 1) as real, timeout);
    }
  }

  lemma {:induction false} TimeoutsMonotone(timeout: real, j: nat, k: nat)
    requires timeout >= 0.0 && j <= k
    ensures Timeouts(timeout, j) <= Timeouts(timeout, k)
  {
    if j < k {
      TimeoutsMonotone(timeout, j, k - 1);
    }
  }

  lemma WithinBound(meta: Meta, attempts: nat, n: nat, busy: real)
    requires meta.timeout >= 0.0 && 1 <= attempts <= n + 1 && busy <= Timeouts(meta.timeout, attempts)
    ensures busy + Pauses(meta.backoff, attempts - 1) <= WaitBound(meta, n)
  {
    TimeoutsMonotone(meta.timeout, attempts, n + 1);
    PausesMonotone(meta.backoff, attempts - 1, n);
  }

  lemma {:induction false} PowNonNegative(b: real, k: nat)
    requires b >= 0.0
    ensures Pow(b, k) >= 0.0
  {
    if k > 0 {
      PowNonNegative(b, k - 1);
    }
  }

  /** Where the backoff is not negative, the pauses are a geometric sum. */
  lemma {:induction false} PausesGeometric(b: real, k: nat)
    requires b >= 0.0
    ensures Times(b - 1.0, Pauses(b, k)) == Pow(b, k + 1) - b
  {
    if k == 0 {
      assert Pow(b, 1) == b * Pow(b, 0);
    } else {
      PausesGeometric(b, k - 1);
      PowNonNegative(b, k);
      GeometricStep(b, Pauses(b, k - 1), Pow(b, k), Pow(b, k + 1));
    }
  }

  lemma GeometricStep(b: real, sum: real, power: real, next: real)
    requires next == b * power && Times(b - 1.0, sum) == power - b
    ensures Times(b - 1.0, sum + power) == next - b
  {
  }

  /** The time spent in the first `k` calls. */
  function Spent(env: Environment, k: nat): real {
    if k == 0 then 0.0 else Spent(env, k - 1) + env.spent(k)
  }

  /** Each of the first `k` calls counts once, and no other. */
  lemma {:induction false} SpentOn(env: Environment, k: nat, i: nat)
    requires forall j :: 1 <= j <= k && j != i ==> env.spent(j) == 0.0
    ensures Spent(env, k) == if 1 <= i <= k then env.spent(i) else 0.0
  {
    if k > 0 {
      SpentOn(env, k - 1, i);
    }
  }

  /** The call returned and its success was recorded, or there is no recorder. */
  predicate Accepted(env: Environment, k: nat) {
    env.calls(k).Returned? && (env.recording ==> !env.refuses(k, Success))
  }

  /** What a failing last attempt raises: the function's own error, or the recorder's when that refused the success. */
  function FailureOf(env: Environment, k: nat): Outcome {
    if env.calls(k).Returned? then RecorderError else Error(env.calls(k))
  }

  function ErrorText(c: Call): string {
    match c
    case TimedOut => "Timeout"
    case Raised(e) => e
    case Returned(_) => "recorder"
    case Interrupted => ""
  }

  /** A recorder that is there and never raises. */
  ghost predicate Records(env: Environment) {
    env.recording && forall k, s :: !env.refuses(k, s)
  }

  /** The one result of an action: the attempts made, and success exactly when the last call returned. */
  ghost predicate TellsTheEnd(rows: seq<ActionResult>, name: string, attempts: nat, last: Call) {
    && |rows| == 1 && rows[0].action == name && rows[0].attempt == attempts
    && (rows[0].status == Success <==> last.Returned?)
    && (last.Returned? ==> rows[0].output == Some(last.value) && rows[0].error == None)
    && (last.Raised? ==> rows[0].output == None && rows[0].error == Some(last.error))
  }

  /** The wrapped action. `busy` is the time spent in calls, `slept` the time spent in pauses. */
  method Invoke(meta: Meta, env: Environment)
    returns (outcome: Outcome, attempts: nat, rows: seq<ActionResult>, busy: real, slept: real)
    requires forall k :: 0.0 <= env.spent(k) <= meta.timeout
    // Outside an execution: one bare call.
    ensures !env.inContext ==> attempts == 1 && rows == []
    ensures !env.inContext ==> outcome == match env.calls(1) case Returned(v) => Value(v) case other => Error(other)
    ensures env.inContext && meta.retries < 0 ==> attempts == 0 && rows == [] && outcome == NeverAttempted
    // Which attempt is the last: no earlier one ended the loop, and it is the final one or ended it.
    ensures env.inContext && meta.retries >= 0 ==>
      && 1 <= attempts <= meta.retries + 1
      && (forall j :: 1 <= j < attempts ==>
            && !env.calls(j).Interrupted?
            && (env.calls(j).Returned? ==> env.recording && env.refuses(j, Success)))
      && (attempts < meta.retries + 1 && !env.calls(attempts).Interrupted? ==>
            env.calls(attempts).Returned? && !(env.recording && env.refuses(attempts, Success)))
    // A value exactly when some attempt returns and is recorded before any interruption: that of the first such.
    ensures env.inContext && meta.retries >= 0 ==>
      (outcome.Value? <==> exists k :: 1 <= k <= meta.retries + 1 && Delivers(env, k))
    ensures env.inContext && meta.retries >= 0 && outcome.Value? ==>
      env.calls(attempts) == Returned(outcome.value) && !(env.recording && env.refuses(attempts, Success))
    // Otherwise the error of the last attempt, unless the recorder has the last word.
    ensures env.inContext && meta.retries >= 0 && !outcome.Value? ==>
      outcome ==
        if env.calls(attempts).Returned? then RecorderError
        else if !env.calls(attempts).Interrupted? && env.recording && env.refuses(attempts, Failed) then RecorderError
        else Error(env.calls(attempts))
    // The rows.
    ensures env.inContext && (!env.recording || (meta.retries >= 0 && env.calls(attempts).Interrupted?)) ==> rows == []
    ensures env.inContext && meta.retries >= 0 && env.recording && outcome.Value? ==>
      rows == [ActionResult(meta.name, Success, attempts, Some(outcome.value), None)]
    ensures var last := env.calls(attempts);
      env.inContext && meta.retries >= 0 && env.recording && !outcome.Value? && !last.Interrupted? ==>
        rows == if env.refuses(attempts, Failed) then []
          else [ActionResult(meta.name, Failed, attempts, None,
            Some(if last.TimedOut? then "Timeout" else if last.Raised? then last.error else "recorder"))]
    ensures env.inContext && meta.retries >= 0 && Records(env) && !env.calls(attempts).Interrupted? ==>
      TellsTheEnd(rows, meta.name, attempts, env.calls(attempts))
    // The waiting.
    ensures env.inContext && meta.retries >= 0 ==>
      && busy == Spent(env, attempts) && slept == Pauses(meta.backoff, attempts - 1)
      && busy + slept <= WaitBound(meta, meta.retries)
  {
    assert 0.0 <= env.spent(0) <= meta.timeout;
    attempts, rows, busy, slept := 0, [], 0.0, 0.0;
    if !env.inContext {
      attempts := 1;
      outcome := match env.calls(1) case Returned(v) => Value(v) case other => Error(other);
      return;
    }
    while attempts < meta.retries + 1
      invariant attempts <= meta.retries || attempts == 0
      invariant rows == []
      invariant forall j :: 1 <= j <= attempts ==> !Accepted(env, j) && !env.calls(j).Interrupted?
      invariant slept == Pauses(meta.backoff, attempts)
      invariant busy == Spent(env, attempts) <= Timeouts(meta.timeout, attempts)
    {
      attempts := attempts + 1;
      var call := env.calls(attempts);
      busy := busy + env.spent(attempts);
      WithinBound(meta, attempts, meta.retries, busy);
      match call {
        case Interrupted =>
          outcome := Error(Interrupted);
          return;
        case Returned(value) =>
          if !env.recording {
            assert Delivers(env, attempts);
            outcome := Value(value);
            return;
          }
          if !env.refuses(attempts, Success) {
            assert Delivers(env, attempts);
            rows := [ActionResult(meta.name, Success, attempts, Some(value), None)];
            outcome := Value(value);
            return;
          }
        case _ =>
      }
      // The attempt failed, by its own error or because recording its success raised.
      if attempts <= meta.retries {
        slept := slept + Pause(meta.backoff, attempts);
        continue;
      }
      outcome := FailureOf(env, attempts);
      if env.recording {
        if env.refuses(attempts, Failed) {
          outcome := RecorderError;
        } else {
          rows := [ActionResult(meta.name, Failed, attempts, None, Some(ErrorText(call)))];
        }
      }
      return;
    }
    outcome := NeverAttempted;
  }

  /** The `k`-th attempt would return and be recorded, and no earlier one interrupts. */
  ghost predicate Delivers(env: Environment, k: nat) {
    && env.calls(k).Returned? && !(env.recording && env.refuses(k, Success))
    && forall j :: 1 <= j < k ==> !env.calls(j).Interrupted?
  }
}
