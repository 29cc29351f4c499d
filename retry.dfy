/** Bounded retry: invoke an action until it succeeds or the attempts run out. */
module Retry {
  import opened Outcomes

  /** The number of attempts a new retry configuration allows. */
  const DefaultMaxRetries: int := 5

  /** Runs `action` at most `maxRetries` times. `action(i)` is what the action
      does on its invocation number `i`, counting from zero. Returns how the
      call completed and how many times the action was invoked. */
  method Run<E>(maxRetries: int, action: nat -> Outcome<E>) returns (result: Completion<E>, invocations: nat)
    // A non-positive bound never invokes the action and returns normally.
    ensures maxRetries <= 0 ==> result == Returned && invocations == 0
    ensures 0 < maxRetries ==> 1 <= invocations <= maxRetries
    // Every invocation but the last one failed ...
    ensures forall i :: 0 <= i < invocations - 1 ==> action(i).Failed?
    // ... and the last one decides the completion: its success returns, its
    // failure is rethrown unchanged.
    ensures 0 < invocations ==> result == PassThrough(action(invocations - 1))
    // A failure is rethrown only once the attempts are exhausted.
    ensures result.Threw? ==> invocations == maxRetries
  {
    var retries := 0;
    invocations := 0;
    while retries < maxRetries
      invariant invocations == retries
      invariant retries == 0 || retries < maxRetries
      invariant forall i :: 0 <= i < retries ==> action(i).Failed?
      decreases maxRetries - retries
    {
      var outcome := action(invocations);
      invocations := invocations + 1;
      match outcome {
        case Succeeded =>
          return Returned, invocations;
        case Failed(e) =>
          retries := retries + 1;
          if retries >= maxRetries {
            return Threw(e), invocations;
          }
      }
    }
    result := Returned;
  }

  /** The retry scenarios: a first success runs once, one failure then a
      success runs twice, and a permanent failure runs the default five times
      and rethrows. */
  method RetryScenarios()
  {
    var smooth := (i: nat) => Succeeded;
    var r, n := Run(DefaultMaxRetries, smooth);
    assert smooth(0).Succeeded?;
    assert r == Returned && n == 1;

    var failOnce := (i: nat) => if i < 1 then Failed("invalid operation") else Succeeded;
    r, n := Run(DefaultMaxRetries, failOnce);
    assert failOnce(1).Succeeded?;
    assert r == Returned && n == 2;

    var alwaysFail := (i: nat) => Failed("invalid operation");
    r, n := Run(DefaultMaxRetries, alwaysFail);
    assert r == Threw("invalid operation") && n == 5;

    r, n := Run(0, alwaysFail);
    assert r == Returned && n == 0;
  }
}
