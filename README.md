# Parachute resilience toolkit — a Dafny model

Parachute wraps a unit of work, an action that may throw, in policies that decide how to tolerate failures:

- a **circuit breaker** (`CircuitBreaker.Create`) that records failures in a sliding time window, trips to Open when too many fall inside it, rejects calls with a `CircuitOpenException` while Open, and probes the action again once a reset timeout has expired;
- the standalone **`CircuitBreakerState`** machine, with guarded transitions `Trip`, `AttemptReset` and `Reset`;
- a bounded **retry** loop (`Retry.Run`);
- a **fallback** chain (`Fallback.Run`) that tries alternative actions in order;
- two **backoff policies**: an instant policy (a settable constant delay, zero by default) and an exponential policy (attempt² seconds).

The model is sequential and deterministic. The clock and the action's behaviour are inputs:

- Each breaker call receives its clock reading `now`.
- Each invocation of a user action is an `Outcome` value: `Succeeded` or `Failed(e)`, where `e` is the exception it throws.
- A wrapper's completion is a `Completion`: `Returned` or `Threw(e)`. A breaker call can also reply `CircuitOpen`, or `WindowOutOfRange` when computing the start of the error window raises `ArgumentOutOfRangeException`.
- Instants and durations are whole .NET ticks of 100 ns (module `Time`, `Seconds(n) = n * 10^7`). An instant is the tick count of a DateTime, counted from DateTime.MinValue; `InDateRange` says whether a tick count is a representable DateTime.

Files:

- `time.dfy`: ticks and seconds.
- `outcomes.dfy`: `Option`, `Outcome`, `Completion` and `PassThrough`. `PassThrough` is the completion of a wrapper that lets the action's failure propagate unchanged.
- `circuit_breaker_state.dfy` (module `BreakerStates`): the `CircuitBreakerStates` enumeration, the transitions as pure functions, and the class `CircuitBreakerState` whose methods update its field in place.
- `circuit_breaker.dfy` (module `CircuitBreaker`):
  - `Config` and `Snapshot`;
  - the specification of one call (`Step`) and of a sequence of calls (`Replay`), with the lemmas about them;
  - the class `Breaker`. Its method `Call` mutates the captured state imperatively and is proved equal to `Step` on the abstraction `Current()`; its constructor `Create` establishes the initial snapshot.
- `retry.dfy`, `fallback.dfy`: the loops as methods with invariants.
- `policies.dfy`: the two policies as one datatype.

The source has two copies of the state enumeration: a public one in `CircuitBreaker.cs` and a private one in `CircuitBreakerState.cs`. The model defines it once, in `BreakerStates`. `StepFollowsStateMachine` proves that every state change the breaker makes is one of the guarded transitions.

The model follows the code literally; in particular:

- **Trip test.** The breaker trips when the errors in the window strictly exceed `Threashold` (`>`), not when they reach it.
- **Window start.** The start of the window, `now - ThreasholdWindow`, is a DateTime subtraction. When it falls outside the DateTime range (for instance with `ThreasholdWindow = TimeSpan.MaxValue`), it throws `ArgumentOutOfRangeException` inside the catch block. The caller then receives that exception instead of the action's, the failure stays recorded, and the breaker does not trip.
- **Window test.** An error counts when its instant is strictly after `now - ThreasholdWindow`.
- **No clearing.** A success in Closed leaves the recorded error instants as they are.
- **Every exception counts.** Every exception the action throws in Closed is recorded.
- **Probe from Open.** An Open breaker whose timeout has expired runs the action itself. A success leaves it PartiallyOpen, not Closed. A failure records the last error, leaves it Open and does not append to the window.

`StrictComparisonsTimeline` works through one timeline under these rules: calls at 0, 1, 2, 7 and 8 seconds after 2016-08-12 15:00:00, with threshold 1 and a five-second window.

## Model

| member | source | states |
|---|---|---|
| `Time.Seconds` | src/Parachute/CircuitBreaker.cs:90 | a duration of n seconds is non-negative exactly when n is, and zero exactly when n is |
| `Outcomes.PassThrough` | src/Parachute/Retry.cs:16-27 | a wrapper returns exactly when the action succeeded, and rethrows the action's own exception unchanged otherwise |
| `BreakerStates.Tripped` | src/Parachute/CircuitBreakerState.cs:16-20 | after `Trip()` the state is Open, whatever it was before |
| `BreakerStates.ResetAttempted` | src/Parachute/CircuitBreakerState.cs:22-26 | after `AttemptReset()` the state is never Open, and it is Closed exactly when it was Closed before: Open moves to PartiallyOpen and the other states stay put |
| `BreakerStates.ResetDone` | src/Parachute/CircuitBreakerState.cs:28-32 | after `Reset()` the state is Closed, whatever it was before |
| `BreakerStates.TransitionsIdempotent` | src/Parachute/CircuitBreakerState.cs:16-32 | each of the three transitions, applied twice, gives the same state as applied once |
| `BreakerStates.CircuitBreakerState.constructor` | src/Parachute/CircuitBreakerState.cs:7-10 | a new instance is Closed |
| `BreakerStates.CircuitBreakerState.ExactlyOneQueryHolds` | src/Parachute/CircuitBreakerState.cs:12-14 | exactly one of `IsOpen`, `IsClosed` and `IsPartial` holds; they are read-only functions of the state |
| `BreakerStates.CircuitBreakerState.Trip` | src/Parachute/CircuitBreakerState.cs:16-20 | the field becomes `Tripped` of its old value, so `IsOpen` holds afterwards |
| `BreakerStates.CircuitBreakerState.AttemptReset` | src/Parachute/CircuitBreakerState.cs:22-26 | Open becomes PartiallyOpen; any other state is left unchanged |
| `BreakerStates.CircuitBreakerState.Reset` | src/Parachute/CircuitBreakerState.cs:28-32 | the field becomes `ResetDone` of its old value, so `IsClosed` holds afterwards |
| `CircuitBreaker.DefaultConfig` | src/Parachute/CircuitBreaker.cs:88-94 | a new config starts Closed, with threshold 0 and a two-second window; its timeout predicate holds exactly for elapsed times over five seconds, so never for zero |
| `CircuitBreaker.CountNewer` | src/Parachute/CircuitBreaker.cs:31-32 | the number of error instants strictly after the bound is at most their number; it is zero exactly when none is after the bound, and all of them exactly when every one is |
| `CircuitBreaker.CountNewerAppend` | src/Parachute/CircuitBreaker.cs:28-32 | appending an instant adds one to the count exactly when that instant is itself after the bound |
| `CircuitBreaker.Elapsed` | src/Parachute/CircuitBreaker.cs:42 | the time since the last error; zero when no error was recorded |
| `CircuitBreaker.Step` | src/Parachute/CircuitBreaker.cs:17-76 | one call. The action is skipped, with a CircuitOpen reply and no change, exactly when the breaker is Open and the timeout predicate rejects the elapsed time. An invoked action's success returns and its failure is rethrown unchanged, except that a failure in Closed whose window would start outside the DateTime range replies with the range error and never trips. Every invoked failure sets the last error to `now`. Only a failure in Closed appends `now` to the error instants, and it trips exactly when the window start is in range and the count in the window then exceeds the threshold. A failed probe from PartiallyOpen always trips. Successes never trip. PartiallyOpen is reached exactly by a success from an expired Open. Open never moves straight to Closed |
| `CircuitBreaker.ClosedFailureTrips` | src/Parachute/CircuitBreaker.cs:26-37 | with a positive window, a failure in Closed trips exactly when the window starts at a representable DateTime and the errors already inside the window plus the new one exceed the threshold |
| `CircuitBreaker.StepFollowsStateMachine` | src/Parachute/CircuitBreaker.cs:20-75 | each call's state change is a guarded transition: a trip from Closed, an attempted reset from Open, a reset (success) or a trip (failure) from PartiallyOpen; no call moves Closed to PartiallyOpen or Open to Closed |
| `CircuitBreaker.Replay` | src/Parachute/CircuitBreaker.cs:17-76 | a sequence of calls gives one reply per call |
| `CircuitBreaker.FailureCount` | src/Parachute/CircuitBreaker.cs:26-37 | the number of failing invocations in a sequence is at most its length |
| `CircuitBreaker.ReplayOnlyAppendsStamps` | src/Parachute/CircuitBreaker.cs:15-28 | over any sequence of calls the old error instants remain a prefix, and at most one instant is added per failure |
| `CircuitBreaker.FewFailuresStayClosed` | src/Parachute/CircuitBreaker.cs:20-37 | a Closed breaker whose recorded errors plus the failures to come do not exceed the threshold stays Closed and invokes the action on every call |
| `CircuitBreaker.OpenRejectsUntilTimeout` | src/Parachute/CircuitBreaker.cs:40-60 | while the timeout predicate rejects the elapsed time, an Open breaker answers every call with CircuitOpen, never invokes the action, and keeps its state |
| `CircuitBreaker.OpenWithoutErrorRejectsForever` | src/Parachute/CircuitBreaker.cs:42-59 | an Open breaker with no recorded error, under a predicate that rejects zero elapsed time (as the default does), rejects every call forever |
| `CircuitBreaker.StrictComparisonsTimeline` | src/Parachute/CircuitBreaker.cs:20-75 | threshold 1, a five-second window and the default timeout; calls at 2016-08-12 15:00:00 plus 0s success, 1s, 2s and 7s failures, 8s success. The replies are: returned, rethrown, rethrown, CircuitOpen, returned. The final state is PartiallyOpen with last error at +2s and error instants [+1s, +2s] |
| `CircuitBreaker.Breaker.Create` | src/Parachute/CircuitBreaker.cs:11-15 | a new breaker is in the configured initial state with no last error and no error instants |
| `CircuitBreaker.Breaker.Call` | src/Parachute/CircuitBreaker.cs:17-76 | the reply, whether the action ran, and the new state, last error and error instants are exactly those of `Step` on the old state |
| `Retry.Run` | src/Parachute/Retry.cs:7-29 | With `MaxRetries <= 0` the action never runs and the call returns. Otherwise it runs between 1 and `MaxRetries` times, and every run but the last failed. The last run decides the completion: success returns, failure is rethrown unchanged. A failure is rethrown only after exactly `MaxRetries` runs. So the first success at run k ends the call after k runs, and a permanent failure runs `MaxRetries` times |
| `Fallback.FirstStopFrom` | src/Parachute/Fallback.cs:10-22 | the first entry from a given position that succeeds or is equal to the last delegate; it always exists |
| `Fallback.Run` | src/Parachute/Fallback.cs:8-23 | With no actions it returns and invokes nothing. Otherwise the actions run in array order up to and including the first one that succeeds or fails while equal to `actions.Last()`. That entry's success returns, its failure is rethrown unchanged, and no later action runs |
| `Fallback.FirstEndFrom` | src/Parachute/Fallback.cs:10-22 | the first entry from a given position that succeeds, or the last entry when none does |
| `Fallback.RunInOrder` | src/Parachute/Fallback.cs:8-23 | the chain with the rethrow decided by position: actions run in order up to the first success; a failure propagates exactly when every action failed, after each ran once |
| `Fallback.SameEndWhenLastIsUnique` | src/Parachute/Fallback.cs:19 | when the last delegate appears nowhere earlier in the array, comparing delegates and comparing positions stop the chain at the same entry |
| `Fallback.RepeatedLastDelegateEndsEarly` | src/Parachute/Fallback.cs:19 | for actions A, B, A where A fails and B succeeds, the chain as written stops at the first A and rethrows; by position it would stop at B and return |
| `Policies.Policy.GetDelay` | src/Parachute/Policies/ExponentialBackoffPolicy.cs:7-10 | the instant policy returns its `Delay` for every attempt and changes nothing. The exponential delay is never negative, and it is zero exactly for attempt 0 |
| `Policies.Square` | src/Parachute/Policies/ExponentialBackoffPolicy.cs:9 | the square of an attempt number is non-negative, and zero only for zero |
| `Policies.NewInstantPolicy` | src/Parachute/Policies/InstantPolicy.cs:9-17 | a new instant policy has `Delay` zero, so it gives a zero delay for every attempt |
| `Policies.ExponentialFirstDelays` | src/Parachute.Tests/Policies/ExponentialBackoffPolicyTests.cs:11-20 | attempts 0 to 4 wait 0, 1, 4, 9 and 16 seconds |
| `Policies.ExponentialMonotone` | src/Parachute/Policies/ExponentialBackoffPolicy.cs:9 | for non-negative attempts, a later attempt never waits less |
| `Policies.ExponentialSymmetric` | src/Parachute/Policies/ExponentialBackoffPolicy.cs:9 | attempt -n waits as long as attempt n |

The methods `BreakerScenarios`, `RetryScenarios` and `FallbackScenarios` restate the unit tests as calls whose results are asserted, and `WindowOutOfRangeScenario` shows a window reaching before DateTime.MinValue:

- `src/Parachute.Tests/CircuitBreakerTests.cs:35-105`
- `src/Parachute.Tests/RetryTests.cs:20-59`
- `src/Parachute.Tests/FallbackTests.cs:9-69`

## Left out

- Wall-clock reads (`DateTime.UtcNow`, src/Parachute/CircuitBreaker.cs:28-31, 42, 53, 71) become the `now` parameter of each call. The three reads in one failure are taken to see the same instant. `now` stands for the reading of a real clock, a representable DateTime. The model does not require that of its callers, and no promise depends on it.
- Exception objects and types become `Outcome`, `Completion` and `Reply` values. `CircuitOpenException` is the `CircuitOpen` reply. A rethrow passes on the action's own error value.
- A user action's side effects become its outcome, chosen in advance per invocation: `Outcome` for the breaker, an attempt-indexed function for `Retry.Run`, one entry per array element for `Fallback.Run`.
- `HasTimeoutExpired` is any total function of the elapsed ticks. A predicate with side effects or exceptions is not modelled.
- Breaker configuration is fixed when the breaker is created. In the source the closure re-reads the mutable `CircuitBreakerConfig` properties on every call, and `CurrentState` lives on the config object, so two breakers created from one config share it. Later writes to the config and that aliasing are not modelled.
- src/Parachute/CircuitBreakerConfig.cs, a second `CircuitBreakerConfig` with `GetTimestamp`, `ExceptionThreashold`, `ExceptionTimeout` and `ResetTimeout`, is never read by `CircuitBreaker.Create` and is not part of this model. The acceptance tests written against it (src/Parachute.Tests/CircuitBreakerAcceptanceTests.cs) expect a different trace from the code's.
- `RetryConfiguration` and `RetryConfigurationExpression` are settings bags. `Retry.Run` receives their `MaxRetries` directly (default `DefaultMaxRetries` = 5). Their `Policy` is never consulted by `Retry.Run`, so no delay or sleep is modelled.
- `IPolicy` is the datatype `Policy` over its two implementations. The `Delay` setter of `InstantPolicy` is building a new `InstantPolicy(d)` value.
- `Fallback.Create`, used by src/Parachute.Tests/FallbackTests.cs:76, does not exist in src/Parachute/Fallback.cs and is not modelled.
- `Policies.Policy.GetDelay`: `Math.Pow` and `TimeSpan.FromSeconds(double)` become integer squaring in ticks. The `OverflowException` that `TimeSpan.FromSeconds` throws once attempt² seconds exceeds `TimeSpan.MaxValue` (for |attempt| ≥ 960384) is not modelled.
- Concurrency: the breaker closure is shared without locking in the source. Only sequential calls are modelled.

## Findings

| source | as written | input that shows it | evidently intended | confidence | as-written member | corrected member |
|---|---|---|---|---|---|---|
| src/Parachute/Fallback.cs:19 | a failure is rethrown when the failing delegate equals `actions.Last()` | `Fallback.Run(A, B, A)` with A failing and B succeeding: the first A's failure is rethrown after one invocation and B never runs | rethrow only when the failing action is the last one in the array, so B runs and the call returns | medium, not executed | `Fallback.RepeatedLastDelegateEndsEarly` | `Fallback.RunInOrder` |
